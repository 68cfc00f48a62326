// What one instruction of protocol/vm can add to the stacks: every item added is
// paid for with at least one more than its cost, and what stays unpaid when the
// run limit is exceeded is at most one field of the context.
module Frugality {
  import opened Wrappers
  import opened Bytes
  import opened VmTypes
  import opened Ops
  import opened Pushdata
  import opened Machine
  import opened StackOps
  import opened NumericOps
  import opened SpliceOps
  import opened CryptoOps
  import opened ContextOps
  import opened Interpreter

  /** The size up to which fields of the context are short. */
  const SHORT: nat := 109

  /** No instruction pushes a field of the context longer than n. */
  predicate FieldsUpTo(ctx: Context, n: nat) {
    forall op: Byte :: Field(ctx, op).Some? ==> |Field(ctx, op).value| <= n
  }

  // ------------------------------------------- what one instruction adds to the stacks

  function Items(c: Core): nat {
    |c.data| + |c.alt|
  }

  function Stacks(c: Core): nat {
    StackCost(c.data) + StackCost(c.alt)
  }

  /** What a machine is worth if every item counts one more than it costs. */
  function Weight(c: Core): int {
    Worth(c) + Items(c)
  }

  /** An instruction pays one for every item it adds, and makes the stacks at most a little larger than could be
      paid. */
  predicate Frugal<T>(c: Core, r: Res<T>) {
    c.runLimit >= 0 && r.Good? ==>
      && Weight(r.core) - r.core.deferred <= Weight(c) - c.deferred
      && Stacks(r.core) <= Worth(c) + SHORT + 7
  }

  /** An instruction that pays at once. */
  predicate Prompt<T>(c: Core, r: Res<T>) {
    c.runLimit >= 0 && r.Good? ==>
      && r.core.deferred == c.deferred
      && Weight(r.core) - r.core.deferred <= Weight(c) - c.deferred
  }

  lemma PromptIsFrugal<T>(c: Core, r: Res<T>)
    requires Pays(c, r) && Prompt(c, r)
    ensures Frugal(c, r)
  {
    hide StackCost;
  }

  lemma {:induction false} PushFromItems(c: Core, depth: nat, n: nat)
    requires 0 < depth <= |c.data|
    ensures var r := PushFrom(c, depth, n);
            r.Good? ==> Items(r.core) == Items(c) + n && r.core.deferred == c.deferred
    decreases n
  {
    hide StackCost;
    if n > 0 {
      var r := Push(c, c.data[|c.data| - depth], false);
      if r.Good? {
        PushFromItems(r.core, depth, n - 1);
      }
    }
  }

  lemma DupPrompt(c: Core, n: nat)
    requires n > 0
    ensures Prompt(c, Dup(c, n))
  {
    hide StackCost, PushFrom;
    var r := ApplyCost(c, n);
    if r.Good? && |c.data| >= n {
      PushFromItems(r.core, n, n);
    }
  }

  lemma Over2Prompt(c: Core)
    ensures Prompt(c, Over2(c))
  {
    hide StackCost, PushFrom;
    var r := ApplyCost(c, 2);
    if r.Good? && |c.data| >= 4 {
      PushFromItems(r.core, 4, 2);
    }
  }

  lemma MovesPrompt(c: Core)
    ensures Prompt(c, ToAltStack(c)) && Prompt(c, FromAltStack(c))
  {
    hide StackCost;
  }

  lemma NipPrompt(c: Core)
    ensures Prompt(c, Nip(c))
  {
    hide StackCost;
  }

  lemma TuckPrompt(c: Core)
    ensures Prompt(c, Tuck(c))
  {
    hide StackCost;
  }

  lemma CopiesPrompt(c: Core, x: Bytes)
    ensures Prompt(c, PushBytes(c, x)) && Prompt(c, IfDup(c)) && Prompt(c, Depth(c)) && Prompt(c, Over(c))
  {
    hide StackCost, Int64Bytes;
  }

  /** An instruction that does not add items. */
  predicate NoMore<T>(c: Core, r: Res<T>) {
    r.Good? ==> Items(r.core) <= Items(c) && r.core.deferred == c.deferred
  }

  lemma NoMoreIsFrugal<T>(c: Core, r: Res<T>)
    requires Pays(c, r) && NoMore(c, r)
    ensures Frugal(c, r)
  {
    hide StackCost;
  }

  lemma DropsNoMore(c: Core)
    ensures NoMore(c, Drop(c)) && NoMore(c, Drop2(c))
  {
    hide StackCost, Net, Worth;
  }

  lemma PickNoMore(c: Core)
    ensures NoMore(c, Pick(c))
  {
    hide StackCost, Net, Worth, Level, AsInt64;
  }

  lemma RollNoMore(c: Core)
    ensures NoMore(c, Roll(c))
  {
    hide StackCost, Net, Worth, Level, AsInt64;
  }

  lemma RearrangeNoMore(c: Core, cost: nat, n: nat, m: nat)
    requires m <= n && cost > 0
    ensures NoMore(c, Rearrange(c, cost, n, m))
  {
    hide StackCost, Net, Worth, Level;
  }

  lemma StackFrugal(c: Core, op: Byte)
    ensures Frugal(c, ExecStack(c, op))
  {
    hide StackCost, Pays, Frugal, Prompt, NoMore, Dup, Over2, ToAltStack, FromAltStack, Nip, Tuck, IfDup, Depth, Over,
      Drop, Drop2, Pick, Roll, Rearrange;
    var r := ExecStack(c, op);
    if op == OP_2DROP || op == OP_DROP {
      DropsNoMore(c);
      NoMoreIsFrugal(c, r);
    } else if op == OP_PICK {
      PickNoMore(c);
      NoMoreIsFrugal(c, r);
    } else if op == OP_ROLL {
      RollNoMore(c);
      NoMoreIsFrugal(c, r);
    } else {
      RearrangeNoMore(c, 2, 6, 2);
      RearrangeNoMore(c, 2, 4, 2);
      RearrangeNoMore(c, 2, 3, 1);
      RearrangeNoMore(c, 1, 2, 1);
      DupPrompt(c, 1);
      DupPrompt(c, 2);
      DupPrompt(c, 3);
      Over2Prompt(c);
      MovesPrompt(c);
      NipPrompt(c);
      TuckPrompt(c);
      CopiesPrompt(c, []);
      if NoMore(c, r) {
        NoMoreIsFrugal(c, r);
      } else {
        PromptIsFrugal(c, r);
      }
    }
  }

  // -------------------------------------------------- instructions that defer their cost

  /** A part of an instruction that takes as many as k items away and adds no worth. */
  predicate Removes<T>(c: Core, r: Res<T>, k: nat) {
    r.Good? ==>
      && Items(r.core) + k <= Items(c)
      && (c.runLimit >= 0 ==> r.core.runLimit >= 0 && Worth(r.core) <= Worth(c))
  }

  /** What is pushed last may stay unpaid. */
  lemma PushLast(c: Core, x: Bytes)
    ensures var r := Push(c, x, true);
            r.Good? && Items(r.core) == Items(c) + 1 && Stacks(r.core) == Stacks(c) + 8 + |x|
  {
    hide StackCost;
    StackCostSnoc(c.data, x);
  }

  lemma PopRemoves(c: Core)
    ensures Removes(c, Pop(c, true), 1) && Removes(c, PopInt(c, true), 1) && Removes(c, PopNat(c), 1)
  {
    hide StackCost, AsInt64;
  }

  /** An instruction that leaves no more items and little more than could be paid. */
  predicate Modest<T>(c: Core, r: Res<T>) {
    c.runLimit >= 0 && r.Good? ==> Items(r.core) <= Items(c) && Stacks(r.core) <= Worth(c) + SHORT + 7
  }

  lemma ModestIsFrugal<T>(c: Core, r: Res<T>)
    requires Pays(c, r) && Modest(c, r)
    ensures Frugal(c, r)
  {
    hide StackCost;
  }

  lemma PushModest(c: Core, mid: Core, x: Bytes)
    requires Removes(c, Good(mid, ()), 1) && |x| <= 16
    ensures Modest(c, Push(mid, x, true))
  {
    hide StackCost, Push;
    PushLast(mid, x);
  }

  lemma ResultModest(c: Core, mid: Core, v: Result<Bytes, VmError>)
    requires Removes(c, Good(mid, ()), 1) && (v.Ok? ==> |v.value| <= 8)
    ensures Modest(c, PushResult(mid, v))
  {
    hide Push, Removes;
    if v.Ok? {
      PushModest(c, mid, v.value);
    }
  }

  lemma ValuesAreShort(op: Byte, x: int, y: int)
    ensures UnaryValue(op, x).Ok? ==> |UnaryValue(op, x).value| <= 8
    ensures BinaryValue(op, x, y).Ok? ==> |BinaryValue(op, x, y).value| <= 8
    ensures y >= 0 && ShiftedLeft(x, y).Ok? ==> |ShiftedLeft(x, y).value| <= 8
  {
    hide Int64Bytes, Power2, Quotient, Modulo;
  }

  lemma UnaryModest(c: Core, op: Byte)
    ensures Modest(c, Unary(c, op))
  {
    hide StackCost, PushResult, PopInt, UnaryValue;
    var r := ApplyCost(c, 2);
    if r.Good? {
      PopRemoves(r.core);
      var p := PopInt(r.core, true);
      if p.Good? {
        ValuesAreShort(op, p.val, 0);
        ResultModest(c, p.core, UnaryValue(op, p.val));
      }
    }
  }

  lemma PopTwoRemoves(c: Core)
    ensures Removes(c, PopTwo(c), 2) && Removes(c, PopTwoInts(c), 2)
  {
    hide StackCost, AsInt64, Pop, PopInt;
    PopRemoves(c);
    var p, q := Pop(c, true), PopInt(c, true);
    if p.Good? {
      PopRemoves(p.core);
    }
    if q.Good? {
      PopRemoves(q.core);
    }
  }

  lemma BinaryModest(c: Core, op: Byte)
    ensures Modest(c, Binary(c, op))
  {
    hide StackCost, PushResult, PopTwoInts, BinaryValue;
    var cost := if op == OP_MUL || op == OP_DIV || op == OP_MOD || op == OP_RSHIFT then 8 else 2;
    var r := ApplyCost(c, cost);
    if r.Good? {
      PopTwoRemoves(r.core);
      var p := PopTwoInts(r.core);
      if p.Good? {
        ValuesAreShort(op, p.val.0, p.val.1);
        ResultModest(c, p.core, BinaryValue(op, p.val.0, p.val.1));
      }
    }
  }

  lemma LshiftModest(c: Core)
    ensures Modest(c, Lshift(c))
  {
    hide StackCost, PushResult, PopInt, ShiftedLeft;
    var r := ApplyCost(c, 8);
    if r.Good? {
      PopRemoves(r.core);
      var p := PopInt(r.core, true);
      if p.Good? && p.val >= 0 {
        PopRemoves(p.core);
        var q := PopInt(p.core, true);
        if q.Good? {
          ValuesAreShort(0, q.val, p.val);
          ResultModest(c, q.core, ShiftedLeft(q.val, p.val));
        }
      }
    }
  }

  lemma LogicModest(c: Core, op: Byte)
    ensures Modest(c, Logic(c, op)) && Modest(c, NumEqualVerify(c))
  {
    hide StackCost, PopTwo, PopTwoInts, Push, AsBool;
    var r := ApplyCost(c, 2);
    if r.Good? {
      PopTwoRemoves(r.core);
      var p := PopTwo(r.core);
      if p.Good? {
        PushModest(c, p.core, BoolBytes(true));
        PushModest(c, p.core, BoolBytes(false));
      }
    }
  }

  lemma WithinModest(c: Core)
    ensures Modest(c, NumericOps.Within(c))
  {
    hide StackCost, PopTwoInts, PopInt, Push;
    var r := ApplyCost(c, 4);
    if r.Good? {
      PopTwoRemoves(r.core);
      var p := PopTwoInts(r.core);
      if p.Good? {
        PopRemoves(p.core);
        var q := PopInt(p.core, true);
        if q.Good? {
          PushModest(c, q.core, BoolBytes(true));
          PushModest(c, q.core, BoolBytes(false));
        }
      }
    }
  }

  lemma NumericModest(c: Core, op: Byte)
    ensures Modest(c, ExecNumeric(c, op))
  {
    hide Modest, Unary, Binary, Lshift, Logic, NumEqualVerify, NumericOps.Within;
    UnaryModest(c, op);
    BinaryModest(c, op);
    LshiftModest(c);
    LogicModest(c, op);
    WithinModest(c);
  }

  // ------------------------------------------------------------------ byte strings

  /** Popping takes the size of the item from the stacks. */
  lemma PopShrinks(c: Core)
    ensures var r := Pop(c, true);
            r.Good? ==> Stacks(r.core) + 8 + |r.val| == Stacks(c) && Items(r.core) + 1 == Items(c)
  {
  }

  lemma PopTwoShrinks(c: Core)
    ensures var r := PopTwo(c);
            r.Good? ==> Stacks(r.core) + 16 + |r.val.0| + |r.val.1| == Stacks(c) && Items(r.core) + 2 == Items(c)
  {
    hide StackCost, Pop;
    PopShrinks(c);
    var p := Pop(c, true);
    if p.Good? {
      PopShrinks(p.core);
    }
  }

  lemma CatModest(c: Core, asPushdata: bool)
    ensures Modest(c, Concatenate(c, asPushdata))
  {
    hide StackCost, PopTwo, Push;
    var r := ApplyCost(c, 4);
    if r.Good? {
      PopTwoShrinks(r.core);
      var p := PopTwo(r.core);
      if p.Good? {
        var (a, b) := p.val;
        var q := ApplyCost(p.core, |a| + |b|);
        PushLast(Defer(q.core, -(|a| + |b|)), a + if asPushdata then PushdataBytes(b) else b);
      }
    }
  }

  lemma BitwiseModest(c: Core, op: Byte)
    ensures Modest(c, Bitwise(c, op))
  {
    hide StackCost, PopTwo, Push, BitOp;
    var r := ApplyCost(c, 1);
    if r.Good? {
      PopTwoShrinks(r.core);
      var p := PopTwo(r.core);
      if p.Good? {
        var x := BitwiseValue(op, p.val.0, p.val.1);
        var q := ApplyCost(p.core, |x|);
        PushLast(q.core, x);
      }
    }
  }

  lemma CompareModest(c: Core)
    ensures Modest(c, Equal(c)) && Modest(c, EqualVerify(c))
  {
    hide StackCost, PopTwo, Push;
    var r := ApplyCost(c, 1);
    if r.Good? {
      PopTwoShrinks(r.core);
      var p := PopTwo(r.core);
      if p.Good? {
        var q := ApplyCost(p.core, Min(|p.val.0|, |p.val.1|));
        PushLast(q.core, BoolBytes(true));
        PushLast(q.core, BoolBytes(false));
      }
    }
  }

  lemma PopSizeShrinks(c: Core)
    ensures var r := PopSize(c); r.Good? ==> Stacks(r.core) <= Stacks(c) && Items(r.core) + 1 == Items(c)
  {
    hide StackCost, Pop, AsInt64;
    var r := ApplyCost(c, 4);
    PopShrinks(r.core);
  }

  lemma SliceModest(c: Core)
    ensures Modest(c, Left(c)) && Modest(c, Right(c))
  {
    hide StackCost, Pop, PopSize, Push;
    PopSizeShrinks(c);
    var r := PopSize(c);
    if r.Good? {
      PopShrinks(r.core);
      var p := Pop(r.core, true);
      if p.Good? && r.val <= |p.val| {
        PushLast(p.core, p.val[..r.val]);
        PushLast(p.core, p.val[|p.val| - r.val..]);
      }
    }
  }

  lemma SubstrModest(c: Core)
    ensures Modest(c, Substr(c))
  {
    hide StackCost, Pop, PopSize, Push, AsInt64;
    PopSizeShrinks(c);
    var r := PopSize(c);
    if r.Good? {
      PopShrinks(r.core);
      var n := PopInt(r.core, true);
      if n.Good? && n.val >= 0 {
        PopShrinks(n.core);
        var p := Pop(n.core, true);
        if p.Good? && n.val + r.val <= |p.val| {
          PushLast(p.core, p.val[n.val..n.val + r.val]);
        }
      }
    }
  }

  lemma InvertModest(c: Core)
    ensures NoMore(c, Invert(c))
  {
    hide StackCost;
  }

  lemma SizeFrugal(c: Core)
    ensures Frugal(c, SizeOf(c))
  {
    hide StackCost, Push, Int64Bytes;
    var r := ApplyCost(c, 1);
    if r.Good? && c.data != [] {
      PushLast(r.core, Int64Bytes(|c.data[|c.data| - 1]|));
    }
  }

  lemma SpliceFrugal(c: Core, op: Byte)
    ensures Frugal(c, ExecSplice(c, op))
  {
    hide StackCost, Pays, Frugal, NoMore, Modest, Concatenate, Substr, Left, Right, SizeOf, Invert, Equal, EqualVerify,
      Bitwise;
    SizeFrugal(c);
    CatModest(c, true);
    CatModest(c, false);
    BitwiseModest(c, op);
    CompareModest(c);
    SliceModest(c);
    SubstrModest(c);
    InvertModest(c);
    var r := ExecSplice(c, op);
    if op == OP_INVERT {
      NoMoreIsFrugal(c, r);
    } else if op != OP_SIZE {
      ModestIsFrugal(c, r);
    }
  }

  // ---------------------------------------------------------- hashes and the context

  lemma HashPrompt(ctx: Context, c: Core, op: Byte)
    ensures NoMore(c, HashTop(ctx, c, op))
  {
    hide StackCost, Net, Worth, Level;
  }

  lemma TxSigHashPrompt(ctx: Context, c: Core)
    ensures Prompt(c, TxSigHash(ctx, c))
  {
    hide StackCost;
  }

  lemma CheckSigModest(ctx: Context, c: Core)
    ensures Modest(c, CheckSig(ctx, c))
  {
    hide StackCost, PopTwo, Pop, Push;
    var r := ApplyCost(c, 1024);
    if r.Good? {
      PopTwoShrinks(r.core);
      var p := PopTwo(r.core);
      if p.Good? {
        PopShrinks(p.core);
        var q := Pop(p.core, true);
        if q.Good? {
          PushLast(q.core, BoolBytes(true));
          PushLast(q.core, BoolBytes(false));
        }
      }
    }
  }

  lemma {:induction false} PopManyShrinks(c: Core, n: nat, deferred: bool)
    ensures var r := PopMany(c, n, deferred); r.Good? ==> Stacks(r.core) <= Stacks(c) && Items(r.core) + n == Items(c)
    ensures var r := PopMany(c, n, deferred); r.Good? && !deferred ==> r.core.deferred == c.deferred
  {
    hide StackCost;
    if n > 0 {
      PopManyShrinks(c, n - 1, deferred);
      var r := PopMany(c, n - 1, deferred);
      if r.Good? {
        PopShrinks(r.core);
      }
    }
  }

  lemma CheckMultiSigModest(ctx: Context, c: Core)
    ensures Modest(c, CheckMultiSig(ctx, c))
  {
    hide StackCost, PopMultiSig, Push, AllUsedUp, KeysWellFormed;
    var p := PopMultiSig(c);
    if p.Good? {
      PopMultiSigShrinks(c);
      PushLast(p.core, BoolBytes(true));
      PushLast(p.core, BoolBytes(false));
    }
  }

  lemma PopCountsShrinks(c: Core)
    ensures var r := PopCounts(c); r.Good? ==> Stacks(r.core) <= Stacks(c) && Items(r.core) + 1 <= Items(c)
  {
    hide StackCost, Pop, AsInt64;
    PopShrinks(c);
    var p := PopInt(c, true);
    if p.Good? {
      var q := ApplyCost(p.core, p.val * 1024);
      PopShrinks(q.core);
    }
  }

  lemma PopMultiSigShrinks(c: Core)
    ensures var r := PopMultiSig(c); r.Good? ==> Stacks(r.core) <= Stacks(c) && Items(r.core) + 1 <= Items(c)
  {
    hide StackCost, Pop, PopMany, PopCounts;
    PopCountsShrinks(c);
    var n := PopCounts(c);
    if n.Good? {
      PopManyShrinks(n.core, n.val.0, true);
      var p := PopMany(n.core, n.val.0, true);
      if p.Good? {
        PopShrinks(p.core);
        var q := Pop(p.core, true);
        if q.Good? {
          PopManyShrinks(q.core, n.val.1, true);
        }
      }
    }
  }

  lemma CryptoFrugal(ctx: Context, c: Core, op: Byte)
    ensures Frugal(c, ExecCrypto(ctx, c, op))
  {
    hide StackCost, Pays, Frugal, NoMore, Prompt, Modest, HashTop, TxSigHash, CheckSig, CheckMultiSig;
    HashPrompt(ctx, c, op);
    TxSigHashPrompt(ctx, c);
    CheckSigModest(ctx, c);
    CheckMultiSigModest(ctx, c);
    var r := ExecCrypto(ctx, c, op);
    if op == OP_CHECKSIG || op == OP_CHECKMULTISIG {
      ModestIsFrugal(c, r);
    } else if op == OP_TXSIGHASH {
      PromptIsFrugal(c, r);
    } else {
      NoMoreIsFrugal(c, r);
    }
  }

  lemma FieldFrugal(ctx: Context, c: Core, op: Byte)
    requires FieldsUpTo(ctx, SHORT)
    ensures Frugal(c, PushField(ctx, c, op))
  {
    hide StackCost, Push, Field;
    var r := ApplyCost(c, 1);
    var f := Field(ctx, op);
    if r.Good? && f.Some? {
      PushLast(r.core, f.value);
    }
  }

  lemma CheckOutputModest(ctx: Context, reserved: bool, c: Core)
    ensures Modest(c, CheckOutput(ctx, reserved, c))
  {
    hide StackCost, Pop, PopNat, Push;
    var r := ApplyCost(c, 16);
    if r.Good? {
      PopRemoves(r.core);
      var p := Pop(r.core, true);
      if p.Good? {
        PopRemoves(p.core);
        var q := PopNat(p.core);
        if q.Good? {
          PopRemoves(q.core);
          var s := Pop(q.core, true);
          if s.Good? {
            PopRemoves(s.core);
            var t := PopNat(s.core);
            if t.Good? {
              PopRemoves(t.core);
              var u := PopNat(t.core);
              PushLast(u.core, BoolBytes(true));
              PushLast(u.core, BoolBytes(false));
            }
          }
        }
      }
    }
  }

  lemma ContractNoMore(ctx: Context, c: Core, op: Byte)
    ensures NoMore(c, RunContract(ctx, c, op))
  {
    hide StackCost, PopMessage;
    PopMessageShrinks(c, op);
  }

  lemma PopMessageShrinks(c: Core, op: Byte)
    ensures var r := PopMessage(c, op); r.Good? ==> Items(r.core) + 1 <= Items(c) && r.core.deferred == c.deferred
  {
    hide StackCost, Net, Worth, Level, PopMany, AsBool;
    var p := Pop(c, false);
    if p.Good? {
      var q := Pop(p.core, false);
      if q.Good? {
        PopManyShrinks(q.core, if op == OP_CREATE then 2 else 3, false);
      }
    }
  }

  lemma TransferNoMore(ctx: Context, c: Core, op: Byte)
    ensures NoMore(c, Transfer(ctx, c, op))
  {
    hide StackCost, Net, Worth, Level, NonZeroLow;
  }

  lemma ContextFrugal(env: Env, c: Core, op: Byte)
    requires FieldsUpTo(env.ctx, SHORT)
    ensures Frugal(c, ExecContext(env, c, op))
  {
    hide StackCost, Pays, Frugal, NoMore, Modest, FieldsUpTo, CheckOutput, PushField, RunContract, Transfer;
    var r := ExecContext(env, c, op);
    if op == OP_CHECKOUTPUT {
      CheckOutputModest(env.ctx, env.reserved, c);
      ModestIsFrugal(c, r);
    } else if op <= OP_BLOCKHEIGHT {
      FieldFrugal(env.ctx, c, op);
    } else {
      ContractNoMore(env.ctx, c, op);
      TransferNoMore(env.ctx, c, op);
      NoMoreIsFrugal(c, r);
    }
  }

  lemma SimpleNoMore(c: Core)
    ensures NoMore(c, Nop(c)) && Modest(c, VerifyTop(c)) && NoMore(c, Fail(c))
  {
    hide StackCost, Pop, AsBool;
    PopShrinks(ApplyCost(c, 1).core);
  }

  /** Every instruction without control flow is frugal if the fields of the context are short. */
  lemma PlainFrugal(env: Env, c: Core, op: Byte, data: Bytes)
    requires FieldsUpTo(env.ctx, SHORT)
    ensures Frugal(c, ExecPlain(env, c, op, data))
  {
    hide StackCost, Pays, Frugal, NoMore, Prompt, Modest, FieldsUpTo, PushBytes, Int64Bytes, VerifyTop, Fail, Nop,
      ExecStack, ExecSplice, ExecNumeric, ExecCrypto, ExecContext;
    var r := ExecPlain(env, c, op, data);
    if op == OP_0 || PushesData(op) || op == OP_1NEGATE {
      CopiesPrompt(c, []);
      CopiesPrompt(c, data);
      CopiesPrompt(c, Int64Bytes(-1));
      PromptIsFrugal(c, r);
    } else if OP_TOALTSTACK <= op <= OP_TUCK {
      StackFrugal(c, op);
    } else if OP_CAT <= op <= OP_CATPUSHDATA {
      SpliceFrugal(c, op);
    } else if OP_1ADD <= op <= OP_WITHIN {
      NumericModest(c, op);
      ModestIsFrugal(c, r);
    } else if OP_SHA256 <= op <= OP_TXSIGHASH {
      CryptoFrugal(env.ctx, c, op);
    } else if OP_CHECKOUTPUT <= op <= OP_WITHDRAW {
      ContextFrugal(env, c, op);
    } else {
      SimpleNoMore(c);
      if op == OP_VERIFY {
        ModestIsFrugal(c, r);
      } else {
        NoMoreIsFrugal(c, r);
      }
    }
  }
}
