// What an accepted spend of a pay-to-script-hash output proves: whatever witness
// was given, the script had the committed hash, and enough of the keys have signed.
module WitnessSafety {
  import opened Wrappers
  import opened Bytes
  import opened VmTypes
  import opened Ops
  import opened Layout
  import opened Machine
  import opened StackOps
  import opened SpliceOps
  import opened CryptoOps
  import opened Interpreter
  import opened Scripts
  import opened WitnessScript
  import opened WitnessRun

  // ------------------------------------------------------------------- CHECKMULTISIG

  /** Every signature is valid for a key of its own, in the order of the keys. */
  ghost predicate Signed(ctx: Context, keys: seq<Bytes>, msg: Bytes, sigs: seq<Bytes>) {
    exists at :: Matching(ctx, keys, msg, sigs, at)
  }

  lemma ReversedTwice(s: seq<Bytes>)
    ensures Reversed(Reversed(s)) == s
  {
  }

  /** Keys and signatures come off the stack in the opposite order, which makes no difference. */
  lemma SignedReversed(ctx: Context, keys: seq<Bytes>, msg: Bytes, sigs: seq<Bytes>)
    ensures Signed(ctx, Reversed(keys), msg, Reversed(sigs)) <==> Signed(ctx, keys, msg, sigs)
  {
    hide Matching, Reversed;
    if at :| Matching(ctx, keys, msg, sigs, at) {
      MatchingReversed(ctx, keys, msg, sigs, at);
    }
    if at :| Matching(ctx, Reversed(keys), msg, Reversed(sigs), at) {
      MatchingReversed(ctx, Reversed(keys), msg, Reversed(sigs), at);
      ReversedTwice(keys);
      ReversedTwice(sigs);
    }
  }

  /** The counts, and gas for all keys, are in order. */
  predicate Countable(c: Core, sigs: nat, keys: nat) {
    sigs <= keys && (keys > 0 ==> sigs > 0) && keys * 1024 <= MAX_INT64 && keys * 1024 <= c.runLimit
  }

  lemma CountsPopped(c: Core, below: seq<Bytes>, keys: nat, sigs: nat)
    requires c.data == below + [Int64Bytes(sigs), Int64Bytes(keys)] && keys <= MAX_INT64 && sigs <= MAX_INT64
    ensures var r := PopCounts(c);
            && (r.Good? <==> Countable(c, sigs, keys))
            && (r.Good? ==> r.core.data == below && r.val == (keys, sigs) && r.core.alt == c.alt)
  {
    hide Int64Bytes, PopInt;
    assert below + [Int64Bytes(sigs), Int64Bytes(keys)] == below + [Int64Bytes(sigs)] + [Int64Bytes(keys)];
    PopIntCore(c, below + [Int64Bytes(sigs)], keys);
    var c1 := PopInt(c, true).core;
    var c2 := c1.(runLimit := c1.runLimit - keys * 1024);
    PopIntCore(c2, below, sigs);
  }

  lemma MultiSigPopped(c: Core, base: seq<Bytes>, sigs: seq<Bytes>, msg: Bytes, keys: seq<Bytes>)
    requires c.data == base + sigs + [msg] + keys + [Int64Bytes(|sigs|), Int64Bytes(|keys|)]
    requires |keys| <= MAX_INT64 && |sigs| <= MAX_INT64
    ensures var r := PopMultiSig(c);
            && (r.Good? <==> Countable(c, |sigs|, |keys|) && |msg| == 32)
            && (r.Good? ==> r.core.data == base && r.core.alt == c.alt
                            && r.val == MultiSig(Reversed(keys), msg, Reversed(sigs)))
  {
    hide Int64Bytes, PopCounts, PopMany, Pop, StackCost, Reversed;
    CountsPopped(c, base + sigs + [msg] + keys, |keys|, |sigs|);
    var r1 := PopCounts(c);
    if r1.Good? {
      PopAllCore(r1.core, base + sigs + [msg], keys);
      var c2 := PopMany(r1.core, |keys|, true).core;
      PopCore(c2, base + sigs, msg);
      PopAllCore(Pop(c2, true).core, base, sigs);
    }
  }

  /** CHECKMULTISIG fails exactly if the counts, the message or the gas are not in order.  Otherwise it replaces its
      operands by true if all keys have 32 bytes and all signatures are valid for different keys in order, and by
      false if not. */
  lemma CheckMultiSigExactly(ctx: Context, c: Core, base: seq<Bytes>, sigs: seq<Bytes>, msg: Bytes, keys: seq<Bytes>)
    requires c.data == base + sigs + [msg] + keys + [Int64Bytes(|sigs|), Int64Bytes(|keys|)]
    requires |keys| <= MAX_INT64 && |sigs| <= MAX_INT64
    ensures var r := CheckMultiSig(ctx, c);
            && (r.Good? <==> Countable(c, |sigs|, |keys|) && |msg| == 32)
            && (r.Good? ==>
                  && r.core.alt == c.alt
                  && var b := (forall i :: 0 <= i < |keys| ==> |keys[i]| == 32) && Signed(ctx, keys, msg, sigs);
                     r.core.data == base + [if b then [1] else []])
  {
    hide Int64Bytes, PopMultiSig, StackCost, AllUsedUp, Reversed, Matching;
    MultiSigPopped(c, base, sigs, msg, keys);
    GreedyIsExact(ctx, Reversed(keys), msg, Reversed(sigs));
    SignedReversed(ctx, keys, msg, sigs);
    SameSizes(keys);
  }

  lemma SameSizes(keys: seq<Bytes>)
    ensures KeysWellFormed(Reversed(keys)) <==> forall i :: 0 <= i < |keys| ==> |keys[i]| == 32
  {
    var back := Reversed(keys);
    assert forall i :: 0 <= i < |keys| ==> keys[i] == back[|keys| - 1 - i];
  }

  // ---------------------------------------------------------- what a good run has done

  /** A run that ends well has carried out the instruction it is at. */
  lemma StepBack(env: Env, prog: Bytes, insts: seq<Instruction>, i: nat, c: Core, fuel: nat)
    requires LaidOut(prog, insts) && i < |insts| && Run(env, prog, Offset(insts, i), c, fuel).Good?
    ensures fuel > 0 && Perform(env, c, insts[i].op, insts[i].data, fuel - 1).Good?
  {
    hide Perform, ParseOp;
    assert Placed(prog, insts, i);
    assert ParseOp(prog, Offset(insts, i)) == Ok(insts[i]);
  }

  lemma PlainBack(env: Env, prog: Bytes, insts: seq<Instruction>, i: nat, c: Core, fuel: nat) returns (c': Core)
    requires LaidOut(prog, insts) && i < |insts| && IsPlain(insts[i].op)
    requires Run(env, prog, Offset(insts, i), c, fuel).Good?
    ensures fuel > 0
    ensures var r := ExecPlain(env, c.(deferred := 0), insts[i].op, insts[i].data);
            r.Good? && c'.data == r.core.data && c'.alt == r.core.alt
    ensures Run(env, prog, Offset(insts, i), c, fuel) == Run(env, prog, Offset(insts, i + 1), c', fuel - 1)
  {
    hide ExecPlain, Run;
    StepBack(env, prog, insts, i, c, fuel);
    PlainPerformed(env, c, insts[i], fuel - 1);
    Next(env, prog, insts, i, c, fuel);
    c' := Perform(env, c, insts[i].op, insts[i].data, fuel - 1).core;
  }

  lemma PlainPerformed(env: Env, c: Core, inst: Instruction, fuel: nat)
    requires IsPlain(inst.op) && Perform(env, c, inst.op, inst.data, fuel).Good?
    ensures var p := Perform(env, c, inst.op, inst.data, fuel);
            var r := ExecPlain(env, c.(deferred := 0), inst.op, inst.data);
            p.val.None? && r.Good? && p.core.data == r.core.data && p.core.alt == r.core.alt
  {
    hide ExecPlain;
  }

  lemma PushBack(env: Env, prog: Bytes, insts: seq<Instruction>, i: nat, c: Core, fuel: nat, x: Bytes)
    returns (c': Core)
    requires LaidOut(prog, insts) && i < |insts| && Pushes(insts[i], x)
    requires Run(env, prog, Offset(insts, i), c, fuel).Good?
    ensures fuel > 0 && c'.data == c.data + [x] && c'.alt == c.alt
    ensures Run(env, prog, Offset(insts, i), c, fuel) == Run(env, prog, Offset(insts, i + 1), c', fuel - 1)
  {
    hide ExecPlain, Run, LaidOut;
    DispatchPush(env, c.(deferred := 0), insts[i].op, x);
    c' := PlainBack(env, prog, insts, i, c, fuel);
  }

  // ------------------------------------------------------- the script of the quorum

  lemma HashBack(env: Env, prog: Bytes, insts: seq<Instruction>, c: Core, fuel: nat) returns (c': Core, msg: Bytes)
    requires LaidOut(prog, insts) && insts != [] && insts[0] == Instruction(OP_TXSIGHASH, 1, [])
    requires Run(env, prog, 0, c, fuel).Good?
    ensures fuel > 0 && env.ctx.txSigHash == Some(msg) && c'.data == c.data + [msg] && c'.alt == c.alt
    ensures Run(env, prog, 0, c, fuel) == Run(env, prog, Offset(insts, 1), c', fuel - 1)
  {
    hide ExecPlain, Run, LaidOut, Dup, HashTop, EqualVerify, Rearrange, CheckMultiSig;
    Dispatch(env, c.(deferred := 0), []);
    assert Offset(insts, 0) == 0;
    c' := PlainBack(env, prog, insts, 0, c, fuel);
    msg := env.ctx.txSigHash.value;
  }

  lemma {:induction false} KeysBack(env: Env, prog: Bytes, insts: seq<Instruction>, keys: seq<Bytes>, quorum: nat,
                                    j: nat, c: Core, fuel: nat)
    returns (c': Core)
    requires IsScript(prog, insts, keys, quorum) && j <= |keys| && Run(env, prog, Offset(insts, 1), c, fuel).Good?
    ensures fuel >= j && c'.data == c.data + keys[..j] && c'.alt == c.alt
    ensures Run(env, prog, Offset(insts, 1), c, fuel) == Run(env, prog, Offset(insts, j + 1), c', fuel - j)
  {
    hide LaidOut, Run, Int64Bytes, Offset;
    if j == 0 {
      c' := c;
      assert c.data + keys[..0] == c.data;
    } else {
      var c1 := KeysBack(env, prog, insts, keys, quorum, j - 1, c, fuel);
      assert Pushes(insts[j - 1 + 1], keys[j - 1]);
      c' := PushBack(env, prog, insts, j, c1, fuel - (j - 1), keys[j - 1]);
      assert c.data + keys[..j - 1] + [keys[j - 1]] == c.data + keys[..j];
    }
  }

  lemma {:induction false} EnoughItems(c: Core, n: nat)
    requires PopMany(c, n, true).Good?
    ensures |PopMany(c, n, true).core.data| + n == |c.data|
  {
    hide StackCost;
    if n > 0 {
      EnoughItems(c, n - 1);
    }
  }

  /** CHECKMULTISIG that succeeds has found as many signatures as it was told. */
  lemma EnoughSignatures(ctx: Context, c: Core, below: seq<Bytes>, msg: Bytes, keys: seq<Bytes>, quorum: nat)
    requires c.data == below + [msg] + keys + [Int64Bytes(quorum), Int64Bytes(|keys|)]
    requires |keys| <= MAX_INT64 && quorum <= MAX_INT64 && CheckMultiSig(ctx, c).Good?
    ensures quorum <= |below|
  {
    hide Int64Bytes, PopCounts, PopMany, Pop, StackCost, Reversed, AllUsedUp;
    CountsPopped(c, below + [msg] + keys, |keys|, quorum);
    var c1 := PopCounts(c).core;
    PopAllCore(c1, below + [msg], keys);
    var c2 := PopMany(c1, |keys|, true).core;
    PopCore(c2, below, msg);
    EnoughItems(Pop(c2, true).core, quorum);
  }

  /** The script of a quorum, run on any stack by any context with any gas: if it ends well with true on top, the
      topmost items, as many as the quorum, are signatures of different keys. */
  lemma ScriptIsSafe(env: Env, prog: Bytes, insts: seq<Instruction>, keys: seq<Bytes>, quorum: nat, c: Core, fuel: nat)
    requires IsScript(prog, insts, keys, quorum) && quorum <= |keys| <= MAX_INT64
    requires var r := Run(env, prog, 0, c, fuel); r.Good? && !FalseTop(r.core)
    ensures env.ctx.txSigHash.Some? && quorum <= |c.data|
    ensures Signed(env.ctx, keys, env.ctx.txSigHash.value, c.data[|c.data| - quorum..])
  {
    hide LaidOut, Run, Int64Bytes, Offset, ExecPlain, Signed, Dup, HashTop, EqualVerify, Rearrange, TxSigHash,
      CheckMultiSig;
    var n := |keys|;
    var c1, msg := HashBack(env, prog, insts, c, fuel);
    var c2 := KeysBack(env, prog, insts, keys, quorum, n, c1, fuel - 1);
    var c3 := PushBack(env, prog, insts, n + 1, c2, fuel - 1 - n, Int64Bytes(quorum));
    var c4 := PushBack(env, prog, insts, n + 2, c3, fuel - 2 - n, Int64Bytes(n));
    var c5 := PlainBack(env, prog, insts, n + 3, c4, fuel - 3 - n);
    AtTheEnd(env, prog, insts, c5, fuel - 4 - n);
    var d := c4.(deferred := 0);
    Dispatch(env, d, []);
    assert keys[..n] == keys;
    assert d.data == c.data + [msg] + keys + [Int64Bytes(quorum), Int64Bytes(n)];
    EnoughSignatures(env.ctx, d, c.data, msg, keys, quorum);
    var base, sigs := c.data[..|c.data| - quorum], c.data[|c.data| - quorum..];
    assert c.data == base + sigs;
    CheckMultiSigExactly(env.ctx, d, base, sigs, msg, keys);
    EmptyIsFalse(c5, base);
  }

  lemma EmptyIsFalse(c: Core, base: seq<Bytes>)
    ensures c.data == base + [[]] ==> FalseTop(c)
  {
  }

  // ------------------------------------------------------- the program with the hash

  lemma DupBack(env: Env, prog: Bytes, insts: seq<Instruction>, i: nat, c: Core, fuel: nat) returns (c': Core, x: Bytes)
    requires LaidOut(prog, insts) && i < |insts| && insts[i] == Instruction(OP_DUP, 1, [])
    requires Run(env, prog, Offset(insts, i), c, fuel).Good?
    ensures fuel > 0 && c.data != [] && x == c.data[|c.data| - 1] && c'.data == c.data + [x] && c'.alt == c.alt
    ensures Run(env, prog, Offset(insts, i), c, fuel) == Run(env, prog, Offset(insts, i + 1), c', fuel - 1)
  {
    hide ExecPlain, Run, LaidOut, HashTop, EqualVerify, Rearrange, TxSigHash, CheckMultiSig, Offset, StackCost;
    Dispatch(env, c.(deferred := 0), []);
    c' := PlainBack(env, prog, insts, i, c, fuel);
    DupGood(c.(deferred := 0));
    x := c.data[|c.data| - 1];
  }

  lemma DupGood(c: Core)
    requires Dup(c, 1).Good?
    ensures c.data != [] && Dup(c, 1).core.data == c.data + [c.data[|c.data| - 1]] && Dup(c, 1).core.alt == c.alt
  {
    hide StackCost;
    var c1 := ApplyCost(c, 1).core;
    var c2 := Push(c1, c1.data[|c1.data| - 1], false);
    assert c2.Good? ==> PushFrom(c2.core, 1, 0) == Good(c2.core, ());
  }

  lemma HashTopBack(env: Env, prog: Bytes, insts: seq<Instruction>, i: nat, c: Core, fuel: nat, below: seq<Bytes>,
                    x: Bytes)
    returns (c': Core)
    requires LaidOut(prog, insts) && i < |insts| && insts[i] == Instruction(OP_HASH160, 1, []) && c.data == below + [x]
    requires Run(env, prog, Offset(insts, i), c, fuel).Good?
    ensures fuel > 0 && c'.data == below + [env.ctx.ripemd160(x)] && c'.alt == c.alt
    ensures Run(env, prog, Offset(insts, i), c, fuel) == Run(env, prog, Offset(insts, i + 1), c', fuel - 1)
  {
    hide ExecPlain, Run, LaidOut, Dup, EqualVerify, Rearrange, TxSigHash, CheckMultiSig, Offset, StackCost;
    Dispatch(env, c.(deferred := 0), []);
    c' := PlainBack(env, prog, insts, i, c, fuel);
    assert c.data[..|c.data| - 1] == below;
  }

  lemma EqualVerifyBack(env: Env, prog: Bytes, insts: seq<Instruction>, i: nat, c: Core, fuel: nat, below: seq<Bytes>,
                        x: Bytes, y: Bytes)
    returns (c': Core)
    requires LaidOut(prog, insts) && i < |insts| && insts[i] == Instruction(OP_EQUALVERIFY, 1, [])
    requires c.data == below + [x, y] && Run(env, prog, Offset(insts, i), c, fuel).Good?
    ensures fuel > 0 && x == y && c'.data == below && c'.alt == c.alt
    ensures Run(env, prog, Offset(insts, i), c, fuel) == Run(env, prog, Offset(insts, i + 1), c', fuel - 1)
  {
    hide ExecPlain, Run, LaidOut, Dup, HashTop, Rearrange, TxSigHash, CheckMultiSig, Offset, StackCost, EqualVerify;
    Dispatch(env, c.(deferred := 0), []);
    c' := PlainBack(env, prog, insts, i, c, fuel);
    EqualVerifyGood(c.(deferred := 0), below, x, y);
  }

  lemma EqualVerifyGood(c: Core, below: seq<Bytes>, x: Bytes, y: Bytes)
    requires c.data == below + [x, y] && EqualVerify(c).Good?
    ensures x == y && EqualVerify(c).core.data == below && EqualVerify(c).core.alt == c.alt
  {
    hide StackCost, PopTwo;
    PopTwoLeaves(ApplyCost(c, 1).core, below, x, y);
    PopTwoAlt(ApplyCost(c, 1).core);
  }

  lemma PopTwoAlt(c: Core)
    ensures PopTwo(c).core.alt == c.alt
  {
    hide StackCost;
  }

  lemma SwapBack(env: Env, prog: Bytes, insts: seq<Instruction>, i: nat, c: Core, fuel: nat, below: seq<Bytes>,
                 x: Bytes, y: Bytes)
    returns (c': Core)
    requires LaidOut(prog, insts) && i < |insts| && insts[i] == Instruction(OP_SWAP, 1, [])
    requires c.data == below + [x, y] && Run(env, prog, Offset(insts, i), c, fuel).Good?
    ensures fuel > 0 && c'.data == below + [y, x] && c'.alt == c.alt
    ensures Run(env, prog, Offset(insts, i), c, fuel) == Run(env, prog, Offset(insts, i + 1), c', fuel - 1)
  {
    hide ExecPlain, Run, LaidOut, Dup, HashTop, EqualVerify, TxSigHash, CheckMultiSig, Offset, StackCost;
    Dispatch(env, c.(deferred := 0), []);
    c' := PlainBack(env, prog, insts, i, c, fuel);
    assert Moved(c.data, 2, 1) == below + [y, x];
  }

  /** What the child of the program begins with. */
  predicate Begins(c: Core, data: seq<Bytes>) {
    c.data == data && c.alt == [] && c.unpaid == 0
  }

  lemma ChildBack(env: Env, prog: Bytes, insts: seq<Instruction>, c: Core, fuel: nat, below: seq<Bytes>, script: Bytes)
    returns (start: Core)
    requires LaidOut(prog, insts) && |insts| == 8 && insts[7] == Instruction(OP_CHECKPREDICATE, 1, [])
    requires c.data == below + [Int64Bytes(-1), script, []]
    requires var r := Run(env, prog, Offset(insts, 7), c, fuel); r.Good? && !FalseTop(r.core)
    ensures fuel > 0 && Begins(start, below)
    ensures var out := Run(env.(reserved := false), script, 0, start, fuel - 1); out.Good? && !FalseTop(out.core)
  {
    hide LaidOut, Run, Int64Bytes, StackCost, PrepareChild, ExecPlain, FalseTop;
    StepBack(env, prog, insts, 7, c, fuel);
    var c0 := c.(deferred := 0);
    assert Exec(env, c0, OP_CHECKPREDICATE, [], fuel - 1).Good?;
    assert CheckPredicate(env, c0, fuel - 1).Good?;
    PrepareGood(c0, below, script);
    var p := PrepareChild(c0);
    start := p.val.child;
    var out := Run(env.(reserved := false), script, 0, start, fuel - 1);
    Next(env, prog, insts, 7, c, fuel);
    var c' := Perform(env, c, OP_CHECKPREDICATE, [], fuel - 1).core;
    AtTheEnd(env, prog, insts, c', fuel - 1);
    assert [] + [BoolBytes(out.Good? && !FalseTop(out.core))] == c'.data;
    FalseIsFalse(c');
  }

  lemma FalseIsFalse(c: Core)
    ensures c.data == [[]] ==> FalseTop(c)
  {
  }

  lemma PrepareGood(c: Core, below: seq<Bytes>, script: Bytes)
    requires c.data == below + [Int64Bytes(-1), script, []] && c.deferred == 0 && PrepareChild(c).Good?
    ensures var r := PrepareChild(c);
            r.val.program == script && Begins(r.val.child, below) && r.core.data == [] && r.core.alt == c.alt
  {
    hide Int64Bytes, StackCost;
    assert c.runLimit >= 256;
    PrepareCore(c, below, script);
  }

  /** Whoever passes the program has shown something with the committed hash, and that something has run well on the
      rest of the witness. */
  lemma CommitmentIsSafe(env: Env, prog: Bytes, insts: seq<Instruction>, hash: Bytes, c: Core, fuel: nat)
    returns (script: Bytes, start: Core, left: nat)
    requires IsCommitment(prog, insts, hash)
    requires var r := Run(env, prog, 0, c, fuel); r.Good? && !FalseTop(r.core)
    ensures c.data != [] && script == c.data[|c.data| - 1] && env.ctx.ripemd160(script) == hash
    ensures Begins(start, c.data[..|c.data| - 1])
    ensures var out := Run(env.(reserved := false), script, 0, start, left); out.Good? && !FalseTop(out.core)
  {
    hide LaidOut, Run, Int64Bytes, FalseTop;
    assert Offset(insts, 0) == 0;
    var c1, x := DupBack(env, prog, insts, 0, c, fuel);
    var below, h := c.data[..|c.data| - 1], env.ctx.ripemd160(x);
    assert c.data == below + [x];
    var c2 := HashTopBack(env, prog, insts, 1, c1, fuel - 1, c.data, x);
    var c3 := PushBack(env, prog, insts, 2, c2, fuel - 2, hash);
    assert c.data + [h] + [hash] == c.data + [h, hash];
    var c4 := EqualVerifyBack(env, prog, insts, 3, c3, fuel - 3, c.data, h, hash);
    var m := Int64Bytes(-1);
    var c5 := PushBack(env, prog, insts, 4, c4, fuel - 4, m);
    assert c.data + [m] == below + [x, m];
    var c6 := SwapBack(env, prog, insts, 5, c5, fuel - 5, below, x, m);
    var c7 := PushBack(env, prog, insts, 6, c6, fuel - 6, []);
    assert below + [m, x] + [[]] == below + [m, x, []];
    script := x;
    start := ChildBack(env, prog, insts, c7, fuel - 7, below, x);
    left := fuel - 8;
  }

  lemma {:induction false} PushedGood(c: Core, args: seq<Bytes>)
    requires PushAll(c, args).Good?
    ensures PushAll(c, args).core.data == c.data + args
    decreases |args|
  {
    if args == [] {
      assert c.data + [] == c.data;
    } else {
      PushedGood(Push(c, args[0], false).core, args[1..]);
      assert c.data + [args[0]] + args[1..] == c.data + args;
    }
  }

  /** For every witness, gas and fuel: if an output that commits to a hash is spent, the last item of the witness has
      that hash, and if that item is the script of a quorum, the `quorum` items before it are valid signatures of the
      transaction for as many of the keys. */
  lemma WitnessIsSafe(ctx: Context, hash: Bytes, keys: seq<Bytes>, quorum: nat, gasLimit: int, world: nat, fuel: nat)
    requires |hash| == SCRIPT_HASH_SIZE && ctx.code == WitnessProgram(Emit(P2wshItems(hash)))
    requires KeysWellFormed(keys) && quorum <= |keys| <= MAX_INT64
    requires |Emit(MultiSigItems(keys, quorum))| <= MAX_INT32
    requires var v := Verify(ctx, gasLimit, world, fuel); v.Some? && v.value.err.None?
    ensures ctx.arguments != []
    ensures var n := |ctx.arguments| - 1;
            && ctx.ripemd160(ctx.arguments[n]) == hash
            && (ctx.arguments[n] == Emit(MultiSigItems(keys, quorum)) ==>
                  && ctx.txSigHash.Some? && quorum <= n
                  && Signed(ctx, keys, ctx.txSigHash.value, ctx.arguments[n - quorum..n]))
  {
    hide MultiSigItems, P2shItems, P2wshItems, Emit, Run, PushAll, IsScript, IsCommitment, KeysWellFormed,
      WitnessProgram, Signed, InstsOf, AllInstructions, FalseTop;
    WitnessOfP2wsh(hash);
    P2shIsCommitment(hash);
    var start := Core(gasLimit, 0, [], [], world, 0);
    PushedGood(start, ctx.arguments);
    assert [] + ctx.arguments == ctx.arguments;
    var env := Env(ctx, ctx.txVersion == Some(1));
    var c := PushAll(start, ctx.arguments).core;
    var x, child, left := CommitmentIsSafe(env, ctx.code, InstsOf(P2shItems(hash)), hash, c, fuel);
    if x == Emit(MultiSigItems(keys, quorum)) {
      ScriptIsScript(keys, quorum);
      var inner := env.(reserved := false);
      ScriptIsSafe(inner, x, InstsOf(MultiSigItems(keys, quorum)), keys, quorum, child, left);
      var n := |ctx.arguments| - 1;
      assert child.data == ctx.arguments[..n];
      assert ctx.arguments[..n][n - quorum..] == ctx.arguments[n - quorum..n];
    }
  }
}
