// The run of a pay-to-script-hash program on a witness: every signature check
// succeeds and the program is accepted, given enough gas.
module WitnessRun {
  import opened Wrappers
  import opened Bytes
  import opened VmTypes
  import opened Ops
  import opened Pushdata
  import opened Layout
  import opened Machine
  import opened StackOps
  import opened SpliceOps
  import opened CryptoOps
  import opened Interpreter
  import opened Scripts
  import opened WitnessScript

  // ----------------------------------------------------------- single instructions

  lemma DupCore(c: Core, below: seq<Bytes>, x: Bytes)
    requires c.data == below + [x] && c.runLimit >= 1 + ItemCost(x)
    ensures Dup(c, 1) == Good(c.(runLimit := c.runLimit - 1 - ItemCost(x), data := below + [x, x]), ())
  {
    var c1 := c.(runLimit := c.runLimit - 1);
    var c2 := c1.(runLimit := c1.runLimit - ItemCost(x), data := c.data + [x]);
    assert Push(c1, c1.data[|c1.data| - 1], false) == Good(c2, ());
    assert PushFrom(c2, 1, 0) == Good(c2, ());
    assert c.data + [x] == below + [x, x];
  }

  lemma Hash160Core(ctx: Context, c: Core, below: seq<Bytes>, x: Bytes)
    requires c.data == below + [x] && c.runLimit >= 2 * |x| + 80 + |ctx.ripemd160(x)|
    ensures HashTop(ctx, c, OP_HASH160) ==
            Good(c.(runLimit := c.runLimit - 2 * |x| - 80 - |ctx.ripemd160(x)|, data := below + [ctx.ripemd160(x)]), ())
  {
    assert c.data[..|c.data| - 1] == below;
  }

  lemma PushCore(c: Core, x: Bytes)
    requires c.runLimit >= 1 + ItemCost(x)
    ensures PushBytes(c, x) == Good(c.(runLimit := c.runLimit - 1 - ItemCost(x), data := c.data + [x]), ())
  {
  }

  lemma EqualVerifyCore(c: Core, below: seq<Bytes>, x: Bytes)
    requires c.data == below + [x, x] && c.runLimit >= 1 + |x|
    ensures EqualVerify(c) ==
            Good(c.(runLimit := c.runLimit - 1 - |x|, deferred := c.deferred + 2 * ItemCost(x), data := below), ())
  {
    hide Pop, StackCost;
    var c1 := c.(runLimit := c.runLimit - 1);
    assert c1.data == below + [x] + [x];
    PopCore(c1, below + [x], x);
    PopCore(Pop(c1, true).core, below, x);
    assert PopTwo(c1) == Good(c1.(deferred := c1.deferred + 2 * ItemCost(x), data := below), (x, x));
  }

  lemma SwapCore(c: Core, below: seq<Bytes>, x: Bytes, y: Bytes)
    requires c.data == below + [x, y] && c.runLimit >= 1
    ensures Rearrange(c, 1, 2, 1) == Good(c.(runLimit := c.runLimit - 1, data := below + [y, x]), ())
  {
    assert Moved(c.data, 2, 1) == below + [y, x];
  }

  lemma TxSigHashCore(ctx: Context, c: Core, h: Bytes)
    requires ctx.txSigHash == Some(h) && c.runLimit >= 256 + ItemCost(h)
    ensures TxSigHash(ctx, c) == Good(c.(runLimit := c.runLimit - 256 - ItemCost(h), data := c.data + [h]), ())
  {
  }

  /** Which function carries out which instruction. */
  lemma Dispatch(env: Env, c: Core, data: Bytes)
    ensures ExecPlain(env, c, OP_DUP, data) == Dup(c, 1)
    ensures ExecPlain(env, c, OP_HASH160, data) == HashTop(env.ctx, c, OP_HASH160)
    ensures ExecPlain(env, c, OP_EQUALVERIFY, data) == EqualVerify(c)
    ensures ExecPlain(env, c, OP_SWAP, data) == Rearrange(c, 1, 2, 1)
    ensures ExecPlain(env, c, OP_TXSIGHASH, data) == TxSigHash(env.ctx, c)
    ensures ExecPlain(env, c, OP_CHECKMULTISIG, data) == CheckMultiSig(env.ctx, c)
  {
    hide Dup, HashTop, EqualVerify, Rearrange, TxSigHash, CheckMultiSig;
  }

  lemma DispatchPush(env: Env, c: Core, op: Byte, data: Bytes)
    requires (op == OP_0 && data == []) || PushesData(op)
    ensures ExecPlain(env, c, op, data) == PushBytes(c, data)
  {
    hide PushBytes;
  }

  // -------------------------------------------------------------- CHECKMULTISIG

  lemma PopIntCore(c: Core, below: seq<Bytes>, n: int)
    requires c.data == below + [Int64Bytes(n)] && FitsInt64(n)
    ensures PopInt(c, true) == Good(c.(deferred := c.deferred + ItemCost(Int64Bytes(n)), data := below), n)
  {
    hide Int64Bytes, AsInt64;
    Int64RoundTrip(n);
    assert c.data[..|c.data| - 1] == below;
  }

  lemma PopCountsCore(c: Core, below: seq<Bytes>, keys: nat, sigs: nat)
    requires c.data == below + [Int64Bytes(sigs), Int64Bytes(keys)]
    requires 0 < sigs <= keys && keys * 1024 <= MAX_INT64 && c.runLimit >= keys * 1024
    ensures PopCounts(c) ==
            Good(c.(runLimit := c.runLimit - keys * 1024, data := below,
                    deferred := c.deferred + ItemCost(Int64Bytes(keys)) + ItemCost(Int64Bytes(sigs))), (keys, sigs))
  {
    hide Int64Bytes, PopInt;
    assert below + [Int64Bytes(sigs), Int64Bytes(keys)] == below + [Int64Bytes(sigs)] + [Int64Bytes(keys)];
    PopIntCore(c, below + [Int64Bytes(sigs)], keys);
    var c1 := PopInt(c, true).core;
    var c2 := c1.(runLimit := c1.runLimit - keys * 1024);
    PopIntCore(c2, below, sigs);
  }

  lemma PopAllCore(c: Core, below: seq<Bytes>, items: seq<Bytes>)
    requires c.data == below + items
    ensures PopMany(c, |items|, true) ==
            Good(c.(data := below, deferred := c.deferred + StackCost(items)), Reversed(items))
  {
    hide StackCost, PopMany;
    PopManyReversed(c, below, items, |items|);
    assert items[..0] == [] && items[0..] == items && below + [] == below;
    assert PopMany(c, |items|, true).val == Reversed(items);
  }

  lemma PopMultiSigCore(c: Core, sigs: seq<Bytes>, msg: Bytes, keys: seq<Bytes>)
    requires c.data == sigs + [msg] + keys + [Int64Bytes(|sigs|), Int64Bytes(|keys|)] && |msg| == MESSAGE_SIZE
    requires 0 < |sigs| <= |keys| && |keys| * 1024 <= MAX_INT64 && c.runLimit >= |keys| * 1024
    ensures PopMultiSig(c) ==
            Good(c.(runLimit := c.runLimit - |keys| * 1024, data := [],
                    deferred := c.deferred + ItemCost(Int64Bytes(|keys|)) + ItemCost(Int64Bytes(|sigs|)) +
                                StackCost(keys) + ItemCost(msg) + StackCost(sigs)),
                 MultiSig(Reversed(keys), msg, Reversed(sigs)))
  {
    hide Int64Bytes, PopCounts, PopMany, Pop, StackCost, Reversed;
    PopCountsCore(c, sigs + [msg] + keys, |keys|, |sigs|);
    var c1 := PopCounts(c).core;
    PopAllCore(c1, sigs + [msg], keys);
    var c2 := PopMany(c1, |keys|, true).core;
    PopCore(c2, sigs, msg);
    var c3 := Pop(c2, true).core;
    assert c3.data == [] + sigs;
    PopAllCore(c3, [], sigs);
  }

  lemma MultiSigCore(ctx: Context, c: Core, sigs: seq<Bytes>, msg: Bytes, keys: seq<Bytes>)
    requires c.data == sigs + [msg] + keys + [Int64Bytes(|sigs|), Int64Bytes(|keys|)] && |msg| == MESSAGE_SIZE
    requires 0 < |sigs| <= |keys| && |keys| * 1024 <= MAX_INT64 && c.runLimit >= |keys| * 1024
    requires KeysWellFormed(keys) && AllUsedUp(ctx, Reversed(keys), msg, Reversed(sigs))
    ensures var r := CheckMultiSig(ctx, c);
            && r.Good? && r.core.runLimit == c.runLimit - |keys| * 1024 && r.core.data == [[1]] && r.core.alt == c.alt
            && r.core.deferred <= c.deferred + 89 + StackCost(keys) + StackCost(sigs)
  {
    hide Int64Bytes, PopMultiSig, StackCost, AllUsedUp;
    PopMultiSigCore(c, sigs, msg, keys);
    assert [] + [[1]] == [[1]];
    assert KeysWellFormed(Reversed(keys));
  }

  // ------------------------------------------------------------ running instructions

  /** These items are on the stack and there is at least so much left. */
  predicate Now(c: Core, data: seq<Bytes>, left: int) {
    c.data == data && c.alt == [] && c.runLimit >= left >= 0
  }

  lemma Next(env: Env, prog: Bytes, insts: seq<Instruction>, i: nat, c: Core, fuel: nat)
    requires LaidOut(prog, insts) && i < |insts| && fuel > 0
    requires var r := Perform(env, c, insts[i].op, insts[i].data, fuel - 1); r.Good? && r.val.None?
    ensures Run(env, prog, Offset(insts, i), c, fuel) ==
            Run(env, prog, Offset(insts, i + 1), Perform(env, c, insts[i].op, insts[i].data, fuel - 1).core, fuel - 1)
  {
    hide Perform, ParseOp;
    assert Placed(prog, insts, i);
    assert ParseOp(prog, Offset(insts, i)) == Ok(insts[i]);
  }

  predicate IsPlain(op: Byte) {
    !IsJump(op) && !IsExpansion(op) && op != OP_CHECKPREDICATE
  }

  lemma PlainNext(env: Env, prog: Bytes, insts: seq<Instruction>, i: nat, c: Core, fuel: nat, data: seq<Bytes>,
                  left: nat)
    returns (c': Core)
    requires LaidOut(prog, insts) && i < |insts| && fuel > 0 && IsPlain(insts[i].op)
    requires var r := ExecPlain(env, c.(deferred := 0), insts[i].op, insts[i].data);
             r.Good? && r.core.data == data && r.core.alt == [] && r.core.runLimit - r.core.deferred >= left
    ensures Now(c', data, left)
    ensures Run(env, prog, Offset(insts, i), c, fuel) == Run(env, prog, Offset(insts, i + 1), c', fuel - 1)
  {
    hide ExecPlain, Run;
    Next(env, prog, insts, i, c, fuel);
    c' := Perform(env, c, insts[i].op, insts[i].data, fuel - 1).core;
  }

  /** An instruction that pushes just this. */
  predicate Pushes(inst: Instruction, data: Bytes) {
    inst.data == data && ((inst.op == OP_0 && data == []) || PushesData(inst.op))
  }

  lemma PushNext(env: Env, prog: Bytes, insts: seq<Instruction>, i: nat, c: Core, fuel: nat, data: seq<Bytes>,
                 left: nat)
    returns (c': Core)
    requires LaidOut(prog, insts) && i < |insts| && fuel > 0
    requires Pushes(insts[i], insts[i].data)
    requires Now(c, data, left + 9 + |insts[i].data|)
    ensures Now(c', data + [insts[i].data], left)
    ensures Run(env, prog, Offset(insts, i), c, fuel) == Run(env, prog, Offset(insts, i + 1), c', fuel - 1)
  {
    hide ExecPlain, Run, PushBytes;
    var x := insts[i].data;
    PushCore(c.(deferred := 0), x);
    DispatchPush(env, c.(deferred := 0), insts[i].op, x);
    c' := PlainNext(env, prog, insts, i, c, fuel, data + [x], left);
  }

  lemma PushIntInst(n: int)
    requires FitsInt64(n)
    ensures var item := Chunk(PushdataInt64(n));
            IsInstruction(item) && |PushdataInt64(n)| <= 9 && Pushes(InstOf(item), Int64Bytes(n))
  {
    hide LittleEndian;
    PushdataInt64Parses(n);
    ZeroTrims(8);
  }

  lemma KeyInst(key: Bytes)
    requires |key| == PUBLIC_KEY_SIZE
    ensures var item := Chunk(PushdataBytes(key));
            IsInstruction(item) && |PushdataBytes(key)| == 33 && Pushes(InstOf(item), key)
  {
    PushdataParses(key);
  }

  // ------------------------------------------------------- the script of the quorum

  lemma ScriptInsts(keys: seq<Bytes>, quorum: nat)
    requires KeysWellFormed(keys) && quorum <= |keys| <= MAX_INT64
    ensures var items := MultiSigItems(keys, quorum);
            && |items| == |keys| + 4 && AllInstructions(items)
            && InstOf(items[0]) == Instruction(OP_TXSIGHASH, 1, [])
            && (forall i :: 0 <= i < |keys| ==> Pushes(InstOf(items[i + 1]), keys[i]))
            && Pushes(InstOf(items[|keys| + 1]), Int64Bytes(quorum))
            && Pushes(InstOf(items[|keys| + 2]), Int64Bytes(|keys|))
            && InstOf(items[|keys| + 3]) == Instruction(OP_CHECKMULTISIG, 1, [])
  {
    hide PushdataInt64, PushdataBytes, Int64Bytes, IsInstruction, InstOf, Pushes;
    var items := MultiSigItems(keys, quorum);
    OpcodeIsInstruction(OP_TXSIGHASH);
    OpcodeIsInstruction(OP_CHECKMULTISIG);
    PushIntInst(quorum);
    PushIntInst(|keys|);
    forall i | 0 <= i < |keys|
      ensures IsInstruction(items[i + 1]) && Pushes(InstOf(items[i + 1]), keys[i])
    {
      KeyInst(keys[i]);
    }
  }

  /** What a run of the script needs to know about its program. */
  ghost predicate IsScript(prog: Bytes, insts: seq<Instruction>, keys: seq<Bytes>, quorum: nat) {
    && LaidOut(prog, insts) && |insts| == |keys| + 4
    && insts[0] == Instruction(OP_TXSIGHASH, 1, [])
    && (forall i :: 0 <= i < |keys| ==> Pushes(insts[i + 1], keys[i]))
    && Pushes(insts[|keys| + 1], Int64Bytes(quorum))
    && Pushes(insts[|keys| + 2], Int64Bytes(|keys|))
    && insts[|keys| + 3] == Instruction(OP_CHECKMULTISIG, 1, [])
  }

  lemma {:induction false} KeysPushed(env: Env, prog: Bytes, insts: seq<Instruction>, keys: seq<Bytes>, quorum: nat,
                                      j: nat, c: Core, fuel: nat, data: seq<Bytes>, left: nat)
    returns (c': Core)
    requires IsScript(prog, insts, keys, quorum) && KeysWellFormed(keys) && j <= |keys| && fuel > j
    requires Now(c, data, left + 41 * j)
    ensures Now(c', data + keys[..j], left)
    ensures Run(env, prog, Offset(insts, 1), c, fuel) == Run(env, prog, Offset(insts, j + 1), c', fuel - j)
  {
    hide LaidOut, Run, Int64Bytes, Offset;
    if j == 0 {
      c' := c;
      assert data + keys[..0] == data;
    } else {
      var c1 := KeysPushed(env, prog, insts, keys, quorum, j - 1, c, fuel, data, left + 41);
      assert Pushes(insts[j - 1 + 1], keys[j - 1]);
      c' := PushNext(env, prog, insts, j, c1, fuel - (j - 1), data + keys[..j - 1], left);
      assert data + keys[..j - 1] + [keys[j - 1]] == data + keys[..j];
    }
  }

  /** The script run on the signatures ends with true alone on the stack. */
  lemma ScriptRuns(env: Env, prog: Bytes, insts: seq<Instruction>, keys: seq<Bytes>, sigs: seq<Bytes>, msg: Bytes,
                   c: Core, fuel: nat, left: nat)
    returns (c': Core)
    requires IsScript(prog, insts, keys, |sigs|) && KeysWellFormed(keys)
    requires env.ctx.txSigHash == Some(msg) && |msg| == MESSAGE_SIZE
    requires 0 < |sigs| <= |keys| && |keys| * 1024 <= MAX_INT64
    requires AllUsedUp(env.ctx, Reversed(keys), msg, Reversed(sigs))
    requires fuel > |keys| + 4 && Now(c, sigs, left + 419 + 1065 * |keys| + StackCost(keys) + StackCost(sigs))
    ensures Run(env, prog, 0, c, fuel) == Good(c', ()) && Now(c', [[1]], left)
  {
    hide LaidOut, Run, Int64Bytes, Offset, StackCost, Perform, AllUsedUp, ExecPlain;
    var n := |keys|;
    var left4 := left + 89 + 1024 * n + StackCost(keys) + StackCost(sigs);
    var c1 := HashPushed(env, prog, insts, keys, sigs, msg, c, fuel, left4 + 34 + 41 * n);
    var c2 := KeysPushed(env, prog, insts, keys, |sigs|, n, c1, fuel - 1, sigs + [msg], left4 + 34);
    assert keys[..n] == keys;
    Int64Size(|sigs|);
    Int64Size(n);
    var c3 := PushNext(env, prog, insts, n + 1, c2, fuel - 1 - n, sigs + [msg] + keys,
                       left4 + 34 - 9 - |Int64Bytes(|sigs|)|);
    var c4 := PushNext(env, prog, insts, n + 2, c3, fuel - 2 - n, sigs + [msg] + keys + [Int64Bytes(|sigs|)], left4);
    c' := SignaturesChecked(env, prog, insts, keys, sigs, msg, c4, fuel - 3 - n, left);
  }

  lemma Int64Size(n: int)
    ensures |Int64Bytes(n)| <= 8
  {
  }

  lemma HashPushed(env: Env, prog: Bytes, insts: seq<Instruction>, keys: seq<Bytes>, sigs: seq<Bytes>, msg: Bytes,
                   c: Core, fuel: nat, left: nat)
    returns (c': Core)
    requires IsScript(prog, insts, keys, |sigs|) && env.ctx.txSigHash == Some(msg) && |msg| == MESSAGE_SIZE && fuel > 0
    requires Now(c, sigs, left + 296)
    ensures Now(c', sigs + [msg], left)
    ensures Run(env, prog, 0, c, fuel) == Run(env, prog, Offset(insts, 1), c', fuel - 1)
  {
    hide LaidOut, Run, Int64Bytes, ExecPlain, Dup, HashTop, EqualVerify, Rearrange, TxSigHash, CheckMultiSig;
    TxSigHashCore(env.ctx, c.(deferred := 0), msg);
    Dispatch(env, c.(deferred := 0), []);
    c' := PlainNext(env, prog, insts, 0, c, fuel, sigs + [msg], left);
    assert Offset(insts, 0) == 0;
  }

  lemma SignaturesChecked(env: Env, prog: Bytes, insts: seq<Instruction>, keys: seq<Bytes>, sigs: seq<Bytes>,
                          msg: Bytes, c: Core, fuel: nat, left: nat)
    returns (c': Core)
    requires IsScript(prog, insts, keys, |sigs|) && KeysWellFormed(keys) && |msg| == MESSAGE_SIZE && fuel > 0
    requires 0 < |sigs| <= |keys| && |keys| * 1024 <= MAX_INT64
    requires AllUsedUp(env.ctx, Reversed(keys), msg, Reversed(sigs))
    requires Now(c, sigs + [msg] + keys + [Int64Bytes(|sigs|)] + [Int64Bytes(|keys|)],
                 left + 89 + 1024 * |keys| + StackCost(keys) + StackCost(sigs))
    ensures Run(env, prog, Offset(insts, |keys| + 3), c, fuel) == Good(c', ()) && Now(c', [[1]], left)
  {
    hide LaidOut, Run, Int64Bytes, ExecPlain, Dup, HashTop, EqualVerify, Rearrange, TxSigHash, CheckMultiSig,
      AllUsedUp, Reversed, StackCost, KeysWellFormed;
    var c0 := c.(deferred := 0);
    assert c0.data == sigs + [msg] + keys + [Int64Bytes(|sigs|), Int64Bytes(|keys|)];
    MultiSigCore(env.ctx, c0, sigs, msg, keys);
    Dispatch(env, c0, []);
    c' := PlainNext(env, prog, insts, |keys| + 3, c, fuel, [[1]], left);
    AtTheEnd(env, prog, insts, c', fuel - 1);
  }

  lemma AtTheEnd(env: Env, prog: Bytes, insts: seq<Instruction>, c: Core, fuel: nat)
    requires LaidOut(prog, insts)
    ensures Run(env, prog, Offset(insts, |insts|), c, fuel) == Good(c, ())
  {
    hide Perform;
  }

  // --------------------------------------------------- the program with the hash

  lemma P2shInsts(hash: Bytes)
    requires |hash| == SCRIPT_HASH_SIZE
    ensures var items := P2shItems(hash);
            && AllInstructions(items)
            && InstOf(items[0]) == Instruction(OP_DUP, 1, []) && InstOf(items[1]) == Instruction(OP_HASH160, 1, [])
            && Pushes(InstOf(items[2]), hash)
            && InstOf(items[3]) == Instruction(OP_EQUALVERIFY, 1, [])
            && Pushes(InstOf(items[4]), Int64Bytes(-1))
            && InstOf(items[5]) == Instruction(OP_SWAP, 1, [])
            && InstOf(items[6]) == Instruction(OP_0, 1, [])
            && InstOf(items[7]) == Instruction(OP_CHECKPREDICATE, 1, [])
  {
    hide PushdataBytes, Int64Bytes, IsInstruction, InstOf, Pushes;
    OpcodeIsInstruction(OP_DUP);
    OpcodeIsInstruction(OP_HASH160);
    OpcodeIsInstruction(OP_EQUALVERIFY);
    OpcodeIsInstruction(OP_SWAP);
    OpcodeIsInstruction(OP_CHECKPREDICATE);
    PushIntInst(-1);
    ZeroIsInstruction();
    HashInst(hash);
  }

  lemma HashInst(hash: Bytes)
    requires |hash| == SCRIPT_HASH_SIZE
    ensures var item := Chunk(PushdataBytes(hash));
            IsInstruction(item) && |PushdataBytes(hash)| == 21 && Pushes(InstOf(item), hash)
  {
    PushdataParses(hash);
  }

  ghost predicate IsCommitment(prog: Bytes, insts: seq<Instruction>, hash: Bytes) {
    && LaidOut(prog, insts) && |insts| == 8
    && insts[0] == Instruction(OP_DUP, 1, []) && insts[1] == Instruction(OP_HASH160, 1, [])
    && Pushes(insts[2], hash) && insts[3] == Instruction(OP_EQUALVERIFY, 1, [])
    && Pushes(insts[4], Int64Bytes(-1))
    && insts[5] == Instruction(OP_SWAP, 1, []) && insts[6] == Instruction(OP_0, 1, [])
    && insts[7] == Instruction(OP_CHECKPREDICATE, 1, [])
  }

  lemma DupNext(env: Env, prog: Bytes, insts: seq<Instruction>, i: nat, c: Core, fuel: nat, below: seq<Bytes>,
                x: Bytes, left: nat)
    returns (c': Core)
    requires LaidOut(prog, insts) && i < |insts| && fuel > 0 && insts[i] == Instruction(OP_DUP, 1, [])
    requires Now(c, below + [x], left + 9 + |x|)
    ensures Now(c', below + [x, x], left)
    ensures Run(env, prog, Offset(insts, i), c, fuel) == Run(env, prog, Offset(insts, i + 1), c', fuel - 1)
  {
    hide LaidOut, Run, ExecPlain, Dup, HashTop, EqualVerify, Rearrange, TxSigHash, CheckMultiSig, Offset;
    DupCore(c.(deferred := 0), below, x);
    Dispatch(env, c.(deferred := 0), []);
    c' := PlainNext(env, prog, insts, i, c, fuel, below + [x, x], left);
  }

  lemma HashNext(env: Env, prog: Bytes, insts: seq<Instruction>, i: nat, c: Core, fuel: nat, below: seq<Bytes>,
                 x: Bytes, left: nat)
    returns (c': Core)
    requires LaidOut(prog, insts) && i < |insts| && fuel > 0 && insts[i] == Instruction(OP_HASH160, 1, [])
    requires Now(c, below + [x], left + 2 * |x| + 80 + |env.ctx.ripemd160(x)|)
    ensures Now(c', below + [env.ctx.ripemd160(x)], left)
    ensures Run(env, prog, Offset(insts, i), c, fuel) == Run(env, prog, Offset(insts, i + 1), c', fuel - 1)
  {
    hide LaidOut, Run, ExecPlain, Dup, HashTop, EqualVerify, Rearrange, TxSigHash, CheckMultiSig, Offset;
    Hash160Core(env.ctx, c.(deferred := 0), below, x);
    Dispatch(env, c.(deferred := 0), []);
    c' := PlainNext(env, prog, insts, i, c, fuel, below + [env.ctx.ripemd160(x)], left);
  }

  lemma EqualVerifyNext(env: Env, prog: Bytes, insts: seq<Instruction>, i: nat, c: Core, fuel: nat, below: seq<Bytes>,
                        x: Bytes, left: nat)
    returns (c': Core)
    requires LaidOut(prog, insts) && i < |insts| && fuel > 0 && insts[i] == Instruction(OP_EQUALVERIFY, 1, [])
    requires Now(c, below + [x, x], left + 17 + 3 * |x|)
    ensures Now(c', below, left)
    ensures Run(env, prog, Offset(insts, i), c, fuel) == Run(env, prog, Offset(insts, i + 1), c', fuel - 1)
  {
    hide LaidOut, Run, ExecPlain, Dup, HashTop, EqualVerify, Rearrange, TxSigHash, CheckMultiSig, Offset;
    EqualVerifyCore(c.(deferred := 0), below, x);
    Dispatch(env, c.(deferred := 0), []);
    c' := PlainNext(env, prog, insts, i, c, fuel, below, left);
  }

  /** DUP HASH160 hash EQUALVERIFY: the script on top of the stack has the committed hash. */
  lemma HashChecked(env: Env, prog: Bytes, insts: seq<Instruction>, below: seq<Bytes>, script: Bytes, c: Core,
                    fuel: nat, left: nat)
    returns (c': Core)
    requires IsCommitment(prog, insts, env.ctx.ripemd160(script)) && |env.ctx.ripemd160(script)| == SCRIPT_HASH_SIZE
    requires fuel > 4 && Now(c, below + [script], left + 215 + 3 * |script|)
    ensures Now(c', below + [script], left)
    ensures Run(env, prog, 0, c, fuel) == Run(env, prog, Offset(insts, 4), c', fuel - 4)
  {
    hide LaidOut, Run, Int64Bytes;
    var hash, base := env.ctx.ripemd160(script), below + [script];
    var c1 := DupNext(env, prog, insts, 0, c, fuel, below, script, left + 206 + 2 * |script|);
    assert below + [script, script] == base + [script];
    var c2 := HashNext(env, prog, insts, 1, c1, fuel - 1, base, script, left + 106);
    var c3 := PushNext(env, prog, insts, 2, c2, fuel - 2, base + [hash], left + 77);
    assert base + [hash] + [hash] == base + [hash, hash];
    c' := EqualVerifyNext(env, prog, insts, 3, c3, fuel - 3, base, hash, left);
    assert Offset(insts, 0) == 0;
  }

  /** -1 SWAP 0: hand everything below the script to a child with all the run limit that is left. */
  lemma ChildSetUp(env: Env, prog: Bytes, insts: seq<Instruction>, hash: Bytes, below: seq<Bytes>, script: Bytes,
                   c: Core, fuel: nat, left: nat)
    returns (c': Core)
    requires IsCommitment(prog, insts, hash) && fuel > 3 && Now(c, below + [script], left + 27)
    ensures Now(c', below + [Int64Bytes(-1), script, []], left)
    ensures Run(env, prog, Offset(insts, 4), c, fuel) == Run(env, prog, Offset(insts, 7), c', fuel - 3)
  {
    hide LaidOut, Run, Int64Bytes, ExecPlain, Dup, HashTop, EqualVerify, Rearrange, TxSigHash, CheckMultiSig, Offset;
    var m := Int64Bytes(-1);
    Int64Size(-1);
    var c1 := PushNext(env, prog, insts, 4, c, fuel, below + [script], left + 10);
    assert below + [script] + [m] == below + [script, m];
    SwapCore(c1.(deferred := 0), below, script, m);
    Dispatch(env, c1.(deferred := 0), []);
    var c2 := PlainNext(env, prog, insts, 5, c1, fuel - 1, below + [m, script], left + 9);
    c' := PushNext(env, prog, insts, 6, c2, fuel - 2, below + [m, script], left);
    assert below + [m, script] + [[]] == below + [m, script, []];
  }

  lemma PopSpawnCore(c: Core, below: seq<Bytes>, script: Bytes)
    requires c.data == below + [Int64Bytes(-1), script, []] && c.deferred == 0 && c.runLimit >= 256
    ensures PopSpawn(c) ==
            Good(c.(runLimit := c.runLimit - 256, data := below,
                    deferred := -192 + 8 + ItemCost(script) + ItemCost(Int64Bytes(-1))), (0, script, -1))
  {
    hide Int64Bytes, Pop, PopInt;
    var m := Int64Bytes(-1);
    assert Int64Bytes(0) == [] by {
      ZeroBytes();
    }
    var c0 := c.(runLimit := c.runLimit - 256, deferred := -192);
    assert c0.data == below + [m, script] + [Int64Bytes(0)];
    PopIntCore(c0, below + [m, script], 0);
    var c1 := PopInt(c0, true).core;
    assert c1.data == below + [m] + [script];
    PopCore(c1, below + [m], script);
    PopIntCore(Pop(c1, true).core, below, -1);
  }

  lemma ZeroBytes()
    ensures Int64Bytes(0) == []
  {
    ZeroTrims(8);
  }

  lemma PrepareCore(c: Core, below: seq<Bytes>, script: Bytes)
    requires c.data == below + [Int64Bytes(-1), script, []] && c.deferred == 0 && c.runLimit >= 256
    ensures PrepareChild(c) ==
            Good(c.(runLimit := 0, data := [], deferred := -192 + 8 + ItemCost(script) + ItemCost(Int64Bytes(-1))),
                 Spawn(script, Core(c.runLimit - 256, 0, below, [], c.world, 0)))
  {
    hide Int64Bytes, PopSpawn, StackCost;
    PopSpawnCore(c, below, script);
    assert below[0..] == below && below[..0] == [];
  }

  /** The child's verdict becomes the parent's last word. */
  lemma ChildAccepted(env: Env, prog: Bytes, insts: seq<Instruction>, hash: Bytes, sigs: seq<Bytes>, script: Bytes,
                      c: Core, fuel: nat, child: Core)
    returns (c': Core)
    requires IsCommitment(prog, insts, hash) && fuel > 0 && Now(c, sigs + [Int64Bytes(-1), script, []], 256)
    requires var start := Core(c.runLimit - 256, 0, sigs, [], c.world, 0);
             Run(env.(reserved := false), script, 0, start, fuel - 1) == Good(child, ())
    requires Now(child, [[1]], |script|)
    ensures Run(env, prog, Offset(insts, 7), c, fuel) == Good(c', ()) && c'.data == [[1]]
  {
    hide LaidOut, Run, Int64Bytes, StackCost, PrepareChild, ExecPlain;
    var c0 := c.(deferred := 0);
    PrepareCore(c0, sigs, script);
    Int64Size(-1);
    TrueOnTop(child);
    assert CheckPredicate(env, c0, fuel - 1) == FinishChild(PrepareChild(c0).core, Good(child, ()));
    var r := Exec(env, c0, OP_CHECKPREDICATE, [], fuel - 1);
    assert r.Good? && r.core.data == [[1]] && r.core.deferred <= 0 == r.core.runLimit;
    Next(env, prog, insts, 7, c, fuel);
    c' := Perform(env, c, OP_CHECKPREDICATE, [], fuel - 1).core;
    AtTheEnd(env, prog, insts, c', fuel - 1);
  }

  lemma TrueOnTop(c: Core)
    requires c.data == [[1]]
    ensures !FalseTop(c) && StackCost(c.data) == 9 && [] + [[1]] == c.data && StackCost([]) == 0
  {
    StackCostSnoc([], [1]);
    assert [] + [[1]] == c.data && [1][0] != 0;
  }

  // ------------------------------------------------------------------ acceptance

  lemma {:induction false} PushAllCore(c: Core, args: seq<Bytes>)
    requires c.runLimit >= StackCost(args)
    ensures PushAll(c, args) == Good(c.(runLimit := c.runLimit - StackCost(args), data := c.data + args), ())
    decreases |args|
  {
    hide StackCost;
    if args == [] {
      assert StackCost([]) == 0 by {
        NoCost();
      }
      assert c.data + [] == c.data;
    } else {
      FirstCost(args);
      var c1 := c.(runLimit := c.runLimit - ItemCost(args[0]), data := c.data + [args[0]]);
      assert Push(c, args[0], false) == Good(c1, ());
      PushAllCore(c1, args[1..]);
      assert c.data + [args[0]] + args[1..] == c.data + args;
    }
  }

  /** Gas that is enough to check the witness of a quorum. */
  function GasNeeded(script: Bytes, keys: seq<Bytes>, sigs: seq<Bytes>): nat {
    925 + 5 * |script| + 1105 * |keys| + 2 * StackCost(sigs)
  }

  lemma {:induction false} KeysCost(keys: seq<Bytes>)
    requires KeysWellFormed(keys)
    ensures StackCost(keys) == 40 * |keys|
  {
    if keys != [] {
      KeysCost(keys[..|keys| - 1]);
    }
  }

  lemma CommitmentRuns(env: Env, prog: Bytes, insts: seq<Instruction>, script: Bytes, scriptInsts: seq<Instruction>,
                       keys: seq<Bytes>, sigs: seq<Bytes>, msg: Bytes, c: Core, fuel: nat)
    returns (c': Core)
    requires IsCommitment(prog, insts, env.ctx.ripemd160(script)) && |env.ctx.ripemd160(script)| == SCRIPT_HASH_SIZE
    requires IsScript(script, scriptInsts, keys, |sigs|) && KeysWellFormed(keys)
    requires env.ctx.txSigHash == Some(msg) && |msg| == MESSAGE_SIZE
    requires 0 < |sigs| <= |keys| && |keys| * 1024 <= MAX_INT64
    requires AllUsedUp(env.ctx, Reversed(keys), msg, Reversed(sigs))
    requires fuel > |keys| + 12 && Now(c, sigs + [script], 917 + 4 * |script| + 1105 * |keys| + StackCost(sigs))
    ensures Run(env, prog, 0, c, fuel) == Good(c', ()) && c'.data == [[1]]
  {
    hide IsCommitment, IsScript, Run, Int64Bytes, StackCost, AllUsedUp, Reversed, KeysWellFormed;
    KeysCost(keys);
    var need := |script| + 419 + 1105 * |keys| + StackCost(sigs);
    var c1 := HashChecked(env, prog, insts, sigs, script, c, fuel, need + 256 + 27);
    var c2 := ChildSetUp(env, prog, insts, env.ctx.ripemd160(script), sigs, script, c1, fuel - 4, need + 256);
    var start := Core(c2.runLimit - 256, 0, sigs, [], c2.world, 0);
    var child := ScriptRuns(env.(reserved := false), script, scriptInsts, keys, sigs, msg, start, fuel - 8, |script|);
    c' := ChildAccepted(env, prog, insts, env.ctx.ripemd160(script), sigs, script, c2, fuel - 7, child);
  }

  lemma ScriptIsScript(keys: seq<Bytes>, quorum: nat)
    requires KeysWellFormed(keys) && quorum <= |keys| <= MAX_INT64
    requires var items := MultiSigItems(keys, quorum); |Emit(items)| <= MAX_INT32
    ensures var items := MultiSigItems(keys, quorum);
            AllInstructions(items) && IsScript(Emit(items), InstsOf(items), keys, quorum)
  {
    hide MultiSigItems, IsInstruction, InstOf, Int64Bytes, LaidOut, Pushes;
    var items := MultiSigItems(keys, quorum);
    ScriptInsts(keys, quorum);
    EmitLength(items, |items|);
    EmittedIsLaidOut(items);
    var insts := InstsOf(items);
    forall i | 0 <= i < |keys|
      ensures Pushes(insts[i + 1], keys[i])
    {
      assert insts[i + 1] == InstOf(items[i + 1]);
    }
    var n := |keys|;
    assert insts[0] == InstOf(items[0]) && insts[n + 1] == InstOf(items[n + 1]);
    assert insts[n + 2] == InstOf(items[n + 2]) && insts[n + 3] == InstOf(items[n + 3]);
  }

  lemma P2shIsCommitment(hash: Bytes)
    requires |hash| == SCRIPT_HASH_SIZE
    ensures var items := P2shItems(hash); AllInstructions(items) && IsCommitment(Emit(items), InstsOf(items), hash)
  {
    hide IsInstruction, InstOf, Int64Bytes, LaidOut, PushdataBytes, PushdataInt64;
    var items := P2shItems(hash);
    P2shInsts(hash);
    P2shLength(hash);
    EmittedIsLaidOut(items);
  }

  lemma P2shLength(hash: Bytes)
    requires |hash| == SCRIPT_HASH_SIZE
    ensures Length(P2shItems(hash)) <= 36
  {
    hide PushdataBytes, PushdataInt64, Start, Pushes, IsInstruction;
    var items := P2shItems(hash);
    PushIntInst(-1);
    HashInst(hash);
    ZeroIsInstruction();
    StartNext(items, 1);
    StartNext(items, 2);
    StartNext(items, 3);
    StartNext(items, 4);
    StartNext(items, 5);
    StartNext(items, 6);
    StartNext(items, 7);
    StartNext(items, 8);
  }

  lemma StartNext(items: seq<Item>, k: nat)
    requires 0 < k <= |items|
    ensures Start(items, k) == Start(items, k - 1) + Size(items[k - 1]) && Start(items, 0) == 0
  {
  }

  /** For every list of keys and every quorum of at least one: an output that commits to the quorum's script is
      spent by any witness that holds enough valid signatures, one slot to a key, given enough gas. */
  lemma WitnessAccepted(ctx: Context, keys: seq<Bytes>, quorum: nat, slots: seq<Bytes>, msg: Bytes,
                        gasLimit: int, world: nat, fuel: nat)
    requires KeysWellFormed(keys) && 0 < quorum <= |keys| && |keys| * 1024 <= MAX_INT64
    requires ctx.vmVersion == 1 && ctx.txSigHash == Some(msg) && |msg| == MESSAGE_SIZE
    requires ValidSlots(ctx, keys, msg, slots) && Present(slots, |slots|) >= quorum
    requires var script := Emit(MultiSigItems(keys, quorum));
             var sigs := Picked(slots, |slots|, quorum);
             && |script| <= MAX_INT32 && |ctx.ripemd160(script)| == SCRIPT_HASH_SIZE
             && ctx.code == WitnessProgram(Emit(P2wshItems(ctx.ripemd160(script))))
             && ctx.arguments == sigs + [script]
             && gasLimit >= GasNeeded(script, keys, sigs)
    requires fuel > |keys| + 12
    ensures var v := Verify(ctx, gasLimit, world, fuel); v.Some? && v.value.err.None?
  {
    hide MultiSigItems, P2shItems, P2wshItems, Emit, Run, StackCost, PushAll, IsScript, IsCommitment, AllUsedUp,
      Reversed, Picked, Present, ValidSlots, KeysWellFormed, WitnessProgram, Matching, PickedAt, InstsOf,
      AllInstructions;
    var script := Emit(MultiSigItems(keys, quorum));
    var sigs := Picked(slots, |slots|, quorum);
    var hash := ctx.ripemd160(script);
    WitnessOfP2wsh(hash);
    ScriptIsScript(keys, quorum);
    P2shIsCommitment(hash);
    PickedCount(slots, |slots|, quorum);
    PickedMatches(ctx, keys, msg, slots, |slots|, quorum);
    MatchingReversed(ctx, keys, msg, sigs, PickedAt(slots, |slots|, quorum));
    MatchingIsFound(ctx, Reversed(keys), msg, Reversed(sigs), Mirrored(PickedAt(slots, |slots|, quorum), |keys|));
    var start := Core(gasLimit, 0, [], [], world, 0);
    StackCostSnoc(sigs, script);
    PushAllCore(start, ctx.arguments);
    assert [] + (sigs + [script]) == sigs + [script];
    var env := Env(ctx, ctx.txVersion == Some(1));
    var c' := CommitmentRuns(env, ctx.code, InstsOf(P2shItems(hash)), script, InstsOf(MultiSigItems(keys, quorum)),
                             keys, sigs, msg, PushAll(start, ctx.arguments).core, fuel);
    TrueOnTop(c');
  }
}
