// Running a reassembled program as the code of its context, as Verify does
// (protocol/vm/vm.go): PROGRAM and the child machines of CHECKPREDICATE can see
// which bytes the program has.
module Recoding {
  import opened Wrappers
  import opened Bytes
  import opened VmTypes
  import opened Ops
  import opened Pushdata
  import opened Layout
  import opened ProgramBuilder
  import opened Machine
  import opened StackOps
  import opened NumericOps
  import opened SpliceOps
  import opened CryptoOps
  import opened ContextOps
  import opened Interpreter
  import opened Assembler
  import opened Reassembly
  import opened Divergence

  // --------------------------------------------------------- programs blind to their code

  /** Neither the instruction nor a child machine it starts can look at the code. */
  predicate Blind(inst: Instruction) {
    inst.op != OP_PROGRAM && inst.op != OP_CHECKPREDICATE
  }

  function Recoded(env: Env, code: Bytes): Env {
    env.(ctx := env.ctx.(code := code))
  }

  lemma {:induction false} SameSignatures(ctx: Context, code: Bytes, keys: seq<Bytes>, msg: Bytes, sigs: seq<Bytes>)
    ensures AllUsedUp(ctx.(code := code), keys, msg, sigs) == AllUsedUp(ctx, keys, msg, sigs)
    decreases |keys|
  {
    if sigs != [] && keys != [] {
      SameSignatures(ctx, code, keys[1..], msg, if ctx.verifySig(keys[0], msg, sigs[0]) then sigs[1..] else sigs);
    }
  }

  lemma SameCrypto(ctx: Context, code: Bytes, c: Core, op: Byte)
    ensures ExecCrypto(ctx.(code := code), c, op) == ExecCrypto(ctx, c, op)
  {
    hide StackCost, AllUsedUp, PopMultiSig, PopTwo, Pop, Push, ApplyCost, AsBool;
    var p := PopMultiSig(c);
    if p.Good? {
      SameSignatures(ctx, code, p.val.keys, p.val.msg, p.val.sigs);
    }
  }

  lemma SameContext(env: Env, code: Bytes, c: Core, op: Byte)
    requires op != OP_PROGRAM
    ensures ExecContext(Recoded(env, code), c, op) == ExecContext(env, c, op)
  {
    hide StackCost, PopMessage, PopNat, Pop, Push, ApplyCost, NonZeroLow;
  }

  lemma BlindPlain(env: Env, code: Bytes, c: Core, op: Byte, data: Bytes)
    requires op != OP_PROGRAM
    ensures ExecPlain(Recoded(env, code), c, op, data) == ExecPlain(env, c, op, data)
  {
    hide ExecStack, ExecSplice, ExecNumeric, ExecCrypto, ExecContext, PushBytes, Nop, Fail, VerifyTop;
    SameCrypto(env.ctx, code, c, op);
    SameContext(env, code, c, op);
  }

  lemma BlindPerform(env: Env, code: Bytes, c: Core, inst: Instruction, fuel: nat)
    requires Blind(inst)
    ensures Perform(Recoded(env, code), c, inst.op, inst.data, fuel) == Perform(env, c, inst.op, inst.data, fuel)
  {
    hide ExecPlain, ExecJump, CheckPredicate;
    BlindPlain(env, code, c.(deferred := 0), inst.op, inst.data);
  }

  /** A program of blind instructions whose jumps land on instructions runs the same whatever its context says the code
      is. */
  lemma {:induction false} BlindRun(env: Env, code: Bytes, prog: Bytes, insts: seq<Instruction>, i: nat, c: Core,
                                    fuel: nat)
    requires LaidOut(prog, insts) && Advancing(insts) && OnTargets(insts) && i <= |insts|
    requires forall k :: 0 <= k < |insts| ==> Blind(insts[k])
    ensures Run(Recoded(env, code), prog, Offset(insts, i), c, fuel) == Run(env, prog, Offset(insts, i), c, fuel)
    decreases fuel
  {
    hide Perform, ParseOp, Blind;
    if i < |insts| && fuel > 0 {
      OffsetGrows(insts, i, |insts|);
      var j := BlindStep(env, prog, insts, i, c, fuel - 1);
      BlindPerform(env, code, c, insts[i], fuel - 1);
      var r := Step(env, prog, Offset(insts, i), c, fuel - 1);
      if r.Good? {
        BlindRun(env, code, prog, insts, j, r.core, fuel - 1);
      }
    }
  }

  /** A step leads from instruction to instruction. */
  lemma BlindStep(env: Env, prog: Bytes, insts: seq<Instruction>, i: nat, c: Core, fuel: nat) returns (j: nat)
    requires LaidOut(prog, insts) && OnTargets(insts) && i < |insts|
    ensures ParseOp(prog, Offset(insts, i)) == Ok(insts[i])
    ensures var r := Step(env, prog, Offset(insts, i), c, fuel); r.Good? ==> j <= |insts| && r.val == Offset(insts, j)
  {
    hide Perform, ParseOp, Target;
    assert Placed(prog, insts, i);
    j := i + 1;
    var x := Perform(env, c, insts[i].op, insts[i].data, fuel);
    if IsJump(insts[i].op) {
      SameJump(env, c, insts[i], insts[i], fuel);
      if x.Good? && x.val.Some? {
        assert LandsInside(insts, insts[i]);
        j :| 0 <= j <= |insts| && Target(insts[i]) == Offset(insts, j);
      }
    } else {
      SamePlain(env, c, insts[i], insts[i], fuel);
    }
  }

  // ------------------------------------------------------------ when the bytes are kept

  /** What the assembler writes for the instruction: pushes in their shortest form. */
  predicate Canonical(inst: Instruction) {
    IsJump(inst.op) || inst.data == [] || inst == PushInst(inst.data)
  }

  ghost predicate Reassembles(prog: Bytes, insts: seq<Instruction>) {
    && |prog| <= MAX_INT32 && ParseProgram(prog) == Ok(insts) && AllAssemblable(insts, |insts|) && OnTargets(insts)
    && Length(Rewritten(insts, LabelsUpTo(insts, |insts|))) <= MAX_INT32
  }

  /** A push that is written anew is in its shortest form; other instructions keep their length. */
  lemma RewrittenInst(insts: seq<Instruction>, i: nat)
    requires i < |insts| && Exists(insts[i]) && Parsed(insts[i]) && Assemblable(insts[i])
    requires Length(Rewritten(insts, LabelsUpTo(insts, |insts|))) <= MAX_INT32
    requires |Reassembled(insts)| == |insts| && IsInstruction(Reassembled(insts)[i])
    ensures var a, b := insts[i], InstOf(Reassembled(insts)[i]);
            && (!IsJump(a.op) && a.data != [] ==> b == PushInst(a.data))
            && (!IsJump(a.op) && a.data == [] ==> b == a)
            && (IsJump(a.op) ==> b.op == a.op && b.len == a.len == 5 && |b.data| == |a.data| == 4)
  {
    hide LabelsUpTo, Locations, PushdataBytes, Parsed, Target, Nameable;
    var labels := LabelsUpTo(insts, |insts|);
    ItemSize(Rewritten(insts, labels), |insts|, i);
    if !IsJump(insts[i].op) && insts[i].data != [] {
      PushIsInstruction(insts[i].data);
    } else if !IsJump(insts[i].op) {
      PlainOp(insts[i]);
      OpInstruction(insts[i].op);
    }
  }

  lemma PlainOp(inst: Instruction)
    requires Parsed(inst) && Assemblable(inst) && !IsJump(inst.op) && inst.data == []
    ensures StandsAlone(inst.op) && !(OP_1 <= inst.op <= OP_16)
  {
  }

  lemma {:induction false} SameOffsets(p: seq<Instruction>, q: seq<Instruction>, n: nat)
    requires |p| == |q| && n <= |p| && forall i :: 0 <= i < |p| ==> p[i].len == q[i].len
    ensures Offset(p, n) == Offset(q, n)
  {
    if n > 0 {
      SameOffsets(p, q, n - 1);
    }
  }

  lemma SameWord(x: Bytes, y: Bytes)
    requires |x| == |y| && FromLittleEndian(x) == FromLittleEndian(y)
    ensures x == y
  {
    BytesRoundTrip(x);
    BytesRoundTrip(y);
  }

  lemma NewProgram(prog: Bytes, insts: seq<Instruction>)
    requires Reassembles(prog, insts)
    ensures AllInstructions(Reassembled(insts)) && Assemble(Tokens(insts)) == Ok(Emit(Reassembled(insts)))
    ensures Tied(prog, insts, Emit(Reassembled(insts)), InstsOf(Reassembled(insts))) && Advancing(insts)
  {
    hide LaidOut, AllAssemblable, OnTargets, Rewritten, LabelsUpTo, Tokens, Reassembled, Tied, Assemble, Emit, Length,
      InstsOf, AllInstructions, Parsed;
    ParseProgramExactly(prog, insts);
    LaidOutIsParsed(prog, insts);
    ReassemblesExactly(insts);
    ReassembledTied(prog, insts);
  }

  /** The new instructions, one by one. */
  lemma NewInst(prog: Bytes, insts: seq<Instruction>, i: nat)
    requires Reassembles(prog, insts) && i < |insts| && AllInstructions(Reassembled(insts))
    ensures |InstsOf(Reassembled(insts))| == |insts|
    ensures var a, b := insts[i], InstsOf(Reassembled(insts))[i];
            && (!IsJump(a.op) && a.data != [] ==> b == PushInst(a.data))
            && (!IsJump(a.op) && a.data == [] ==> b == a)
            && (IsJump(a.op) ==> b.op == a.op && b.len == a.len == 5 && |b.data| == |a.data| == 4)
  {
    hide OnTargets, Rewritten, LabelsUpTo, Reassembled, Parsed, Exists, ParseOp, InstText, PushdataBytes, Assemblable,
      IsInstruction, Length;
    ParseProgramExactly(prog, insts);
    LaidOutIsParsed(prog, insts);
    assert Placed(prog, insts, i);
    ParsedText(prog, Offset(insts, i));
    ReassembledSize(insts);
    RewrittenInst(insts, i);
  }

  lemma SameInsts(prog: Bytes, insts: seq<Instruction>, prog': Bytes, insts': seq<Instruction>)
    requires Tied(prog, insts, prog', insts')
    requires forall i :: 0 <= i < |insts| ==>
      && (!IsJump(insts[i].op) ==> insts'[i] == insts[i])
      && (IsJump(insts[i].op) ==>
            && insts'[i].op == insts[i].op && insts'[i].len == insts[i].len && |insts'[i].data| == |insts[i].data|)
    ensures insts' == insts
  {
    hide LaidOut, Target, Corresponds;
    forall i | 0 <= i < |insts|
      ensures insts'[i] == insts[i]
    {
      if IsJump(insts[i].op) {
        assert GoTogether(insts, insts', insts[i], insts'[i]);
        var k :| 0 <= k <= |insts| && Target(insts[i]) == Offset(insts, k) && Target(insts'[i]) == Offset(insts', k);
        SameOffsets(insts, insts', k);
        TargetOf(insts[i]);
        TargetOf(insts'[i]);
        SameWord(insts[i].data, insts'[i].data);
      }
    }
  }

  /** Assembling the disassembly gives back the same bytes exactly if all pushes were in their shortest form. */
  lemma ReassemblesToItself(prog: Bytes, insts: seq<Instruction>)
    requires Reassembles(prog, insts)
    ensures Assemble(Tokens(insts)) == Ok(prog) <==> forall i :: 0 <= i < |insts| ==> Canonical(insts[i])
  {
    hide AllInstructions, Tokens, Assemble, Emit, Reassembled, InstsOf, Reassembles, Tied, LaidOut, PushdataBytes;
    NewProgram(prog, insts);
    var prog', insts' := Emit(Reassembled(insts)), InstsOf(Reassembled(insts));
    TiedParts(prog, insts, prog', insts');
    ReassemblesParts(prog, insts);
    ParseProgramExactly(prog, insts);
    ParseProgramExactly(prog', insts');
    forall i | 0 <= i < |insts|
      ensures var a, b := insts[i], insts'[i];
              && (!IsJump(a.op) && a.data != [] ==> b == PushInst(a.data))
              && (!IsJump(a.op) && a.data == [] ==> b == a)
              && (IsJump(a.op) ==> b.op == a.op && b.len == a.len == 5 && |b.data| == |a.data| == 4)
    {
      NewInst(prog, insts, i);
    }
    if forall i :: 0 <= i < |insts| ==> Canonical(insts[i]) {
      SameInsts(prog, insts, prog', insts');
      SameInstsSameProgram(prog, prog', insts);
    }
  }

  lemma ReassemblesParts(prog: Bytes, insts: seq<Instruction>)
    requires Reassembles(prog, insts)
    ensures |prog| <= MAX_INT32 && ParseProgram(prog) == Ok(insts) && OnTargets(insts)
  {
  }

  // ------------------------------------------------------------------ verification

  /** The program that comes out, run as the code of its context, is judged like the old one, whatever the context, the
      gas and the state, if it is blind to its code or if its bytes are the same. */
  lemma ReassembledVerifiesAlike(ctx: Context, prog: Bytes, insts: seq<Instruction>, gas: int, world: nat, fuel: nat)
    requires Reassembles(prog, insts)
    requires (forall i :: 0 <= i < |insts| ==> Blind(insts[i]))
             || (forall i :: 0 <= i < |insts| ==> Canonical(insts[i]))
    ensures Disassemble(prog) == Ok(Tokens(insts)) && Assemble(Tokens(insts)).Ok?
    ensures var prog' := Assemble(Tokens(insts)).value;
            Verify(ctx.(code := prog'), gas, world, fuel) == Verify(ctx.(code := prog), gas, world, fuel)
  {
    hide AllInstructions, Tokens, Assemble, Emit, Reassembled, InstsOf, Reassembles, Tied, LaidOut, Canonical, Blind,
      Run, PushAll, OnTargets;
    ReassemblesToItself(prog, insts);
    ReassemblesParts(prog, insts);
    NewProgram(prog, insts);
    if forall i :: 0 <= i < |insts| ==> Blind(insts[i]) {
      var prog', insts' := Emit(Reassembled(insts)), InstsOf(Reassembled(insts));
      TiedParts(prog, insts, prog', insts');
      LaidOutIsParsed(prog', insts');
      ParseProgramExactly(prog, insts);
      var pushed := PushAll(Core(gas, 0, [], [], world, 0), ctx.arguments);
      if pushed.Good? {
        var env := Env(ctx.(code := prog), ctx.txVersion == Some(1));
        var env' := Env(ctx.(code := prog'), ctx.txVersion == Some(1));
        BlindRun(env, prog', prog, insts, 0, pushed.core, fuel);
        RunsInLock(env', prog, insts, prog', insts', 0, pushed.core, fuel);
        assert Recoded(env, prog') == env';
      }
    }
  }

  // --------------------------------------------------- a program that measures itself

  /** Accepts if it is six bytes long itself: PROGRAM SIZE 6 NUMEQUAL, with a push that could be shorter. */
  function Measuring(): Bytes {
    [OP_PROGRAM, OP_SIZE, OP_PUSHDATA1, 1, 6, OP_NUMEQUAL]
  }

  function MeasuringInsts(): seq<Instruction> {
    [Instruction(OP_PROGRAM, 1, []), Instruction(OP_SIZE, 1, []), Instruction(OP_PUSHDATA1, 3, [6]),
     Instruction(OP_NUMEQUAL, 1, [])]
  }

  predicate Measures(code: Bytes, n: nat) {
    && |code| == 3 + n <= MAX_INT32
    && ParseOp(code, 0) == Ok(Instruction(OP_PROGRAM, 1, []))
    && ParseOp(code, 1) == Ok(Instruction(OP_SIZE, 1, []))
    && (exists op: Byte :: PushesData(op) && ParseOp(code, 2) == Ok(Instruction(op, n, [6])))
    && ParseOp(code, 2 + n) == Ok(Instruction(OP_NUMEQUAL, 1, []))
  }

  /** The instruction succeeds and leaves these items, at a cost of at most k. */
  predicate Leaves(c: Core, r: Res<Option<nat>>, data: seq<Bytes>, k: nat) {
    r.Good? && r.val == None && r.core.data == data && r.core.runLimit >= c.runLimit - k
  }

  lemma ProgramLeaves(env: Env, c: Core, fuel: nat)
    requires c.runLimit >= 9 + |env.ctx.code|
    ensures Leaves(c, Perform(env, c, OP_PROGRAM, [], fuel), c.data + [env.ctx.code], 9 + |env.ctx.code|)
  {
    assert ExecPlain(env, c.(deferred := 0), OP_PROGRAM, []) == PushField(env.ctx, c.(deferred := 0), OP_PROGRAM) by {
      hide PushField;
    }
    hide ExecPlain, StackCost;
  }

  lemma SizeLeaves(env: Env, c: Core, fuel: nat)
    requires c.runLimit >= 17 && c.data != []
    ensures Leaves(c, Perform(env, c, OP_SIZE, [], fuel), c.data + [Int64Bytes(|c.data[|c.data| - 1]|)], 17)
  {
    assert ExecPlain(env, c.(deferred := 0), OP_SIZE, []) == SizeOf(c.(deferred := 0)) by {
      hide SizeOf;
    }
    hide ExecPlain, StackCost, Int64Bytes;
  }

  lemma NumEqualExec(c: Core, base: seq<Bytes>, x: Byte, y: Byte)
    requires c.runLimit >= 2 && c.deferred == 0 && c.data == base + [[x], [y]]
    ensures var b := BoolBytes(x == y);
            Binary(c, OP_NUMEQUAL) ==
            Good(c.(runLimit := c.runLimit - 2, deferred := 26 + |b|, data := base + [b]), ())
  {
    hide StackCost, AsInt64, PopTwoInts;
    PopBytes(c.(runLimit := c.runLimit - 2), base, x, y);
  }

  lemma PopBytes(c: Core, base: seq<Bytes>, x: Byte, y: Byte)
    requires c.deferred == 0 && c.data == base + [[x], [y]]
    ensures PopTwoInts(c) == Good(c.(deferred := 18, data := base), (x as int, y as int))
  {
    hide StackCost, AsInt64;
    ByteNumber(x);
    ByteNumber(y);
    var c1 := c.(deferred := 9, data := base + [[x]]);
    assert c.data[..|c.data| - 1] == c1.data;
    assert Pop(c, true) == Good(c1, [y]);
    assert c1.data[..|c1.data| - 1] == base;
    assert Pop(c1, true) == Good(c.(deferred := 18, data := base), [x]);
  }

  lemma NumEqualIsPlain(env: Env, c: Core)
    ensures ExecPlain(env, c, OP_NUMEQUAL, []) == Binary(c, OP_NUMEQUAL)
  {
    hide PushBytes, ExecStack, ExecSplice, Unary, Binary, Lshift, Logic, NumericOps.Within, ExecCrypto, ExecContext,
      Nop, Fail, VerifyTop;
  }

  lemma NumEqualLeaves(env: Env, c: Core, base: seq<Bytes>, x: Byte, y: Byte, fuel: nat)
    requires c.runLimit >= 100 && c.data == base + [[x], [y]]
    ensures Leaves(c, Perform(env, c, OP_NUMEQUAL, [], fuel), base + [BoolBytes(x == y)], 100)
  {
    hide ExecPlain, Binary, StackCost;
    NumEqualIsPlain(env, c.(deferred := 0));
    NumEqualExec(c.(deferred := 0), base, x, y);
  }

  lemma ByteNumber(x: Byte)
    ensures AsInt64([x]) == Ok(x as int)
  {
    assert FromLittleEndian([x]) == x;
  }

  lemma MeasuredVerdict(ctx: Context, n: nat, gas: nat, world: nat, fuel: nat)
    requires ctx.vmVersion == 1 && ctx.arguments == [] && Measures(ctx.code, n) && 0 < |ctx.code| < 128
    requires gas >= 1000 && fuel >= 5
    ensures var v := Verify(ctx, gas, world, fuel);
            v.Some? && v.value.err == if |ctx.code| == 6 then None else Some(FalseResult)
  {
    hide Run, Perform, ParseOp, Int64Bytes;
    var env, code := Env(ctx, ctx.txVersion == Some(1)), ctx.code;
    var op: Byte :| PushesData(op) && ParseOp(code, 2) == Ok(Instruction(op, n, [6]));
    var c0 := Core(gas, 0, [], [], world, 0);
    ProgramLeaves(env, c0, fuel - 1);
    var c1 := Perform(env, c0, OP_PROGRAM, [], fuel - 1).core;
    GoesOn(env, code, 0, c0, fuel - 1, Instruction(OP_PROGRAM, 1, []), c1, None);
    assert c1.data == [code];
    SizeLeaves(env, c1, fuel - 2);
    var c2 := Perform(env, c1, OP_SIZE, [], fuel - 2).core;
    GoesOn(env, code, 1, c1, fuel - 2, Instruction(OP_SIZE, 1, []), c2, None);
    SmallIntBytes(|code|);
    PushPerforms(env, c2, op, [6], fuel - 3);
    var c3 := Perform(env, c2, op, [6], fuel - 3).core;
    GoesOn(env, code, 2, c2, fuel - 3, Instruction(op, n, [6]), c3, None);
    assert c3.data == [code] + [[|code|], [6]];
    NumEqualLeaves(env, c3, [code], |code|, 6, fuel - 4);
    var c4 := Perform(env, c3, OP_NUMEQUAL, [], fuel - 4).core;
    GoesOn(env, code, 2 + n, c3, fuel - 4, Instruction(OP_NUMEQUAL, 1, []), c4, None);
    AtEnd(env, code, c4, fuel - 4);
    BoolRoundTrip(|code| == 6);
  }

  lemma AtEnd(env: Env, code: Bytes, c: Core, fuel: nat)
    requires |code| <= MAX_INT32
    ensures Run(env, code, |code|, c, fuel) == Good(c, ())
  {
  }

  lemma MeasuringReassembles()
    ensures Reassembles(Measuring(), MeasuringInsts())
  {
    hide ParseOp, LaidOut;
    var prog, insts := Measuring(), MeasuringInsts();
    MeasuringLaidOut();
    ParseProgramExactly(prog, insts);
    var items := Rewritten(insts, LabelsUpTo(insts, 4));
    assert items[0] == Chunk([OP_PROGRAM]) && items[1] == Chunk([OP_SIZE]) && items[3] == Chunk([OP_NUMEQUAL]);
    assert items[2] == Chunk([1, 6]);
    FourItems(items);
    assert AllAssemblable(insts, 4);
  }

  lemma MeasuringLaidOut()
    ensures LaidOut(Measuring(), MeasuringInsts())
  {
    hide ParseOp;
    var insts := MeasuringInsts();
    MeasuringParses();
    assert Offset(insts, 1) == 1 && Offset(insts, 2) == 2;
    assert Offset(insts, 3) == 5 && Offset(insts, 4) == 6;
  }

  lemma FourItems(items: seq<Item>)
    requires |items| == 4
    ensures Length(items) == Size(items[0]) + Size(items[1]) + Size(items[2]) + Size(items[3])
  {
    assert Start(items, 1) == Size(items[0]);
    assert Start(items, 2) == Size(items[0]) + Size(items[1]);
    assert Start(items, 3) == Start(items, 2) + Size(items[2]);
  }

  lemma MeasuringParses()
    ensures var p, insts := Measuring(), MeasuringInsts();
            && ParseOp(p, 0) == Ok(insts[0]) && ParseOp(p, 1) == Ok(insts[1]) && ParseOp(p, 2) == Ok(insts[2])
            && ParseOp(p, 5) == Ok(insts[3])
  {
    assert Measuring()[4..5] == [6];
  }

  lemma MeasuringReassembled()
    requires Reassembles(Measuring(), MeasuringInsts())
    ensures var r := Assemble(Tokens(MeasuringInsts())); r.Ok? && Measures(r.value, 2)
  {
    hide AllInstructions, Tokens, Assemble, Emit, Reassembled, InstsOf, Reassembles, ParseOp, Corresponds;
    var prog, insts := Measuring(), MeasuringInsts();
    NewProgram(prog, insts);
    var prog', insts' := Emit(Reassembled(insts)), InstsOf(Reassembled(insts));
    NewInst(prog, insts, 0);
    NewInst(prog, insts, 1);
    NewInst(prog, insts, 2);
    NewInst(prog, insts, 3);
    assert PushInst([6]) == Instruction(OP_DATA_1, 2, [6]);
    assert Offset(insts', 1) == 1 && Offset(insts', 2) == 2;
    assert Offset(insts', 3) == 4 && Offset(insts', 4) == 5;
    assert Placed(prog', insts', 0) && Placed(prog', insts', 1) && Placed(prog', insts', 2) && Placed(prog', insts', 3);
  }

  /** Without the condition the judgement can change: this program accepts, and what it reassembles to does not. */
  lemma MeasuringJudgedDifferently(ctx: Context, gas: nat, world: nat, fuel: nat)
    requires ctx.vmVersion == 1 && ctx.arguments == [] && gas >= 1000 && fuel >= 5
    ensures Reassembles(Measuring(), MeasuringInsts()) && Assemble(Tokens(MeasuringInsts())).Ok?
    ensures var v := Verify(ctx.(code := Measuring()), gas, world, fuel); v.Some? && v.value.err == None
    ensures var v := Verify(ctx.(code := Assemble(Tokens(MeasuringInsts())).value), gas, world, fuel);
            v.Some? && v.value.err == Some(FalseResult)
  {
    hide Tokens, Assemble, Verify, Reassembles, ParseOp;
    MeasuringReassembles();
    MeasuringReassembled();
    MeasuringParses();
    MeasuredVerdict(ctx.(code := Measuring()), 3, gas, world, fuel);
    MeasuredVerdict(ctx.(code := Assemble(Tokens(MeasuringInsts())).value), 2, gas, world, fuel);
  }
}
