// Programs that never end.  A failing child machine can hand back more than it
// was given, and if the context has a long enough field, a loop that starts such
// children never uses up its run limit.
module Divergence {
  import opened Wrappers
  import opened Bytes
  import opened VmTypes
  import opened Ops
  import opened Machine
  import opened StackOps
  import opened ContextOps
  import opened Interpreter
  import opened GasSafety
  import opened Frugality
  import opened Termination

  // ------------------------------------------------- a child that leaves cost unpaid

  /** A child with a run limit of 1 that pushes its context's program: it cannot pay for the item, which stays on its
      stack, and the parent is given back the cost of an item nobody has paid for. */
  predicate UnpaidChild(c: Core) {
    c.runLimit == 1 && c.deferred == 0 && c.data == c.alt == [] && c.unpaid == 0
  }

  lemma PushesProgram(env: Env, c: Core, data: Bytes)
    requires UnpaidChild(c)
    ensures ExecPlain(env, c, OP_PROGRAM, data) ==
            Good(c.(runLimit := 0, deferred := ItemCost(env.ctx.code), data := [env.ctx.code]), ())
  {
    assert ExecPlain(env, c, OP_PROGRAM, data) == PushField(env.ctx, c, OP_PROGRAM) by {
      hide PushField;
    }
    assert c.data + [env.ctx.code] == [env.ctx.code];
  }

  lemma UnpaidChildPerforms(env: Env, c: Core, data: Bytes, fuel: nat)
    requires UnpaidChild(c)
    ensures var r := Perform(env, c, OP_PROGRAM, data, fuel);
            && r.Bad? && r.err == RunLimitExceeded && r.core.data == [env.ctx.code] && r.core.alt == []
            && r.core.runLimit == 0 && r.core.unpaid == ItemCost(env.ctx.code) && r.core.world == c.world
  {
    hide ExecPlain;
    PushesProgram(env, c, data);
  }

  lemma OneByte(op: Byte)
    requires StandsAlone(op) && op > OP_16
    ensures ParseOp([op], 0) == Ok(Instruction(op, 1, []))
  {
  }

  lemma UnpaidChildRuns(env: Env, c: Core, fuel: nat)
    requires UnpaidChild(c) && fuel > 0
    ensures var r := Run(env, [OP_PROGRAM], 0, c, fuel);
            && r.Bad? && r.err == RunLimitExceeded && r.core.data == [env.ctx.code] && r.core.alt == []
            && r.core.runLimit == 0 && r.core.unpaid == ItemCost(env.ctx.code) && r.core.world == c.world
  {
    hide Perform, ParseOp;
    OneByte(OP_PROGRAM);
    UnpaidChildPerforms(env, c, [], fuel - 1);
  }

  /** The parent's stack holds the number of items to hand over, the program of the child and its limit; both a limit
      of one and the limit that hands over all that is left give the child a run limit of 1. */
  predicate ParentOfUnpaid(c: Core, limit: Bytes) {
    && c.deferred == 0 && c.data == [[], [OP_PROGRAM], limit] && c.alt == []
    && (limit == [1] || limit == []) && c.runLimit >= 257 && (limit == [] ==> c.runLimit == 257)
  }

  lemma UnpaidChildSpawns(c: Core, limit: Bytes)
    requires ParentOfUnpaid(c, limit)
    ensures var r := PrepareChild(c);
            && r.Good? && UnpaidChild(r.val.child) && r.val.program == [OP_PROGRAM] && r.val.child.world == c.world
            && r.core == c.(runLimit := c.runLimit - 257, deferred := |limit| - 167, data := [])
  {
    hide PopSpawn, StackCost;
    UnpaidChildPopped(c, limit);
  }

  lemma UnpaidChildPopped(c: Core, limit: Bytes)
    requires ParentOfUnpaid(c, limit)
    ensures PopSpawn(c) ==
            Good(c.(runLimit := c.runLimit - 256, deferred := |limit| - 167, data := []), (|limit|, [OP_PROGRAM], 0))
  {
    hide AsInt64, StackCost;
    LimitIs(limit);
    var l := |limit|;
    var c0 := c.(runLimit := c.runLimit - 256, deferred := -192);
    var c1 := c0.(deferred := l - 184, data := [[], [OP_PROGRAM]]);
    var c2 := c0.(deferred := l - 175, data := [[]]);
    assert PopInt(c0, true) == Good(c1, l);
    assert Pop(c1, true) == Good(c2, [OP_PROGRAM]);
    assert PopInt(c2, true) == Good(c0.(deferred := l - 167, data := []), 0);
  }

  lemma LimitIs(limit: Bytes)
    requires limit == [1] || limit == []
    ensures AsInt64(limit) == Ok(|limit|) && AsInt64([]) == Ok(0)
  {
    assert FromLittleEndian([1]) == 1;
  }

  lemma ParentWorth(code: Bytes, limit: Bytes)
    ensures StackCost([[], [OP_PROGRAM], limit]) == 25 + |limit|
    ensures StackCost([code]) == ItemCost(code) && StackCost([[]]) == 8 && StackCost([]) == 0
  {
    var s: seq<Bytes> := [[]];
    StackCostSnoc([], code);
    StackCostSnoc([], []);
    StackCostSnoc(s, [OP_PROGRAM]);
    StackCostSnoc(s + [[OP_PROGRAM]], limit);
    assert [] + [code] == [code] && [] + s == s && s + [[OP_PROGRAM]] + [limit] == [[], [OP_PROGRAM], limit];
  }

  /** What the parent is left with. */
  function AfterUnpaid(env: Env, c: Core, limit: Bytes): Core {
    var n := |env.ctx.code|;
    c.(runLimit := c.runLimit - 90 - |limit| + n, deferred := |limit| - 167 - n, data := [[]],
       unpaid := c.unpaid + n + 8)
  }

  lemma UnpaidChildPerformed(env: Env, c: Core, limit: Bytes, data: Bytes, fuel: nat)
    requires ParentOfUnpaid(c, limit) && fuel > 0
    ensures Perform(env, c, OP_CHECKPREDICATE, data, fuel) == Good(AfterUnpaid(env, c, limit), None)
  {
    hide PrepareChild, Run, StackCost, ExecPlain, ExecJump;
    UnpaidChildSpawns(c, limit);
    var p := PrepareChild(c);
    UnpaidChildRuns(env.(reserved := false), p.val.child, fuel);
    ParentWorth(env.ctx.code, limit);
    assert c.(deferred := 0) == c;
    var out := Run(env.(reserved := false), p.val.program, 0, p.val.child, fuel);
    var c1 := Reclaim(p.core, out.core);
    assert c1.data + [[]] == [[]];
    var c2 := c1.(deferred := c1.deferred + 8, data := [[]]);
    assert CheckPredicate(env, c, fuel) == Good(c2, ());
    assert Exec(env, c, OP_CHECKPREDICATE, data, fuel) == Good(c2, None);
  }

  /** So with a failing child a step may raise the run limit plus the cost of the stacks. */
  lemma UnpaidChildRaisesWorth(env: Env, c: Core, limit: Bytes, fuel: nat)
    requires ParentOfUnpaid(c, limit) && fuel > 0
    ensures var r := Step(env, [OP_CHECKPREDICATE], 0, c, fuel);
            && r.Good? && Worth(r.core) == Worth(c) + |env.ctx.code| - 107 - 2 * |limit|
            && !QuietStep(env, [OP_CHECKPREDICATE], 0, c, fuel)
  {
    hide ParseOp, Perform, PrepareChild, Run, StackCost, QuietRun;
    OneByte(OP_CHECKPREDICATE);
    UnpaidChildSpawns(c, limit);
    UnpaidChildRuns(env.(reserved := false), PrepareChild(c).val.child, fuel);
    UnpaidChildPerformed(env, c, limit, [], fuel);
    ParentWorth(env.ctx.code, limit);
    assert c.(deferred := 0) == c;
  }

  // ----------------------------------------------------------------- going round

  /** One round: push the child's program and its limit, start it, wait for some steps, start again. */
  function LoopText(limit: Bytes, wait: nat): Bytes {
    [OP_DATA_1, OP_PROGRAM, if limit == [] then OP_0 else OP_1, OP_CHECKPREDICATE]
    + seq(wait, i => OP_NOP) + [OP_JUMP, 0, 0, 0, 0]
  }

  /** The round, made n bytes long with bytes that are never reached; it waits as long as it takes to use up what the
      child hands back. */
  function Loop(limit: Bytes, n: nat): (r: Bytes)
    requires n >= 110 + 2 * |limit|
    ensures |r| == n
  {
    var text := LoopText(limit, n - 110 - 2 * |limit|);
    text + seq(n - |text|, i => OP_0)
  }

  predicate Shape(code: Bytes, limit: Bytes) {
    var wait := |code| - 110 - 2 * |limit|;
    && 0 <= wait && |code| <= MAX_INT32
    && ParseOp(code, 0) == Ok(Instruction(OP_DATA_1, 2, [OP_PROGRAM]))
    && ParseOp(code, 2) == Ok(if limit == [] then Instruction(OP_0, 1, []) else Instruction(OP_1, 1, [1]))
    && ParseOp(code, 3) == Ok(Instruction(OP_CHECKPREDICATE, 1, []))
    && (forall pc :: 4 <= pc < 4 + wait ==> ParseOp(code, pc) == Ok(Instruction(OP_NOP, 1, [])))
    && ParseOp(code, 4 + wait) == Ok(Instruction(OP_JUMP, 5, [0, 0, 0, 0]))
  }

  lemma LoopShape(limit: Bytes, n: nat)
    requires 110 + 2 * |limit| <= n <= MAX_INT32
    ensures Shape(Loop(limit, n), limit)
  {
    var code, wait := Loop(limit, n), n - 110 - 2 * |limit|;
    assert code[1..2] == [OP_PROGRAM];
    assert code[4 + wait] == OP_JUMP && code[5 + wait..9 + wait] == [0, 0, 0, 0];
    forall pc | 4 <= pc < 4 + wait
      ensures ParseOp(code, pc) == Ok(Instruction(OP_NOP, 1, []))
    {
      assert code[pc] == OP_NOP;
    }
  }

  lemma PushPerforms(env: Env, c: Core, op: Byte, data: Bytes, fuel: nat)
    requires (op == OP_0 && data == []) || PushesData(op)
    requires c.runLimit >= 9 + |data|
    ensures Perform(env, c, op, data, fuel) ==
            Good(c.(runLimit := c.runLimit - 9 - |data|, deferred := 0, data := c.data + [data]), None)
  {
    hide ExecPlain, StackCost;
    PushIsPlain(env, c.(deferred := 0), op, data);
  }

  lemma PushIsPlain(env: Env, c: Core, op: Byte, data: Bytes)
    requires (op == OP_0 && data == []) || PushesData(op)
    ensures ExecPlain(env, c, op, data) == PushBytes(c, data)
  {
    hide PushBytes, ExecStack, ExecSplice, ExecNumeric, ExecCrypto, ExecContext, Nop, Fail, VerifyTop;
  }

  lemma NopPerforms(env: Env, c: Core, data: Bytes, fuel: nat)
    requires c.runLimit >= 1
    ensures Perform(env, c, OP_NOP, data, fuel) == Good(c.(runLimit := c.runLimit - 1, deferred := 0), None)
  {
    assert ExecPlain(env, c.(deferred := 0), OP_NOP, data) == Nop(c.(deferred := 0)) by {
      hide Nop;
    }
    hide ExecPlain, StackCost;
  }

  lemma JumpPerforms(env: Env, c: Core, fuel: nat)
    requires c.runLimit >= 1
    ensures Perform(env, c, OP_JUMP, [0, 0, 0, 0], fuel) ==
            Good(c.(runLimit := c.runLimit - 1, deferred := 0), Some(0))
  {
    assert FromLittleEndian([0, 0, 0, 0]) == 0;
    hide ExecPlain, StackCost, FromLittleEndian;
  }

  /** At the start of a round, with enough gas for it. */
  predicate AtStart(c: Core, limit: Bytes) {
    && c.data == [[]] && c.alt == [] && (limit == [1] || limit == [])
    && c.runLimit >= 276 + |limit| && (limit == [] ==> c.runLimit == 276)
  }

  /** One step, made explicit. */
  lemma GoesOn(env: Env, prog: Bytes, pc: nat, c: Core, fuel: nat, inst: Instruction, d: Core, target: Option<nat>)
    requires ParseOp(prog, pc) == Ok(inst) && Perform(env, c, inst.op, inst.data, fuel) == Good(d, target)
    ensures Run(env, prog, pc, c, fuel + 1) ==
            Run(env, prog, if target.Some? then target.value else pc + inst.len, d, fuel)
  {
    hide Perform, ParseOp;
  }

  lemma UnpaidChildCutOff(env: Env, c: Core, limit: Bytes, data: Bytes)
    requires ParentOfUnpaid(c, limit)
    ensures Perform(env, c, OP_CHECKPREDICATE, data, 0).Out?
  {
    hide PrepareChild, StackCost, ExecPlain, ExecJump;
    UnpaidChildSpawns(c, limit);
    assert c.(deferred := 0) == c;
    assert CheckPredicate(env, c, 0).Out?;
  }

  lemma StartsChild(env: Env, c: Core, limit: Bytes, fuel: nat)
    requires Shape(env.ctx.code, limit) && ParentOfUnpaid(c, limit)
    requires fuel > 1 ==> Run(env, env.ctx.code, 4, AfterUnpaid(env, c, limit), fuel - 1).Out?
    ensures Run(env, env.ctx.code, 3, c, fuel).Out?
  {
    hide Perform, ParseOp;
    if fuel == 1 {
      UnpaidChildCutOff(env, c, limit, []);
    } else if fuel > 1 {
      var after := AfterUnpaid(env, c, limit);
      UnpaidChildPerformed(env, c, limit, [], fuel - 1);
      GoesOn(env, env.ctx.code, 3, c, fuel - 1, Instruction(OP_CHECKPREDICATE, 1, []), after, None);
    }
  }

  /** Waiting, with j steps done, and jumping back to where the round started with the same run limit. */
  lemma Waits(env: Env, c: Core, limit: Bytes, j: nat, fuel: nat)
    requires Shape(env.ctx.code, limit) && j <= |env.ctx.code| - 110 - 2 * |limit|
    requires AtStart(c.(runLimit := c.runLimit - (|env.ctx.code| - 110 - 2 * |limit| - j) - 1), limit)
    ensures Run(env, env.ctx.code, 4 + j, c, fuel).Out?
    decreases fuel, 0
  {
    hide Run, Perform, ParseOp;
    var code := env.ctx.code;
    RunsOut(env, code, c);
    if fuel > 0 {
      var d := c.(runLimit := c.runLimit - 1, deferred := 0);
      if j < |code| - 110 - 2 * |limit| {
        NopPerforms(env, c, [], fuel - 1);
        GoesOn(env, code, 4 + j, c, fuel - 1, Instruction(OP_NOP, 1, []), d, None);
        Waits(env, d, limit, j + 1, fuel - 1);
      } else {
        JumpPerforms(env, c, fuel - 1);
        GoesOn(env, code, 4 + j, c, fuel - 1, Instruction(OP_JUMP, 5, [0, 0, 0, 0]), d, Some(0));
        NeverEnds(env, d, limit, fuel - 1);
      }
    }
  }

  lemma RunsOut(env: Env, prog: Bytes, c: Core)
    ensures forall pc: nat :: pc < |prog| % TWO_32 ==> Run(env, prog, pc, c, 0).Out?
  {
  }

  lemma NeverEnds(env: Env, c: Core, limit: Bytes, fuel: nat)
    requires Shape(env.ctx.code, limit) && AtStart(c, limit)
    ensures Run(env, env.ctx.code, 0, c, fuel).Out?
    decreases fuel, 1
  {
    hide Run, Perform, ParseOp;
    var inst := if limit == [] then Instruction(OP_0, 1, []) else Instruction(OP_1, 1, [1]);
    RunsOut(env, env.ctx.code, c);
    if fuel > 0 {
      PushPerforms(env, c, OP_DATA_1, [OP_PROGRAM], fuel - 1);
      var d := c.(runLimit := c.runLimit - 10, deferred := 0, data := c.data + [[OP_PROGRAM]]);
      GoesOn(env, env.ctx.code, 0, c, fuel - 1, Instruction(OP_DATA_1, 2, [OP_PROGRAM]), d, None);
      RunsOut(env, env.ctx.code, d);
      if fuel > 1 {
        PushPerforms(env, d, inst.op, inst.data, fuel - 2);
        var e := d.(runLimit := d.runLimit - 9 - |limit|, data := d.data + [limit]);
        GoesOn(env, env.ctx.code, 2, d, fuel - 2, inst, e, None);
        if fuel > 3 {
          Waits(env, AfterUnpaid(env, e, limit), limit, 0, fuel - 3);
        }
        StartsChild(env, e, limit, fuel - 2);
      }
    }
  }

  // ------------------------------------------------------------ where the limit lies

  /** The surroundings with a program and arguments put into them. */
  function With(ctx: Context, code: Bytes, args: seq<Bytes>): Context {
    ctx.(vmVersion := 1, code := code, arguments := args)
  }

  ghost predicate Ends(ctx: Context, gasLimit: nat, world: nat) {
    exists fuel: nat :: Verify(ctx, gasLimit, world, fuel).Some?
  }

  /** Every program of n bytes ends in these surroundings, whatever its arguments and its gas. */
  ghost predicate AllEnd(ctx: Context, n: nat) {
    forall code: Bytes, args: seq<Bytes>, gasLimit: nat, world: nat ::
      |code| == n ==> Ends(With(ctx, code, args), gasLimit, world)
  }

  lemma OneArgument(gasLimit: nat, world: nat)
    requires gasLimit >= 8
    ensures PushAll(Core(gasLimit, 0, [], [], world, 0), [[]]) == Good(Core(gasLimit - 8, 0, [[]], [], world, 0), ())
  {
    hide StackCost;
    var args: seq<Bytes> := [[]];
    assert args[1..] == [];
    assert [] + [args[0]] == args;
  }

  /** From 112 bytes on the loop never ends, with any gas that lasts for one round; its run limit is the same in every
      round. */
  lemma LoopNeverEnds(ctx: Context, n: nat, gasLimit: nat, world: nat, fuel: nat)
    requires 112 <= n <= MAX_INT32 && gasLimit >= 285
    ensures Verify(With(ctx, Loop([1], n), [[]]), gasLimit, world, fuel).None?
  {
    hide Loop, Run, PushAll, Shape;
    var c := With(ctx, Loop([1], n), [[]]);
    OneArgument(gasLimit, world);
    LoopShape([1], n);
    NeverEnds(Env(c, c.txVersion == Some(1)), Core(gasLimit - 8, 0, [[]], [], world, 0), [1], fuel);
  }

  /** Already from 110 bytes on, with the gas that leaves the child exactly one. */
  lemma TightLoopNeverEnds(ctx: Context, n: nat, world: nat, fuel: nat)
    requires SHORT < n <= MAX_INT32
    ensures Verify(With(ctx, Loop([], n), [[]]), 284, world, fuel).None?
  {
    hide Loop, Run, PushAll, Shape;
    var c := With(ctx, Loop([], n), [[]]);
    OneArgument(284, world);
    LoopShape([], n);
    NeverEnds(Env(c, c.txVersion == Some(1)), Core(276, 0, [[]], [], world, 0), [], fuel);
  }

  lemma SomeNeverEnds(ctx: Context, n: nat)
    requires SHORT < n <= MAX_INT32
    ensures !AllEnd(ctx, n)
  {
    hide Loop, Verify;
    forall fuel: nat
      ensures Verify(With(ctx, Loop([], n), [[]]), 284, 0, fuel).None?
    {
      TightLoopNeverEnds(ctx, n, 0, fuel);
    }
    assert !Ends(With(ctx, Loop([], n), [[]]), 284, 0);
  }

  /** A program that is too long to be parsed ends at once. */
  lemma LongProgramEnds(ctx: Context, gasLimit: nat, world: nat)
    requires |ctx.code| > MAX_INT32
    ensures Verify(ctx, gasLimit, world, 1).Some?
  {
    hide PushAll, Perform;
    PushAllWorth(Core(gasLimit, 0, [], [], world, 0), ctx.arguments);
  }

  /** No field of the context besides the program is longer than n. */
  predicate OthersUpTo(ctx: Context, n: nat) {
    forall op: Byte :: op != OP_PROGRAM && Field(ctx, op).Some? ==> |Field(ctx, op).value| <= n
  }

  lemma WithShort(ctx: Context, code: Bytes, args: seq<Bytes>)
    requires |code| <= SHORT && OthersUpTo(ctx, SHORT)
    ensures FieldsUpTo(With(ctx, code, args), SHORT)
  {
    forall op: Byte | Field(With(ctx, code, args), op).Some?
      ensures |Field(With(ctx, code, args), op).value| <= SHORT
    {
      assert op != OP_PROGRAM ==> Field(With(ctx, code, args), op) == Field(ctx, op);
    }
  }

  /** Where the other fields are short, the length of a program decides whether it can run for ever: all programs of n
      bytes end exactly if n is at most 109 or more than the parser accepts. */
  lemma EndsExactly(ctx: Context, n: nat)
    requires OthersUpTo(ctx, SHORT)
    ensures AllEnd(ctx, n) <==> n <= SHORT || n > MAX_INT32
  {
    hide Verify, Field;
    if SHORT < n <= MAX_INT32 {
      SomeNeverEnds(ctx, n);
    } else {
      forall code: Bytes, args: seq<Bytes>, gasLimit: nat, world: nat | |code| == n
        ensures Ends(With(ctx, code, args), gasLimit, world)
      {
        if n <= SHORT {
          WithShort(ctx, code, args);
          ShortContextEnds(With(ctx, code, args), gasLimit, world,
                           2 * gasLimit * (2 * gasLimit + SHORT + 1) + SHORT);
        } else {
          LongProgramEnds(With(ctx, code, args), gasLimit, world);
        }
      }
    }
  }

  /** Contexts as transactions are validated in: besides the program only hashes and numbers. */
  predicate OfValidation(ctx: Context) {
    && |ctx.entryId| == 32
    && (ctx.assetId.Some? ==> |ctx.assetId.value| == 32) && (ctx.txData.Some? ==> |ctx.txData.value| == 32)
    && ctx.entryData.None? && (ctx.spentOutputId.Some? ==> |ctx.spentOutputId.value| == 32)
  }

  lemma OthersAreShort(ctx: Context)
    requires OfValidation(ctx)
    ensures OthersUpTo(ctx, SHORT)
  {
    hide Int64Bytes;
  }

  /** There the length of the program alone decides. */
  lemma ValidationEndsExactly(ctx: Context, n: nat)
    requires OfValidation(ctx)
    ensures AllEnd(ctx, n) <==> n <= SHORT || n > MAX_INT32
  {
    hide AllEnd, OthersUpTo, OfValidation;
    OthersAreShort(ctx);
    EndsExactly(ctx, n);
  }
}
