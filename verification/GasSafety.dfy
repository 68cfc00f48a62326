// What every run of a program keeps: the run limit never becomes negative, and
// the run limit together with the cost of both stacks falls with every
// instruction, at every depth of nesting, except for what failing child
// machines leave unpaid.
module GasSafety {
  import opened Wrappers
  import opened Bytes
  import opened VmTypes
  import opened Ops
  import opened Machine
  import opened Interpreter

  /** An outcome reached from c that lowered the net worth by k if it succeeded, did not raise it if it failed, and
      ran out of fuel only if there was less fuel than worth. */
  predicate Safe<T>(c: Core, r: Res<T>, k: nat, fuel: nat) {
    && r.core.runLimit >= 0 && r.core.unpaid >= c.unpaid
    && (r.Good? ==> Net(r.core) <= Net(c) - k)
    && (!Crashed(r) ==> Net(r.core) <= Net(c))
    && (r.Out? ==> fuel <= Worth(c) + r.core.unpaid - c.unpaid)
  }

  lemma FinishChildSafe(c: Core, mid: Core, child: Core, out: Res<()>, fuel: nat)
    requires HandsOver(c, Good(mid, Spawn([], child)), 64) && c.runLimit >= 0
    requires Safe(child, out, 0, fuel)
    ensures var r := FinishChild(mid, out);
            && r.core.runLimit >= 0 && r.core.unpaid >= c.unpaid
            && (r.Good? ==> Level(r.core) < Level(c)) && (!r.Good? ==> Crashed(r))
            && (r.Out? ==> fuel + 1 <= Worth(c) + r.core.unpaid - c.unpaid)
  {
    hide StackCost, FalseTop;
  }

  lemma ExecSafe(env: Env, c: Core, op: Byte, data: Bytes, fuel: nat)
    requires c.runLimit >= 0 && !IsExpansion(op)
    ensures var r := Exec(env, c, op, data, fuel);
            && r.core.runLimit >= 0 && r.core.unpaid >= c.unpaid
            && (r.Good? ==> Level(r.core) < Level(c))
            && (r.Bad? && !Crashed(r) ==> Net(r.core) <= Net(c))
            && (r.Out? ==> fuel + 1 <= Worth(c) + r.core.unpaid - c.unpaid)
    decreases fuel, 2
  {
    hide ExecPlain, ExecJump, FinishChild, PrepareChild, Run, StackCost;
    if op == OP_CHECKPREDICATE {
      var p := PrepareChild(c);
      if p.Good? {
        var inner := env.(reserved := false);
        RunSafe(inner, p.val.program, 0, p.val.child, fuel);
        FinishChildSafe(c, p.core, p.val.child, Run(inner, p.val.program, 0, p.val.child, fuel), fuel);
      }
    }
  }

  /** Each instruction that succeeds strictly lowers the net worth. */
  lemma PerformSafe(env: Env, c: Core, op: Byte, data: Bytes, fuel: nat)
    requires c.runLimit >= 0
    ensures Safe(c, Perform(env, c, op, data, fuel), 1, fuel + 1)
    decreases fuel, 3
  {
    hide Exec, StackCost;
    if !IsExpansion(op) {
      ExecSafe(env, c.(deferred := 0), op, data, fuel);
    }
  }

  lemma StepSafe(env: Env, prog: Bytes, pc: nat, c: Core, fuel: nat)
    requires c.runLimit >= 0
    ensures Safe(c, Step(env, prog, pc, c, fuel), 1, fuel + 1)
    decreases fuel, 4
  {
    hide Perform, ParseOp, StackCost;
    var inst := ParseOp(prog, pc);
    if inst.Ok? {
      PerformSafe(env, c, inst.value.op, inst.value.data, fuel);
    }
  }

  lemma {:induction false} RunSafe(env: Env, prog: Bytes, pc: nat, c: Core, fuel: nat)
    requires c.runLimit >= 0
    ensures Safe(c, Run(env, prog, pc, c, fuel), 0, fuel)
    decreases fuel, 0
  {
    hide Step, StackCost;
    if pc < |prog| % TWO_32 && fuel > 0 {
      StepSafe(env, prog, pc, c, fuel - 1);
      var r := Step(env, prog, pc, c, fuel - 1);
      if r.Good? {
        RunSafe(env, prog, r.val, r.core, fuel - 1);
      }
    }
  }

  // ---------------------------------------------------------------- verification

  lemma {:induction false} PushAllWorth(c: Core, args: seq<Bytes>)
    requires c.runLimit >= 0
    ensures var r := PushAll(c, args);
            && !r.Out? && r.core.runLimit >= 0 && r.core.unpaid == c.unpaid && Worth(r.core) <= Worth(c)
            && (r.Bad? ==> r.err == RunLimitExceeded && r.core.runLimit == 0)
    decreases |args|
  {
    if args != [] {
      var r := Push(c, args[0], false);
      if r.Good? {
        PushAllWorth(r.core, args[1..]);
      }
    }
  }

  /** The run of the program that Verify judges, if it gets that far. */
  function ProgramRun(ctx: Context, gasLimit: int, world: nat, fuel: nat): Option<Res<()>> {
    var pushed := PushAll(Core(gasLimit, 0, [], [], world, 0), ctx.arguments);
    if ctx.vmVersion != 1 || !pushed.Good? then None
    else Some(Run(Env(ctx, ctx.txVersion == Some(1)), ctx.code, 0, pushed.core, fuel))
  }

  /** Verify returns between zero and gasLimit up to what failing child machines leave unpaid, and a run that is cut
      off has left at least as much unpaid as it went beyond gasLimit steps. */
  lemma VerifyIsBounded(ctx: Context, gasLimit: nat, world: nat, fuel: nat)
    ensures var run := ProgramRun(ctx, gasLimit, world, fuel);
            var unpaid := if run.None? then 0 else run.value.core.unpaid;
            var v := Verify(ctx, gasLimit, world, fuel);
            && (v.Some? ==> 0 <= v.value.gasLeft <= gasLimit + unpaid)
            && (v.None? ==> unpaid >= fuel - gasLimit)
  {
    hide Run;
    var start := Core(gasLimit, 0, [], [], world, 0);
    PushAllWorth(start, ctx.arguments);
    var pushed := PushAll(start, ctx.arguments);
    if pushed.Good? {
      var env := Env(ctx, ctx.txVersion == Some(1));
      RunSafe(env, ctx.code, 0, pushed.core, fuel);
    }
  }

  // --------------------------------------------------- runs whose children succeed

  /** If the instruction starts a child machine, that one and all below it end without error. */
  predicate QuietInstruction(env: Env, c: Core, op: Byte, fuel: nat)
    decreases fuel, 1
  {
    var p := PrepareChild(c.(deferred := 0));
    op == OP_CHECKPREDICATE && p.Good? ==>
      var inner := env.(reserved := false);
      && QuietRun(inner, p.val.program, 0, p.val.child, fuel)
      && Run(inner, p.val.program, 0, p.val.child, fuel).Good?
  }

  predicate QuietStep(env: Env, prog: Bytes, pc: nat, c: Core, fuel: nat)
    decreases fuel, 2
  {
    ParseOp(prog, pc).Ok? ==> QuietInstruction(env, c, ParseOp(prog, pc).value.op, fuel)
  }

  /** All child machines started in the run, at any depth, end without error. */
  predicate QuietRun(env: Env, prog: Bytes, pc: nat, c: Core, fuel: nat)
    decreases fuel, 0
  {
    pc < |prog| % TWO_32 && fuel > 0 ==>
      var r := Step(env, prog, pc, c, fuel - 1);
      QuietStep(env, prog, pc, c, fuel - 1) && (r.Good? ==> QuietRun(env, prog, r.val, r.core, fuel - 1))
  }

  /** A failing instruction leaves something unpaid only if it has used up the run limit. */
  predicate PaidUp<T>(c: Core, r: Res<T>) {
    r.core.unpaid == c.unpaid || (r.Bad? && r.core.runLimit == 0)
  }

  lemma QuietExecPaid(env: Env, c: Core, op: Byte, data: Bytes, fuel: nat)
    requires c.runLimit >= 0 && c.deferred == 0 && QuietInstruction(env, c, op, fuel)
    ensures var r := Exec(env, c, op, data, fuel); r.core.unpaid == c.unpaid && !r.Out?
    decreases fuel, 1
  {
    hide ExecPlain, ExecJump, PrepareChild, Run, StackCost, FalseTop, QuietRun;
    assert c.(deferred := 0) == c;
    if op == OP_CHECKPREDICATE {
      var p := PrepareChild(c);
      if p.Good? {
        QuietRunPaid(env.(reserved := false), p.val.program, 0, p.val.child, fuel);
      }
    }
  }

  lemma QuietStepPaid(env: Env, prog: Bytes, pc: nat, c: Core, fuel: nat)
    requires c.runLimit >= 0 && QuietStep(env, prog, pc, c, fuel)
    ensures PaidUp(c, Step(env, prog, pc, c, fuel)) && !Step(env, prog, pc, c, fuel).Out?
    decreases fuel, 2
  {
    hide Exec, StackCost, PrepareChild;
    var inst := ParseOp(prog, pc);
    if inst.Ok? && !IsExpansion(inst.value.op) {
      QuietExecPaid(env, c.(deferred := 0), inst.value.op, inst.value.data, fuel);
    }
  }

  lemma {:induction false} QuietRunPaid(env: Env, prog: Bytes, pc: nat, c: Core, fuel: nat)
    requires c.runLimit >= 0 && QuietRun(env, prog, pc, c, fuel)
    ensures PaidUp(c, Run(env, prog, pc, c, fuel))
    decreases fuel, 0
  {
    hide Step, StackCost, QuietStep;
    if pc < |prog| % TWO_32 && fuel > 0 {
      StepSafe(env, prog, pc, c, fuel - 1);
      QuietStepPaid(env, prog, pc, c, fuel - 1);
      var r := Step(env, prog, pc, c, fuel - 1);
      if r.Good? {
        QuietRunPaid(env, prog, r.val, r.core, fuel - 1);
      }
    }
  }

  /** A successful step whose child machines end without error strictly lowers the run limit plus the cost of the
      stacks, and leaves the run limit non-negative. */
  lemma StepLowersWorth(env: Env, prog: Bytes, pc: nat, c: Core, fuel: nat)
    requires c.runLimit >= 0 && QuietStep(env, prog, pc, c, fuel) && Step(env, prog, pc, c, fuel).Good?
    ensures var after := Step(env, prog, pc, c, fuel).core;
            after.runLimit >= 0 && Worth(after) < Worth(c)
  {
    StepSafe(env, prog, pc, c, fuel);
    QuietStepPaid(env, prog, pc, c, fuel);
  }

  /** If all child machines end without error, Verify ends within gasLimit steps and returns at most gasLimit. */
  lemma QuietVerifyIsBounded(ctx: Context, gasLimit: nat, world: nat, fuel: nat)
    requires var pushed := PushAll(Core(gasLimit, 0, [], [], world, 0), ctx.arguments);
             pushed.Good? ==> QuietRun(Env(ctx, ctx.txVersion == Some(1)), ctx.code, 0, pushed.core, fuel)
    requires fuel > gasLimit
    ensures var v := Verify(ctx, gasLimit, world, fuel); v.Some? && 0 <= v.value.gasLeft <= gasLimit
  {
    hide Run, QuietRun;
    var start := Core(gasLimit, 0, [], [], world, 0);
    PushAllWorth(start, ctx.arguments);
    var pushed := PushAll(start, ctx.arguments);
    if pushed.Good? {
      var env := Env(ctx, ctx.txVersion == Some(1));
      RunSafe(env, ctx.code, 0, pushed.core, fuel);
      QuietRunPaid(env, ctx.code, 0, pushed.core, fuel);
    }
  }

  // --------------------------------------------------------- counting instructions

  /** The instructions executed by the child machine that an instruction starts, if it does, and all below it. */
  function ExecutedBelow(env: Env, c: Core, op: Byte, fuel: nat): nat
    decreases fuel, 1
  {
    var p := PrepareChild(c.(deferred := 0));
    if op == OP_CHECKPREDICATE && p.Good? then
      Executed(env.(reserved := false), p.val.program, 0, p.val.child, fuel)
    else 0
  }

  /** All instructions executed in the run, at any depth. */
  function Executed(env: Env, prog: Bytes, pc: nat, c: Core, fuel: nat): nat
    decreases fuel, 0
  {
    var inst := ParseOp(prog, pc);
    if pc >= |prog| % TWO_32 || fuel == 0 || inst.Err? then 0
    else
      var r := Step(env, prog, pc, c, fuel - 1);
      1 + ExecutedBelow(env, c, inst.value.op, fuel - 1)
      + if r.Good? then Executed(env, prog, r.val, r.core, fuel - 1) else 0
  }

  /** Whoever succeeds has paid one for every instruction. */
  predicate PaidFor<T>(c: Core, r: Res<T>, n: nat) {
    if r.Good? then n <= Worth(c) - Worth(r.core) else n <= Worth(c) + 1
  }

  lemma FinishPaidFor(c: Core, mid: Core, child: Core, out: Res<()>, n: nat)
    requires HandsOver(c, Good(mid, Spawn([], child)), 64) && c.runLimit >= 0 && c.deferred == 0
    requires out.Good? && out.core.runLimit >= 0 && out.core.unpaid == child.unpaid && PaidFor(child, out, n)
    ensures var r := FinishChild(mid, out);
            r.Good? && n + 1 <= Worth(c) && n + 1 <= Worth(c) - (Worth(r.core) - r.core.deferred)
  {
    hide StackCost, FalseTop;
  }

  lemma ExecPaidFor(env: Env, c: Core, op: Byte, data: Bytes, fuel: nat)
    requires c.runLimit >= 0 && c.deferred == 0 && !IsExpansion(op) && QuietInstruction(env, c, op, fuel)
    ensures var r := Exec(env, c, op, data, fuel);
            var n := 1 + ExecutedBelow(env, c, op, fuel);
            && (r.Good? ==> n <= Worth(c) - (Worth(r.core) - r.core.deferred))
            && n <= Worth(c) + 1
    decreases fuel, 1
  {
    hide ExecPlain, ExecJump, PrepareChild, FinishChild, Run, StackCost, QuietRun, Executed;
    assert c.(deferred := 0) == c;
    if op == OP_CHECKPREDICATE {
      var p := PrepareChild(c);
      if p.Good? {
        var inner := env.(reserved := false);
        RunSafe(inner, p.val.program, 0, p.val.child, fuel);
        QuietRunPaid(inner, p.val.program, 0, p.val.child, fuel);
        RunPaidFor(inner, p.val.program, 0, p.val.child, fuel);
        FinishPaidFor(c, p.core, p.val.child, Run(inner, p.val.program, 0, p.val.child, fuel),
                      Executed(inner, p.val.program, 0, p.val.child, fuel));
      }
    }
  }

  lemma StepPaidFor(env: Env, prog: Bytes, pc: nat, c: Core, fuel: nat)
    requires c.runLimit >= 0 && QuietStep(env, prog, pc, c, fuel) && ParseOp(prog, pc).Ok?
    ensures PaidFor(c, Step(env, prog, pc, c, fuel), 1 + ExecutedBelow(env, c, ParseOp(prog, pc).value.op, fuel))
    decreases fuel, 2
  {
    hide Exec, StackCost, PrepareChild, ParseOp, Executed;
    var inst := ParseOp(prog, pc).value;
    if !IsExpansion(inst.op) {
      ExecPaidFor(env, c.(deferred := 0), inst.op, inst.data, fuel);
    }
  }

  lemma NotParsed(env: Env, prog: Bytes, pc: nat, c: Core, fuel: nat)
    requires ParseOp(prog, pc).Err?
    ensures Step(env, prog, pc, c, fuel).Bad?
  {
    hide ParseOp, Perform;
  }

  lemma {:induction false} RunPaidFor(env: Env, prog: Bytes, pc: nat, c: Core, fuel: nat)
    requires c.runLimit >= 0 && QuietRun(env, prog, pc, c, fuel)
    ensures PaidFor(c, Run(env, prog, pc, c, fuel), Executed(env, prog, pc, c, fuel))
    decreases fuel, 0
  {
    hide Step, StackCost, QuietStep, ParseOp, ExecutedBelow;
    if pc < |prog| % TWO_32 && fuel > 0 && ParseOp(prog, pc).Err? {
      NotParsed(env, prog, pc, c, fuel - 1);
    } else if pc < |prog| % TWO_32 && fuel > 0 {
      StepSafe(env, prog, pc, c, fuel - 1);
      StepPaidFor(env, prog, pc, c, fuel - 1);
      var r := Step(env, prog, pc, c, fuel - 1);
      if r.Good? {
        RunPaidFor(env, prog, r.val, r.core, fuel - 1);
      }
    }
  }

  /** If all child machines end without error, no more than gasLimit + 1 instructions are executed in all machines
      together, and the one beyond gasLimit fails. */
  lemma QuietVerifyExecutes(ctx: Context, gasLimit: nat, world: nat, fuel: nat)
    requires var pushed := PushAll(Core(gasLimit, 0, [], [], world, 0), ctx.arguments);
             pushed.Good? ==> QuietRun(Env(ctx, ctx.txVersion == Some(1)), ctx.code, 0, pushed.core, fuel)
    ensures var pushed := PushAll(Core(gasLimit, 0, [], [], world, 0), ctx.arguments);
            var env := Env(ctx, ctx.txVersion == Some(1));
            pushed.Good? ==>
              var run, n := Run(env, ctx.code, 0, pushed.core, fuel), Executed(env, ctx.code, 0, pushed.core, fuel);
              if run.Good? then n + run.core.runLimit <= gasLimit else n <= gasLimit + 1
  {
    hide Run, QuietRun, Executed;
    var start := Core(gasLimit, 0, [], [], world, 0);
    PushAllWorth(start, ctx.arguments);
    var pushed := PushAll(start, ctx.arguments);
    if pushed.Good? {
      RunPaidFor(Env(ctx, ctx.txVersion == Some(1)), ctx.code, 0, pushed.core, fuel);
    }
  }

  lemma BrokeStepFails(env: Env, prog: Bytes, pc: nat, c: Core, fuel: nat)
    requires c.runLimit == 0 && c.data == c.alt == [] && c.unpaid == 0
    ensures Step(env, prog, pc, c, fuel).Bad?
  {
    assert PrepareChild(c.(deferred := 0)).Bad?;
    hide Step, PrepareChild, Run, QuietRun;
    StepSafe(env, prog, pc, c, fuel);
    QuietStepPaid(env, prog, pc, c, fuel);
  }

  /** Without gas nothing is accepted. */
  lemma NoGasNoAcceptance(ctx: Context, world: nat, fuel: nat)
    requires fuel > 0
    ensures var v := Verify(ctx, 0, world, fuel); v.Some? && v.value.err.Some?
  {
    hide Step;
    var start := Core(0, 0, [], [], world, 0);
    PushAllWorth(start, ctx.arguments);
    BrokeStepFails(Env(ctx, ctx.txVersion == Some(1)), ctx.code, 0, start, fuel - 1);
  }

  // --------------------------------------------------------- the role of the fuel

  lemma MoreFuelSameExec(env: Env, c: Core, op: Byte, data: Bytes, fuel: nat, more: nat)
    requires fuel <= more && !Exec(env, c, op, data, fuel).Out?
    ensures Exec(env, c, op, data, more) == Exec(env, c, op, data, fuel)
    decreases fuel, 1
  {
    hide ExecPlain, ExecJump, PrepareChild, Run, Push, Reclaim, FalseTop;
    if op == OP_CHECKPREDICATE {
      var p := PrepareChild(c);
      if p.Good? {
        MoreFuelSameRun(env.(reserved := false), p.val.program, 0, p.val.child, fuel, more);
      }
    }
  }

  lemma MoreFuelSameStep(env: Env, prog: Bytes, pc: nat, c: Core, fuel: nat, more: nat)
    requires fuel <= more && !Step(env, prog, pc, c, fuel).Out?
    ensures Step(env, prog, pc, c, more) == Step(env, prog, pc, c, fuel)
    decreases fuel, 2
  {
    hide Exec, ParseOp;
    var inst := ParseOp(prog, pc);
    if inst.Ok? && !IsExpansion(inst.value.op) {
      MoreFuelSameExec(env, c.(deferred := 0), inst.value.op, inst.value.data, fuel, more);
    }
  }

  /** Fuel decides only whether a run is cut off, never how it ends. */
  lemma {:induction false} MoreFuelSameRun(env: Env, prog: Bytes, pc: nat, c: Core, fuel: nat, more: nat)
    requires fuel <= more && !Run(env, prog, pc, c, fuel).Out?
    ensures Run(env, prog, pc, c, more) == Run(env, prog, pc, c, fuel)
    decreases fuel, 0
  {
    hide Step;
    if pc < |prog| % TWO_32 && fuel > 0 {
      MoreFuelSameStep(env, prog, pc, c, fuel - 1, more - 1);
      var r := Step(env, prog, pc, c, fuel - 1);
      if r.Good? {
        MoreFuelSameRun(env, prog, r.val, r.core, fuel - 1, more - 1);
      }
    }
  }
}
