// When the loop of protocol/vm/vm.go comes to an end.  A child machine that fails
// may hand back the cost of an item it never paid for, so a program can gain run
// limit; whether it can gain enough to go on for ever depends on the size of the
// fields that the context lets it push.
module Termination {
  import opened Wrappers
  import opened Bytes
  import opened VmTypes
  import opened Ops
  import opened Machine
  import opened ContextOps
  import opened Interpreter
  import opened GasSafety
  import opened Frugality

  // ------------------------------------------------------------- no child machines

  lemma NoChildrenStep(env: Env, prog: Bytes, pc: nat, c: Core, fuel: nat)
    requires OP_CHECKPREDICATE !in prog
    ensures QuietStep(env, prog, pc, c, fuel)
  {
    hide ParseOp, PrepareChild;
  }

  /** A program in which the byte of CHECKPREDICATE does not occur starts no child machines, wherever it jumps to. */
  lemma {:induction false} NoChildrenIsQuiet(env: Env, prog: Bytes, pc: nat, c: Core, fuel: nat)
    requires OP_CHECKPREDICATE !in prog
    ensures QuietRun(env, prog, pc, c, fuel)
    decreases fuel
  {
    hide Step, QuietStep;
    if pc < |prog| % TWO_32 && fuel > 0 {
      NoChildrenStep(env, prog, pc, c, fuel - 1);
      var r := Step(env, prog, pc, c, fuel - 1);
      if r.Good? {
        NoChildrenIsQuiet(env, prog, r.val, r.core, fuel - 1);
      }
    }
  }

  /** Without CHECKPREDICATE in it, every program ends within gasLimit steps, and never returns more gas. */
  lemma NoChildrenEnds(ctx: Context, gasLimit: nat, world: nat, fuel: nat)
    requires OP_CHECKPREDICATE !in ctx.code && fuel > gasLimit
    ensures var v := Verify(ctx, gasLimit, world, fuel); v.Some? && 0 <= v.value.gasLeft <= gasLimit
  {
    hide QuietRun, Verify;
    var pushed := PushAll(Core(gasLimit, 0, [], [], world, 0), ctx.arguments);
    NoChildrenIsQuiet(Env(ctx, ctx.txVersion == Some(1)), ctx.code, 0, pushed.core, fuel);
    QuietVerifyIsBounded(ctx, gasLimit, world, fuel);
  }

  // ---------------------------------------------------------------- short contexts

  /** A step or run that keeps the weight if it succeeds and otherwise leaves little more than it. */
  predicate Contained<T>(c: Core, r: Res<T>) {
    && r.core.runLimit >= 0
    && (r.Good? ==> Weight(r.core) <= Weight(c))
    && (!Crashed(r) ==> Worth(r.core) <= Weight(c) + SHORT + 7)
  }

  lemma PopExactly(c: Core)
    ensures var r := Pop(c, true);
            && (r.Bad? ==> r.core == c)
            && (r.Good? ==>
                  && r.core.runLimit == c.runLimit && r.core.deferred == c.deferred + 8 + |r.val|
                  && Stacks(r.core) == Stacks(c) - 8 - |r.val| && Items(r.core) + 1 == Items(c))
  {
  }

  lemma PopSpawnTakes(c: Core)
    requires c.runLimit >= 0
    ensures var r := PopSpawn(c);
            && r.core.runLimit >= 0 && Worth(r.core) <= Worth(c)
            && (r.Good? ==>
                  && Worth(r.core) - r.core.deferred <= Worth(c) - c.deferred - 112 - 2 * |r.val.1|
                  && Items(r.core) + 3 == Items(c) && |r.val.1| <= Stacks(c))
  {
    hide StackCost, Pop, AsInt64, Level, Net;
    var a := ApplyCost(c, 256);
    if a.Good? {
      var b := Defer(a.core, -192);
      PopExactly(b);
      var p := PopInt(b, true);
      if p.Good? {
        PopExactly(p.core);
        var q := Pop(p.core, true);
        if q.Good? {
          PopExactly(q.core);
        }
      }
    }
  }

  /** Starting a child takes 112 and twice the size of its program, besides what is handed over. */
  lemma SpawnTakes(c: Core)
    requires c.runLimit >= 0
    ensures var r := PrepareChild(c);
            && r.core.runLimit >= 0 && Worth(r.core) <= Worth(c)
            && (r.Good? ==>
                  && Worth(r.core) - r.core.deferred + Worth(r.val.child) <=
                     Worth(c) - c.deferred - 112 - 2 * |r.val.program|
                  && Items(r.core) + 3 + Items(r.val.child) == Items(c)
                  && r.val.child.runLimit >= 0 && |r.val.program| <= Stacks(c))
  {
    hide StackCost, PopSpawn;
    PopSpawnTakes(c);
  }

  /** Even a failing child does not raise the weight of its parent. */
  lemma FinishFrugal(c: Core, mid: Core, spawn: Spawn, out: Res<()>)
    requires mid.runLimit >= 0 && spawn.child.runLimit >= 0
    requires Worth(mid) - mid.deferred + Worth(spawn.child) <= Worth(c) - c.deferred - 112 - 2 * |spawn.program|
    requires Items(mid) + 3 + Items(spawn.child) == Items(c) && Worth(mid) <= Worth(c)
    requires Contained(spawn.child, out) && (spawn.program == [] ==> out.Good?)
    ensures Frugal(c, FinishChild(mid, out)) && FinishChild(mid, out).core.runLimit >= 0
    ensures !FinishChild(mid, out).Good? ==> Crashed(FinishChild(mid, out))
  {
    hide StackCost, FalseTop, Push;
    PushLast(Reclaim(mid, out.core), BoolBytes(true));
    PushLast(Reclaim(mid, out.core), BoolBytes(false));
  }

  // ------------------------------------------------------------------- short runs

  lemma EmptyProgramEnds(env: Env, c: Core, fuel: nat)
    ensures Run(env, [], 0, c, fuel).Good?
  {
  }

  lemma RunContained(env: Env, prog: Bytes, pc: nat, c: Core, fuel: nat)
    requires FieldsUpTo(env.ctx, SHORT) && c.runLimit >= 0
    ensures Contained(c, Run(env, prog, pc, c, fuel))
    decreases fuel, 0
  {
    hide StackCost, Step;
    if pc < |prog| % TWO_32 && fuel > 0 {
      StepContained(env, prog, pc, c, fuel - 1);
      var r := Step(env, prog, pc, c, fuel - 1);
      if r.Good? {
        RunContained(env, prog, r.val, r.core, fuel - 1);
      }
    }
  }

  lemma StepContained(env: Env, prog: Bytes, pc: nat, c: Core, fuel: nat)
    requires FieldsUpTo(env.ctx, SHORT) && c.runLimit >= 0
    ensures var r := Step(env, prog, pc, c, fuel);
            Contained(c, r) && (r.Good? ==> r.val > pc || Weight(r.core) < Weight(c))
    decreases fuel, 2
  {
    hide StackCost, Exec, ParseOp, FieldsUpTo;
    var inst := ParseOp(prog, pc);
    if inst.Ok? && !IsExpansion(inst.value.op) {
      ExecContained(env, c.(deferred := 0), inst.value.op, inst.value.data, fuel);
    }
  }

  lemma ExecContained(env: Env, c: Core, op: Byte, data: Bytes, fuel: nat)
    requires FieldsUpTo(env.ctx, SHORT) && c.runLimit >= 0 && !IsExpansion(op)
    ensures var r := Exec(env, c, op, data, fuel);
            && r.core.runLimit >= 0 && Frugal(c, r)
            && (IsJump(op) && r.Good? ==> Weight(r.core) - r.core.deferred < Weight(c) - c.deferred)
            && (!IsJump(op) && r.Good? ==> r.val == None)
            && (!r.Good? && !Crashed(r) ==> Worth(r.core) <= Worth(c))
    decreases fuel, 1
  {
    hide StackCost, PrepareChild, FinishChild, Run, ExecPlain, FieldsUpTo;
    if op == OP_CHECKPREDICATE {
      SpawnTakes(c);
      var p := PrepareChild(c);
      if p.Good? {
        RunContained(env.(reserved := false), p.val.program, 0, p.val.child, fuel);
        EmptyProgramEnds(env.(reserved := false), p.val.child, fuel);
        FinishFrugal(c, p.core, p.val, Run(env.(reserved := false), p.val.program, 0, p.val.child, fuel));
      }
    } else {
      PlainFrugal(env, c, op, data);
    }
  }

  // ------------------------------------------------------------------- termination

  /** Steps enough for a run: each of them lowers the weight, or keeps it and goes on in a program of at most m
      bytes. */
  function Enough(prog: Bytes, pc: nat, c: Core, m: nat): int {
    Weight(c) * (m + 1) + if pc < |prog| then |prog| - pc else 0
  }

  lemma {:induction false} LighterNeedsLess(w: nat, v: nat, m: nat)
    requires w < v
    ensures w * (m + 1) + m < v * (m + 1)
    decreases v
  {
    assert v * (m + 1) == (v - 1) * (m + 1) + (m + 1);
    if w < v - 1 {
      LighterNeedsLess(w, v - 1, m);
    }
  }

  lemma ChildEnds(env: Env, c: Core, fuel: nat, m: nat)
    requires FieldsUpTo(env.ctx, SHORT) && c.runLimit >= 0 && c.deferred == 0 && Weight(c) <= m
    requires fuel + 1 >= Weight(c) * (m + 1)
    ensures !CheckPredicate(env, c, fuel).Out?
    decreases fuel, 1
  {
    hide StackCost, PrepareChild, Run, FieldsUpTo, Push, FalseTop;
    SpawnTakes(c);
    var p := PrepareChild(c);
    if p.Good? {
      LighterNeedsLess(Weight(p.val.child), Weight(c), m);
      RunEnds(env.(reserved := false), p.val.program, 0, p.val.child, fuel, m);
    }
  }

  lemma ExecEnds(env: Env, c: Core, op: Byte, data: Bytes, fuel: nat, m: nat)
    requires FieldsUpTo(env.ctx, SHORT) && c.runLimit >= 0 && c.deferred == 0 && Weight(c) <= m
    requires fuel + 1 >= Weight(c) * (m + 1)
    ensures !Exec(env, c, op, data, fuel).Out?
    decreases fuel, 2
  {
    hide StackCost, FieldsUpTo, CheckPredicate, ExecPlain, ExecJump;
    if op == OP_CHECKPREDICATE {
      ChildEnds(env, c, fuel, m);
    }
  }

  lemma StepEnds(env: Env, prog: Bytes, pc: nat, c: Core, fuel: nat, m: nat)
    requires FieldsUpTo(env.ctx, SHORT) && c.runLimit >= 0 && Weight(c) <= m
    requires fuel + 1 >= Weight(c) * (m + 1)
    ensures !Step(env, prog, pc, c, fuel).Out?
    decreases fuel, 3
  {
    hide StackCost, ParseOp, FieldsUpTo, Exec;
    var inst := ParseOp(prog, pc);
    if inst.Ok? {
      ExecEnds(env, c.(deferred := 0), inst.value.op, inst.value.data, fuel, m);
    }
  }

  lemma RunEnds(env: Env, prog: Bytes, pc: nat, c: Core, fuel: nat, m: nat)
    requires FieldsUpTo(env.ctx, SHORT) && c.runLimit >= 0 && Weight(c) <= m && |prog| <= m
    requires fuel >= Enough(prog, pc, c, m)
    ensures !Run(env, prog, pc, c, fuel).Out?
    decreases fuel, 0
  {
    hide StackCost, Step, FieldsUpTo, Enough;
    EnoughForOne(prog, pc, c, m);
    if pc < |prog| % TWO_32 && fuel > 0 {
      StepContained(env, prog, pc, c, fuel - 1);
      StepEnds(env, prog, pc, c, fuel - 1, m);
      var r := Step(env, prog, pc, c, fuel - 1);
      if r.Good? {
        EnoughLeft(prog, pc, c, r.val, r.core, m);
        RunEnds(env, prog, r.val, r.core, fuel - 1, m);
      }
    }
  }

  lemma EnoughForOne(prog: Bytes, pc: nat, c: Core, m: nat)
    requires Weight(c) >= 0
    ensures Enough(prog, pc, c, m) >= Weight(c) * (m + 1) >= 0
    ensures pc < |prog| ==> Enough(prog, pc, c, m) >= Weight(c) * (m + 1) + 1
  {
    hide Weight;
  }

  /** A step that goes on, or makes the machine lighter, needs less from there. */
  lemma EnoughLeft(prog: Bytes, pc: nat, c: Core, next: nat, d: Core, m: nat)
    requires 0 <= Weight(d) <= Weight(c) && |prog| <= m && pc < |prog| && (next > pc || Weight(d) < Weight(c))
    ensures Enough(prog, next, d, m) < Enough(prog, pc, c, m)
  {
    hide Weight;
    if Weight(d) < Weight(c) {
      LighterNeedsLess(Weight(d), Weight(c), m);
    }
  }

  lemma {:induction false} ItemsCost(s: seq<Bytes>)
    ensures 8 * |s| <= StackCost(s)
  {
    if s != [] {
      ItemsCost(s[..|s| - 1]);
    }
  }

  /** If no field of the context is longer than 109 bytes, every program ends, and the gas limit bounds how soon. */
  lemma ShortContextEnds(ctx: Context, gasLimit: nat, world: nat, fuel: nat)
    requires FieldsUpTo(ctx, SHORT)
    requires fuel >= 2 * gasLimit * (2 * gasLimit + SHORT + 1) + SHORT
    ensures Verify(ctx, gasLimit, world, fuel).Some?
  {
    hide Run, StackCost;
    var start := Core(gasLimit, 0, [], [], world, 0);
    PushAllWorth(start, ctx.arguments);
    var pushed := PushAll(start, ctx.arguments);
    assert Field(ctx, OP_PROGRAM) == Some(ctx.code);
    if pushed.Good? {
      var m := 2 * gasLimit + SHORT;
      ItemsCost(pushed.core.data);
      ItemsCost(pushed.core.alt);
      EmptyStacks(start);
      if Weight(pushed.core) < 2 * gasLimit {
        LighterNeedsLess(Weight(pushed.core), 2 * gasLimit, m);
      }
      RunEnds(Env(ctx, ctx.txVersion == Some(1)), ctx.code, 0, pushed.core, fuel, m);
    }
  }

  lemma EmptyStacks(c: Core)
    requires c.data == c.alt == []
    ensures Worth(c) == c.runLimit
  {
  }
}
