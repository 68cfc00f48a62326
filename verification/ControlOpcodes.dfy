// Jumps, CHECKPREDICATE, the settling of deferred costs and verification: what
// they do and what they cost, in full.
module ControlOpcodes {
  import opened Wrappers
  import opened Bytes
  import opened VmTypes
  import opened Ops
  import opened Machine
  import opened Interpreter
  import opened WitnessRun
  import opened Opcodes

  /** JUMP always goes to its address, JUMPIF if the item on top is true; both cost one. */
  lemma JumpsExactly(c: Core, data: Bytes, base: seq<Bytes>, x: Bytes)
    ensures ExecJump(c, 0x63, data) ==
            if c.runLimit < 1 then Bad(c.(runLimit := 0), RunLimitExceeded)
            else Good(c.(runLimit := c.runLimit - 1), Some(FromLittleEndian(data)))
    ensures c.data == base + [x] ==>
            ExecJump(c, 0x64, data) ==
            if c.runLimit < 1 then Bad(c.(runLimit := 0), RunLimitExceeded)
            else Good(c.(runLimit := c.runLimit - 1, deferred := c.deferred + 8 + |x|, data := base),
                      if AsBool(x) then Some(FromLittleEndian(data)) else None)
  {
    hide StackCost, AsBool, Pop, FromLittleEndian;
    if c.data == base + [x] {
      TopPops(ApplyCost(c, 1).core, base, x);
    }
  }

  // ----------------------------------------------------------------- CHECKPREDICATE

  /** The operands of CHECKPREDICATE: how many items the child gets, its program and its gas. */
  datatype Operands = Operands(count: Bytes, program: Bytes, limit: Bytes)

  lemma PopSpawnDoes(c: Core, below: seq<Bytes>, o: Operands, count: int, limit: int)
    requires c.data == below + [o.count] + [o.program] + [o.limit]
    requires AsInt64(o.count) == Ok(count) && AsInt64(o.limit) == Ok(limit)
    ensures PopSpawn(c) ==
            if c.runLimit < 256 then Bad(c.(runLimit := 0), RunLimitExceeded)
            else Good(c.(runLimit := c.runLimit - 256, data := below,
                         deferred := c.deferred - 168 + |o.count| + |o.program| + |o.limit|),
                      (limit, o.program, count))
  {
    hide AsInt64, Pop, PopInt, StackCost;
    if c.runLimit >= 256 {
      var c1 := Defer(ApplyCost(c, 256).core, -192);
      TopPopsInt(c1, below + [o.count] + [o.program], o.limit, limit);
      var c2 := PopInt(c1, true).core;
      TopPops(c2, below + [o.count], o.program);
      TopPopsInt(Pop(c2, true).core, below, o.count, count);
    }
  }

  /** What the parent keeps and the child gets: the given number of items from the top, all if it is negative; the given
      gas, all that is left if it is zero. */
  lemma PrepareExactly(c: Core, below: seq<Bytes>, o: Operands, count: int, limit: int)
    requires c.data == below + [o.count] + [o.program] + [o.limit]
    requires AsInt64(o.count) == Ok(count) && AsInt64(o.limit) == Ok(limit)
    ensures var r, left := PrepareChild(c), c.runLimit - 256;
            if left < 0 then r.Bad? && r.err == RunLimitExceeded
            else if limit < 0 then r.Bad? && r.err == BadValue
            else if count > |below| then r.Bad? && r.err == DataStackUnderflow
            else if limit > left then r.Bad? && r.err == RunLimitExceeded
            else
              var gas, kept := (if limit == 0 then left else limit), if count < 0 then 0 else |below| - count;
              r == Good(c.(runLimit := left - gas, data := below[..kept],
                           deferred := c.deferred - 168 + |o.count| + |o.program| + |o.limit|),
                        Spawn(o.program, Core(gas, 0, below[kept..], [], c.world, 0)))
  {
    hide AsInt64, PopSpawn, StackCost;
    PopSpawnDoes(c, below, o, count, limit);
  }

  lemma FinishDoes(c: Core, out: Res<()>)
    requires !Crashed(out)
    ensures var z := Answer(out.Good? && !FalseTop(out.core));
            FinishChild(c, out) ==
            Good(c.(data := c.data + [z], world := out.core.world, unpaid := c.unpaid + out.core.unpaid,
                    deferred := c.deferred + 8 + |z| - Worth(out.core)), ())
  {
    hide StackCost, FalseTop;
  }

  /** CHECKPREDICATE, once the child can be set up: the answer is whether the child ends well with true on top; whatever
      it ends with, its gas and the cost of its items come back, and its account state is taken over.  A panic, or a
      run that is cut off, ends the parent too. */
  lemma CheckPredicateExactly(env: Env, c: Core, below: seq<Bytes>, o: Operands, count: int, limit: int, fuel: nat)
    requires c.data == below + [o.count] + [o.program] + [o.limit]
    requires AsInt64(o.count) == Ok(count) && AsInt64(o.limit) == Ok(limit)
    requires c.runLimit >= 256 && 0 <= limit <= c.runLimit - 256 && count <= |below|
    ensures var gas, kept := (if limit == 0 then c.runLimit - 256 else limit), if count < 0 then 0 else |below| - count;
            var out := Run(env.(reserved := false), o.program, 0, Core(gas, 0, below[kept..], [], c.world, 0), fuel);
            var r, z := Exec(env, c, 0xc0, [], fuel), Answer(out.Good? && !FalseTop(out.core));
            if out.Out? then r.Out?
            else if out.Bad? && out.err == Panic then r.Bad? && r.err == Panic
            else
              r == Good(c.(runLimit := c.runLimit - 256 - gas, data := below[..kept] + [z], world := out.core.world,
                           unpaid := c.unpaid + out.core.unpaid,
                           deferred := c.deferred - 160 + |o.count| + |o.program| + |o.limit| + |z| - Worth(out.core)),
                        None)
  {
    hide AsInt64, PrepareChild, Run, FinishChild, FalseTop, Worth;
    PrepareExactly(c, below, o, count, limit);
    var p := PrepareChild(c);
    var out := Run(env.(reserved := false), p.val.program, 0, p.val.child, fuel);
    if Crashed(out) {
      CrashPasses(p.core, out);
    } else {
      FinishDoes(p.core, out);
    }
  }

  lemma CrashPasses(c: Core, out: Res<()>)
    requires Crashed(out)
    ensures if out.Out? then FinishChild(c, out).Out? else FinishChild(c, out).Bad? && FinishChild(c, out).err == Panic
  {
  }

  // --------------------------------------------------------------- whole instructions

  /** The deferred price is charged at the end: an instruction needs both prices, one after the other. */
  lemma PerformCharges(env: Env, c: Core, op: Byte, data: Bytes, now: int, later: int, items: seq<Bytes>, fuel: nat)
    requires IsPlain(op) && Does(c.(deferred := 0), ExecPlain(env, c.(deferred := 0), op, data), now, later, items)
    ensures var r := Perform(env, c, op, data, fuel);
            if c.runLimit >= now && c.runLimit >= now + later then
              r == Good(c.(runLimit := c.runLimit - now - later, deferred := later, data := items), None)
            else r.Bad? && r.err == RunLimitExceeded
  {
    hide ExecPlain;
  }

  /** An opcode without a meaning is refused where such opcodes are reserved, and costs one where they are not. */
  lemma ExpansionExactly(env: Env, c: Core, op: Byte, data: Bytes, fuel: nat)
    requires IsExpansion(op)
    ensures Perform(env, c, op, data, fuel) ==
            if env.reserved then Bad(c, DisallowedOpcode)
            else if c.runLimit < 1 then Bad(c.(runLimit := 0), RunLimitExceeded)
            else Good(c.(runLimit := c.runLimit - 1), None)
  {
  }

  // -------------------------------------------------------------------- verification

  lemma {:induction false} ArgumentsCost(c: Core, args: seq<Bytes>)
    requires c.runLimit >= 0
    ensures c.runLimit >= StackCost(args) ==>
              PushAll(c, args) == Good(c.(runLimit := c.runLimit - StackCost(args), data := c.data + args), ())
    ensures c.runLimit < StackCost(args) ==> PushAll(c, args).Bad? && PushAll(c, args).err == RunLimitExceeded
    decreases |args|
  {
    hide StackCost, Push;
    if c.runLimit >= StackCost(args) {
      PushAllCore(c, args);
    } else if args == [] {
      CostOfNone();
    } else {
      FirstCosts(args);
      CopyDoes(c, args[0]);
      var r := Push(c, args[0], false);
      if r.Good? {
        ArgumentsCost(r.core, args[1..]);
      }
    }
  }

  /** A program is accepted exactly if its version is one, the gas pays for the arguments and the run on them ends well
      with true on top; the gas left is that of the run, whatever it ends with. */
  lemma VerifyExactly(ctx: Context, gasLimit: nat, world: nat, fuel: nat)
    ensures var v, args := Verify(ctx, gasLimit, world, fuel), ctx.arguments;
            var out := Run(Env(ctx, ctx.txVersion == Some(1)), ctx.code, 0,
                           Core(gasLimit - StackCost(args), 0, args, [], world, 0), fuel);
            && (ctx.vmVersion != 1 ==> v == Some(Verdict(None, gasLimit, Some(UnsupportedVm))))
            && (ctx.vmVersion == 1 && gasLimit < StackCost(args) ==> v.Some? && v.value.err == Some(RunLimitExceeded))
            && (ctx.vmVersion == 1 && gasLimit >= StackCost(args) ==>
                  && (v.None? <==> out.Out?)
                  && (v.Some? ==> (v.value.err.None? <==> out.Good? && !FalseTop(out.core)))
                  && (v.Some? && !Crashed(out) ==>
                        && v.value.gasLeft == out.core.runLimit
                        && var items := out.core.data;
                           v.value.result == if |items| > 1 then Some(items[|items| - 1]) else None))
  {
    hide StackCost, Run, PushAll, FalseTop;
    var start := Core(gasLimit, 0, [], [], world, 0);
    ArgumentsCost(start, ctx.arguments);
    assert [] + ctx.arguments == ctx.arguments;
  }
}
