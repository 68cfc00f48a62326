// protocol/vm/vm.go, control.go and crypto.go: the machine as the source runs
// it, an object that each instruction changes, proved against Interpreter.
module VirtualMachine {
  import opened Wrappers
  import opened Bytes
  import opened VmTypes
  import opened Ops
  import M = Machine
  import opened CryptoOps
  import I = Interpreter

  class Vm {
    const ctx: M.Context
    const program: Bytes
    const expansionReserved: bool
    var pc: nat
    var nextPC: nat
    var runLimit: int
    var deferredCost: int
    var dataStack: seq<Bytes>
    var altStack: seq<Bytes>
    var world: nat
    var unpaid: nat

    function State(): M.Core
      reads this
    {
      M.Core(runLimit, deferredCost, dataStack, altStack, world, unpaid)
    }

    function Env(): I.Env {
      I.Env(ctx, expansionReserved)
    }

    constructor (ctx: M.Context, program: Bytes, expansionReserved: bool, runLimit: int, dataStack: seq<Bytes>,
                 world: nat)
      ensures this.ctx == ctx && this.program == program && this.expansionReserved == expansionReserved
      ensures State() == M.Core(runLimit, 0, dataStack, [], world, 0) && pc == 0
    {
      this.ctx, this.program, this.expansionReserved := ctx, program, expansionReserved;
      this.runLimit, this.dataStack, this.world := runLimit, dataStack, world;
      pc, nextPC, deferredCost, altStack, unpaid := 0, 0, 0, [], 0;
    }

    /** The current state with an error, if there is one, as the outcome of an action. */
    ghost function Outcome<T>(err: Option<VmError>, val: T): M.Res<T>
      reads this
    {
      if err.None? then M.Good(State(), val) else M.Bad(State(), err.value)
    }

    method Load(c: M.Core)
      modifies this`runLimit, this`deferredCost, this`dataStack, this`altStack, this`world, this`unpaid
      ensures State() == c
    {
      runLimit, deferredCost, dataStack, altStack := c.runLimit, c.deferred, c.data, c.alt;
      world, unpaid := c.world, c.unpaid;
    }

    method ApplyCost(n: int) returns (err: Option<VmError>)
      modifies this`runLimit
      ensures Outcome(err, ()) == M.ApplyCost(old(State()), n)
    {
      if n > runLimit {
        runLimit := 0;
        return Some(RunLimitExceeded);
      }
      runLimit := runLimit - n;
      return None;
    }

    method Push(x: Bytes, deferred: bool) returns (err: Option<VmError>)
      modifies this`runLimit, this`deferredCost, this`dataStack
      ensures Outcome(err, ()) == M.Push(old(State()), x, deferred)
    {
      var cost := 8 + |x|;
      if deferred {
        deferredCost := deferredCost + cost;
      } else {
        err := ApplyCost(cost);
        if err.Some? {
          return;
        }
      }
      dataStack := dataStack + [x];
      return None;
    }

    method Pop(deferred: bool) returns (err: Option<VmError>, x: Bytes)
      modifies this`runLimit, this`deferredCost, this`dataStack
      ensures Outcome(err, x) == M.Pop(old(State()), deferred)
    {
      if |dataStack| == 0 {
        return Some(DataStackUnderflow), [];
      }
      x := dataStack[|dataStack| - 1];
      var cost := 8 + |x|;
      if deferred {
        deferredCost := deferredCost + cost;
      } else {
        err := ApplyCost(cost);
        if err.Some? {
          return;
        }
      }
      dataStack := dataStack[..|dataStack| - 1];
      return None, x;
    }

    method PopInt(deferred: bool) returns (err: Option<VmError>, n: int)
      modifies this`runLimit, this`deferredCost, this`dataStack
      ensures Outcome(err, n) == M.PopInt(old(State()), deferred)
    {
      hide M.Pop;
      var x;
      err, x := Pop(deferred);
      if err.Some? {
        return err, 0;
      }
      match AsInt64(x) {
        case Ok(v) => return None, v;
        case Err(e) => return Some(e), 0;
      }
    }

    /** The loops of CHECKMULTISIG that collect keys and signatures. */
    method PopMany(n: nat) returns (err: Option<VmError>, items: seq<Bytes>)
      modifies this`runLimit, this`deferredCost, this`dataStack
      ensures Outcome(err, items) == M.PopMany(old(State()), n, true)
    {
      hide M.Pop;
      items := [];
      ghost var start := State();
      for i := 0 to n
        invariant M.Good(State(), items) == M.PopMany(start, i, true)
      {
        var x;
        err, x := Pop(true);
        if err.Some? {
          ManyStops(start, i + 1, n);
          return;
        }
        items := items + [x];
      }
      return None, items;
    }

    method CheckMultiSig() returns (err: Option<VmError>)
      modifies this`runLimit, this`deferredCost, this`dataStack
      ensures Outcome(err, ()) == I.ExecCrypto(ctx, old(State()), OP_CHECKMULTISIG)
    {
      hide M.PopInt, M.Pop, M.PopMany, M.ApplyCost, AllUsedUp, KeysWellFormed, M.Push;
      var numKeys, numSigs, keys, msg, sigs;
      err, numKeys := PopInt(true);
      if err.Some? {
        return;
      }
      if numKeys < 0 || numKeys * 1024 > MAX_INT64 {
        return Some(BadValue);
      }
      err := ApplyCost(numKeys * 1024);
      if err.Some? {
        return;
      }
      err, numSigs := PopInt(true);
      if err.Some? {
        return;
      }
      if numSigs < 0 || numSigs > numKeys || (numKeys > 0 && numSigs == 0) {
        return Some(BadValue);
      }
      err, keys := PopMany(numKeys);
      if err.Some? {
        return;
      }
      err, msg := Pop(true);
      if err.Some? {
        return;
      }
      if |msg| != MESSAGE_SIZE {
        return Some(BadValue);
      }
      err, sigs := PopMany(numSigs);
      if err.Some? {
        return;
      }
      var wellFormed := CheckKeys(keys);
      if !wellFormed {
        err := Push(BoolBytes(false), true);
        return;
      }
      var all := ComputeAllUsedUp(ctx, keys, msg, sigs);
      err := Push(BoolBytes(all), true);
    }

    /** As Outcome, for actions that may be cut off. */
    ghost function Ended<T>(err: Option<VmError>, cut: bool, val: T): M.Res<T>
      reads this
    {
      if cut then M.Out(State()) else Outcome(err, val)
    }

    method PopSpawn() returns (err: Option<VmError>, limit: int, script: Bytes, n: int)
      modifies this`runLimit, this`deferredCost, this`dataStack
      ensures Outcome(err, (limit, script, n)) == I.PopSpawn(old(State()))
    {
      hide M.PopInt, M.Pop;
      limit, script, n := 0, [], 0;
      err := ApplyCost(256);
      if err.Some? {
        return;
      }
      deferredCost := deferredCost - 192;
      err, limit := PopInt(true);
      if err.Some? {
        return;
      }
      err, script := Pop(true);
      if err.Some? {
        return;
      }
      err, n := PopInt(true);
    }

    method PrepareChild() returns (err: Option<VmError>, script: Bytes, limit: int, items: seq<Bytes>)
      modifies this`runLimit, this`deferredCost, this`dataStack
      ensures Outcome(err, I.Spawn(script, M.Core(limit, 0, items, [], world, 0))) == I.PrepareChild(old(State()))
    {
      hide I.PopSpawn, M.StackCost;
      items := [];
      var n;
      err, limit, script, n := PopSpawn();
      if err.Some? {
        return;
      }
      if limit < 0 {
        err := Some(BadValue);
        return;
      }
      var l := |dataStack|;
      if n < 0 {
        n := l;
      }
      if n > l {
        err := Some(DataStackUnderflow);
        return;
      }
      if limit == 0 {
        limit := runLimit;
      }
      err := ApplyCost(limit);
      if err.Some? {
        return;
      }
      items := dataStack[l - n..];
      dataStack := dataStack[..l - n];
    }

    /** Runs the predicate in a child machine on the topmost items and takes back what the child has left. */
    method CheckPredicate(fuel: nat) returns (err: Option<VmError>, cut: bool)
      modifies this`runLimit, this`deferredCost, this`dataStack, this`altStack, this`world, this`unpaid
      ensures Ended(err, cut, ()) == I.CheckPredicate(Env(), old(State()), fuel)
      decreases fuel, 1
    {
      hide I.PrepareChild, I.Run, M.StackCost, M.FalseTop;
      cut := false;
      var script, limit, items;
      err, script, limit, items := PrepareChild();
      if err.Some? {
        return;
      }
      ghost var prepared := State();
      var child := new Vm(ctx, script, false, limit, items, world);
      var childErr, childCut := child.Run(fuel);
      var data := M.ComputeStackCost(child.dataStack);
      var alt := M.ComputeStackCost(child.altStack);
      deferredCost := deferredCost - child.runLimit - data - alt;
      world, unpaid := child.world, unpaid + child.unpaid;
      assert State() == I.Reclaim(prepared, child.State());
      if childCut {
        return None, true;
      }
      if childErr == Some(Panic) {
        return Some(Panic), false;
      }
      var falseResult := child.FalseResult();
      err := Push(BoolBytes(childErr.None? && !falseResult), true);
    }

    method FalseResult() returns (r: bool)
      ensures r == M.FalseTop(State())
    {
      if |dataStack| == 0 {
        return true;
      }
      var top := ComputeAsBool(dataStack[|dataStack| - 1]);
      return !top;
    }

    /** Jumps set nextPC; the instructions without control flow act as their functions say. */
    method Execute(op: Byte, data: Bytes, fuel: nat) returns (err: Option<VmError>, cut: bool)
      modifies this
      ensures pc == old(pc)
      ensures var r := I.Exec(Env(), old(State()), op, data, fuel);
              && Ended(err, cut, ()) == Erase(r)
              && (r.Good? ==> nextPC == if r.val.Some? then r.val.value else old(nextPC))
      decreases fuel, 2
    {
      hide I.ExecPlain, I.CheckPredicate, I.ExecJump, M.Pop;
      cut := false;
      if IsJump(op) {
        err := Jump(op, data);
      } else if op == OP_CHECKPREDICATE {
        err, cut := CheckPredicate(fuel);
      } else {
        var r := I.ExecPlain(Env(), State(), op, data);
        Load(r.core);
        err := if r.Bad? then Some(r.err) else None;
      }
    }

    method Jump(op: Byte, data: Bytes) returns (err: Option<VmError>)
      requires IsJump(op)
      modifies this`runLimit, this`deferredCost, this`dataStack, this`nextPC
      ensures var r := I.ExecJump(old(State()), op, data);
              && Outcome(err, ()) == Erase(r)
              && (r.Good? ==> nextPC == if r.val.Some? then r.val.value else old(nextPC))
    {
      hide M.Pop;
      err := ApplyCost(1);
      if err.Some? {
        return;
      }
      if op == OP_JUMP {
        nextPC := FromLittleEndian(data);
        return;
      }
      var p;
      err, p := Pop(true);
      if err.Some? {
        return;
      }
      var taken := ComputeAsBool(p);
      if taken {
        nextPC := FromLittleEndian(data);
      }
    }

    method Step(fuel: nat) returns (err: Option<VmError>, cut: bool)
      modifies this
      ensures var r := I.Step(Env(), program, old(pc), old(State()), fuel);
              Ended(err, cut, ()) == Erase(r) && (r.Good? ==> pc == r.val)
      decreases fuel, 4
    {
      hide I.Exec, ParseOp;
      cut := false;
      var inst := ParseOp(program, pc);
      if inst.Err? {
        return Some(inst.error), false;
      }
      nextPC := pc + inst.value.len;
      if IsExpansion(inst.value.op) {
        if expansionReserved {
          return Some(DisallowedOpcode), false;
        }
        pc := nextPC;
        err := ApplyCost(1);
        return;
      }
      deferredCost := 0;
      err, cut := Execute(inst.value.op, inst.value.data, fuel);
      if err.Some? || cut {
        return;
      }
      if deferredCost > runLimit {
        unpaid := unpaid + deferredCost - runLimit;
      }
      err := ApplyCost(deferredCost);
      if err.Some? {
        return;
      }
      pc := nextPC;
    }

    method Run(fuel: nat) returns (err: Option<VmError>, cut: bool)
      modifies this
      ensures Ended(err, cut, ()) == I.Run(Env(), program, 0, old(State()), fuel)
      decreases fuel, 0
    {
      hide I.Step;
      var left: nat := fuel;
      ghost var start := State();
      pc := 0;
      while pc < |program| % TWO_32
        invariant left <= fuel && I.Run(Env(), program, pc, State(), left) == I.Run(Env(), program, 0, start, fuel)
        decreases left
      {
        if left == 0 {
          return None, true;
        }
        left := left - 1;
        err, cut := Step(left);
        if err.Some? || cut {
          return;
        }
      }
      return None, false;
    }
  }

  function Erase<T>(r: M.Res<T>): M.Res<()> {
    if r.Good? then M.Good(r.core, ()) else r.PropagateFailure()
  }

  method Verify(ctx: M.Context, gasLimit: int, world: nat, fuel: nat) returns (v: Option<I.Verdict>)
    ensures v == I.Verify(ctx, gasLimit, world, fuel)
  {
    hide I.Run, M.FalseTop;
    if ctx.vmVersion != 1 {
      return Some(I.Verdict(None, gasLimit, Some(UnsupportedVm)));
    }
    var vm := new Vm(ctx, ctx.code, ctx.txVersion == Some(1), gasLimit, [], world);
    ghost var start := vm.State();
    for i := 0 to |ctx.arguments|
      invariant I.PushAll(vm.State(), ctx.arguments[i..]) == I.PushAll(start, ctx.arguments)
    {
      assert ctx.arguments[i..][1..] == ctx.arguments[i + 1..];
      var e := vm.Push(ctx.arguments[i], false);
      if e.Some? {
        return Some(I.Verdict(None, vm.runLimit, e));
      }
    }
    var err, cut := vm.Run(fuel);
    if cut {
      return None;
    }
    if err == Some(Panic) {
      return Some(I.Verdict(None, 0, err));
    }
    var falseResult := vm.FalseResult();
    if err.None? && falseResult {
      err := Some(VmError.FalseResult);
    }
    var result := None;
    if |vm.dataStack| > 1 {
      result := Some(vm.dataStack[|vm.dataStack| - 1]);
    }
    return Some(I.Verdict(result, vm.runLimit, err));
  }

  method CheckKeys(keys: seq<Bytes>) returns (r: bool)
    ensures r == KeysWellFormed(keys)
  {
    for i := 0 to |keys|
      invariant forall k :: 0 <= k < i ==> |keys[k]| == PUBLIC_KEY_SIZE
    {
      if |keys[i]| != PUBLIC_KEY_SIZE {
        return false;
      }
    }
    return true;
  }

  lemma {:induction false} ManyStops(c: M.Core, i: nat, n: nat)
    requires i <= n && !M.PopMany(c, i, true).Good?
    ensures M.PopMany(c, n, true) == M.PopMany(c, i, true)
  {
    hide M.Pop;
    if i < n {
      ManyStops(c, i, n - 1);
    }
  }
}
