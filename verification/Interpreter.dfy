// protocol/vm/vm.go and control.go: running programs, including the child
// machines of CHECKPREDICATE.  The source loops until the program ends or fails;
// here `fuel` bounds steps and nesting, and running out of it is an outcome of
// its own.  Termination shows for which contexts it cannot happen, Divergence that
// for others it happens with any fuel.
module Interpreter {
  import opened Wrappers
  import opened Bytes
  import opened VmTypes
  import opened Ops
  import opened Machine
  import opened StackOps
  import opened NumericOps
  import opened SpliceOps
  import opened CryptoOps
  import opened ContextOps

  /** The context a program runs in, and whether expansion opcodes are refused. */
  datatype Env = Env(ctx: Context, reserved: bool)

  // ----------------------------------------------- instructions without control flow

  function ExecStack(c: Core, op: Byte): (r: Res<()>)
    ensures Pays(c, r)
  {
    if op == OP_TOALTSTACK then ToAltStack(c)
    else if op == OP_FROMALTSTACK then FromAltStack(c)
    else if op == OP_2DROP then Drop2(c)
    else if op == OP_2DUP then Dup(c, 2)
    else if op == OP_3DUP then Dup(c, 3)
    else if op == OP_2OVER then Over2(c)
    else if op == OP_2ROT then Rearrange(c, 2, 6, 2)
    else if op == OP_2SWAP then Rearrange(c, 2, 4, 2)
    else if op == OP_IFDUP then IfDup(c)
    else if op == OP_DEPTH then Depth(c)
    else if op == OP_DROP then Drop(c)
    else if op == OP_DUP then Dup(c, 1)
    else if op == OP_NIP then Nip(c)
    else if op == OP_OVER then Over(c)
    else if op == OP_PICK then Pick(c)
    else if op == OP_ROLL then Roll(c)
    else if op == OP_ROT then Rearrange(c, 2, 3, 1)
    else if op == OP_SWAP then Rearrange(c, 1, 2, 1)
    else Tuck(c)
  }

  function ExecSplice(c: Core, op: Byte): (r: Res<()>)
    ensures Pays(c, r)
  {
    if op == OP_CAT then Concatenate(c, false)
    else if op == OP_SUBSTR then Substr(c)
    else if op == OP_LEFT then Left(c)
    else if op == OP_RIGHT then Right(c)
    else if op == OP_SIZE then SizeOf(c)
    else if op == OP_INVERT then Invert(c)
    else if op == OP_EQUAL then Equal(c)
    else if op == OP_EQUALVERIFY then EqualVerify(c)
    else if op == OP_CATPUSHDATA then Concatenate(c, true)
    else Bitwise(c, op)
  }

  function ExecNumeric(c: Core, op: Byte): (r: Res<()>)
    ensures Pays(c, r)
  {
    if op <= OP_0NOTEQUAL then Unary(c, op)
    else if op == OP_LSHIFT then Lshift(c)
    else if op == OP_BOOLAND || op == OP_BOOLOR then Logic(c, op)
    else if op == OP_NUMEQUALVERIFY then NumEqualVerify(c)
    else if op == OP_WITHIN then NumericOps.Within(c)
    else Binary(c, op)
  }

  function ExecCrypto(ctx: Context, c: Core, op: Byte): (r: Res<()>)
    ensures Pays(c, r)
  {
    if op == OP_CHECKSIG then CheckSig(ctx, c)
    else if op == OP_CHECKMULTISIG then CheckMultiSig(ctx, c)
    else if op == OP_TXSIGHASH then TxSigHash(ctx, c)
    else HashTop(ctx, c, op)
  }

  function ExecContext(env: Env, c: Core, op: Byte): (r: Res<()>)
    ensures Pays(c, r)
  {
    if op == OP_CHECKOUTPUT then CheckOutput(env.ctx, env.reserved, c)
    else if op <= OP_BLOCKHEIGHT then PushField(env.ctx, c, op)
    else if op <= OP_CONTRACT then RunContract(env.ctx, c, op)
    else Transfer(env.ctx, c, op)
  }

  function Nop(c: Core): (r: Res<()>)
    ensures Pays(c, r)
  {
    ApplyCost(c, 1)
  }

  function VerifyTop(c: Core): (r: Res<()>)
    ensures Pays(c, r)
  {
    var (c, _) :- ApplyCost(c, 1);
    var (c, p) :- Pop(c, true);
    if AsBool(p) then Good(c, ()) else Bad(c, VerifyFailed)
  }

  function Fail(c: Core): (r: Res<()>)
    ensures Pays(c, r)
  {
    var (c, _) :- ApplyCost(c, 1);
    Bad(c, ReturnExecuted)
  }

  /** Everything except jumps and CHECKPREDICATE. */
  function ExecPlain(env: Env, c: Core, op: Byte, data: Bytes): (r: Res<()>)
    ensures Pays(c, r)
  {
    if op == OP_0 then PushBytes(c, [])
    else if PushesData(op) then PushBytes(c, data)
    else if op == OP_1NEGATE then PushBytes(c, Int64Bytes(-1))
    else if op == OP_VERIFY then VerifyTop(c)
    else if op == OP_FAIL then Fail(c)
    else if OP_TOALTSTACK <= op <= OP_TUCK then ExecStack(c, op)
    else if OP_CAT <= op <= OP_CATPUSHDATA then ExecSplice(c, op)
    else if OP_1ADD <= op <= OP_WITHIN then ExecNumeric(c, op)
    else if OP_SHA256 <= op <= OP_TXSIGHASH then ExecCrypto(env.ctx, c, op)
    else if OP_CHECKOUTPUT <= op <= OP_WITHDRAW then ExecContext(env, c, op)
    else Nop(c)
  }

  /** JUMP and JUMPIF: the address to go on at, unless it is the next instruction. */
  function ExecJump(c: Core, op: Byte, data: Bytes): (r: Res<Option<nat>>)
    ensures Pays(c, r)
    ensures r.Good? && r.val.Some? ==> r.val.value == FromLittleEndian(data)
    ensures r.Good? && op == OP_JUMP ==> r.val.Some? && r.core.data == c.data
    ensures r.Good? && op != OP_JUMP ==>
      c.data != [] && (r.val.Some? <==> AsBool(c.data[|c.data| - 1])) && r.core.data == c.data[..|c.data| - 1]
  {
    var (c, _) :- ApplyCost(c, 1);
    if op == OP_JUMP then Good(c, Some(FromLittleEndian(data)))
    else
      var (c, p) :- Pop(c, true);
      Good(c, if AsBool(p) then Some(FromLittleEndian(data)) else None)
  }

  // ------------------------------------------------------------- child machines

  /** Outcomes that end the whole verification and not only the machine they happen in. */
  predicate Crashed<T>(r: Res<T>) {
    r.Out? || (r.Bad? && r.err == Panic)
  }

  /** A child as CHECKPREDICATE sets it up: its program and state, and the parent's state without what it hands over. */
  datatype Spawn = Spawn(program: Bytes, child: Core)

  function PopSpawn(c: Core): (r: Res<(int, Bytes, int)>)
    ensures Takes(c, r, 64) && (r.Good? && c.runLimit >= 0 ==> Net(r.core) <= Net(c) - 256)
    ensures r.Good? ==> r.core.runLimit >= 0
  {
    hide PopInt, Pop;
    var (c, _) :- ApplyCost(c, 256);
    var (c, limit) :- PopInt(Defer(c, -192), true);
    var (c, program) :- Pop(c, true);
    var (c, n) :- PopInt(c, true);
    Good(c, (limit, program, n))
  }

  /** How many items the child gets: all of them if the number is negative. */
  function Handed(c: Core, n: int): int {
    if n < 0 then |c.data| else n
  }

  /** The run limit and the items given to the child are worth what the parent loses. */
  predicate HandsOver(c: Core, r: Res<Spawn>, k: int) {
    !r.Out? &&
    (c.runLimit >= 0 ==>
       && r.core.runLimit >= 0 && r.core.unpaid == c.unpaid && Net(r.core) <= Net(c)
       && (r.Good? ==>
             && r.val.child.runLimit >= 0 && r.val.child.unpaid == 0
             && Level(r.core) + Worth(r.val.child) <= Level(c) - k
             && Net(r.core) + Worth(r.val.child) <= Net(c) - k))
  }

  function HandOver(c: Core, limit: nat, program: Bytes, kept: nat): (r: Res<Spawn>)
    requires kept <= |c.data|
    ensures HandsOver(c, r, 0)
  {
    var (c, _) :- ApplyCost(c, limit);
    StackCostConcat(c.data[..kept], c.data[kept..]);
    assert c.data == c.data[..kept] + c.data[kept..];
    assert StackCost([]) == 0;
    Good(c.(data := c.data[..kept]), Spawn(program, Core(limit, 0, c.data[kept..], [], c.world, 0)))
  }

  /** A limit of zero stands for all that is left. */
  function PrepareChild(c: Core): (r: Res<Spawn>)
    ensures HandsOver(c, r, 64)
  {
    hide PopSpawn, HandOver;
    var (c, popped) :- PopSpawn(c);
    var (limit, program, n) := popped;
    if limit < 0 then Bad(c, BadValue)
    else if Handed(c, n) > |c.data| then Bad(c, DataStackUnderflow)
    else HandOver(c, if limit == 0 then c.runLimit else limit, program, |c.data| - Handed(c, n))
  }

  /** What the parent takes over from a child that has ended: its run limit and the cost of its stacks. */
  function Reclaim(c: Core, child: Core): (r: Core)
    ensures r.runLimit == c.runLimit && r.unpaid >= c.unpaid && Level(r) == Level(c) + Net(child)
  {
    c.(deferred := c.deferred - child.runLimit - StackCost(child.data) - StackCost(child.alt),
       world := child.world, unpaid := c.unpaid + child.unpaid)
  }

  function FinishChild(c: Core, out: Res<()>): Res<()> {
    if out.Out? then Out(Reclaim(c, out.core))
    else if out.Bad? && out.err == Panic then Bad(Reclaim(c, out.core), Panic)
    else Push(Reclaim(c, out.core), BoolBytes(out.Good? && !FalseTop(out.core)), true)
  }

  function CheckPredicate(env: Env, c: Core, fuel: nat): Res<()>
    decreases fuel, 1
  {
    var (c, spawn) :- PrepareChild(c);
    FinishChild(c, Run(env.(reserved := false), spawn.program, 0, spawn.child, fuel))
  }

  // ------------------------------------------------------------------ steps and runs

  /** One instruction without the charge that ends it; the value is where to go on if not at the next one. */
  function Exec(env: Env, c: Core, op: Byte, data: Bytes, fuel: nat): Res<Option<nat>>
    decreases fuel, 2
  {
    if IsJump(op) then ExecJump(c, op, data)
    else
      var (c, _) :- if op == OP_CHECKPREDICATE then CheckPredicate(env, c, fuel) else ExecPlain(env, c, op, data);
      Good(c, None)
  }

  /** The deferred cost is charged last; what cannot be paid of it is recorded. */
  function Settle(c: Core): Res<()> {
    if c.deferred > c.runLimit then
      Bad(c.(runLimit := 0, unpaid := c.unpaid + c.deferred - c.runLimit), RunLimitExceeded)
    else Good(c.(runLimit := c.runLimit - c.deferred), ())
  }

  /** What an instruction does, wherever it stands in its program. */
  function Perform(env: Env, c: Core, op: Byte, data: Bytes, fuel: nat): Res<Option<nat>>
    decreases fuel, 3
  {
    if IsExpansion(op) then
      if env.reserved then Bad(c, DisallowedOpcode)
      else
        var (c, _) :- ApplyCost(c, 1);
        Good(c, None)
    else
      var (c, target) :- Exec(env, c.(deferred := 0), op, data, fuel);
      var (c, _) :- Settle(c);
      Good(c, target)
  }

  /** The state after the instruction at pc, and the next pc. */
  function Step(env: Env, prog: Bytes, pc: nat, c: Core, fuel: nat): Res<nat>
    decreases fuel, 4
  {
    match ParseOp(prog, pc)
    case Err(e) => Bad(c, e)
    case Ok(inst) =>
      var (c, target) :- Perform(env, c, inst.op, inst.data, fuel);
      Good(c, if target.Some? then target.value else pc + inst.len)
  }

  function Run(env: Env, prog: Bytes, pc: nat, c: Core, fuel: nat): Res<()>
    decreases fuel, 0
  {
    if pc >= |prog| % TWO_32 then Good(c, ())
    else if fuel == 0 then Out(c)
    else
      var (c, next) :- Step(env, prog, pc, c, fuel - 1);
      Run(env, prog, next, c, fuel - 1)
  }

  // ---------------------------------------------------------------- verification

  datatype Verdict = Verdict(result: Option<Bytes>, gasLeft: int, err: Option<VmError>)

  function PushAll(c: Core, args: seq<Bytes>): Res<()>
    decreases |args|
  {
    if args == [] then Good(c, ())
    else
      var (c, _) :- Push(c, args[0], false);
      PushAll(c, args[1..])
  }

  function Judge(out: Res<()>): Option<Verdict> {
    if out.Out? then None
    else if out.Bad? && out.err == Panic then Some(Verdict(None, 0, Some(Panic)))
    else
      var result := if |out.core.data| > 1 then Some(out.core.data[|out.core.data| - 1]) else None;
      var err := if out.Bad? then Some(out.err) else if FalseTop(out.core) then Some(FalseResult) else None;
      Some(Verdict(result, out.core.runLimit, err))
  }

  /** None if the run was cut off. */
  function Verify(ctx: Context, gasLimit: int, world: nat, fuel: nat): Option<Verdict> {
    if ctx.vmVersion != 1 then Some(Verdict(None, gasLimit, Some(UnsupportedVm)))
    else
      var pushed := PushAll(Core(gasLimit, 0, [], [], world, 0), ctx.arguments);
      match pushed
      case Good(c, _) => Judge(Run(Env(ctx, ctx.txVersion == Some(1)), ctx.code, 0, c, fuel))
      case Bad(c, err) => Some(Verdict(None, c.runLimit, Some(err)))
      case Out(_) => None
  }
}
