// protocol/vm/introspection.go, create.go, call.go, contract.go and vaab.go:
// instructions that look at the transaction or act on account state.
module ContextOps {
  import opened Wrappers
  import opened Bytes
  import opened VmTypes
  import opened Ops
  import opened Machine

  function PopNat(c: Core): (r: Res<nat>)
    ensures Takes(c, r, 16)
  {
    var (c, n) :- PopInt(c, true);
    if n < 0 then Bad(c, BadValue) else Good(c, n)
  }

  function CheckOutput(ctx: Context, reserved: bool, c: Core): (r: Res<()>)
    ensures Pays(c, r)
  {
    hide ApplyCost, Pop, PopNat, Net;
    var (c, _) :- ApplyCost(c, 16);
    var (c, code) :- Pop(c, true);
    var (c, vmVersion) :- PopNat(c);
    var (c, assetId) :- Pop(c, true);
    var (c, amount) :- PopNat(c);
    var (c, index) :- PopNat(c);
    if ctx.checkOutput.None? then Bad(c, ContextMissing)
    else
      match ctx.checkOutput.value(index, amount, assetId, vmVersion, code, reserved)
      case Some(found) => Push(c, BoolBytes(found), true)
      case None => Bad(c, External)
  }

  function Number(n: Option<nat>): Option<Bytes> {
    if n.None? then None else Some(Int64Bytes(n.value))
  }

  /** The field of the context an instruction pushes, if it is present. */
  function Field(ctx: Context, op: Byte): Option<Bytes> {
    if op == OP_ASSET then ctx.assetId
    else if op == OP_AMOUNT then Number(ctx.amount)
    else if op == OP_PROGRAM then Some(ctx.code)
    else if op == OP_TXDATA then ctx.txData
    else if op == OP_ENTRYDATA then ctx.entryData
    else if op == OP_INDEX then Number(ctx.destPos)
    else if op == OP_ENTRYID then Some(ctx.entryId)
    else if op == OP_OUTPUTID then ctx.spentOutputId
    else Number(ctx.blockHeight)
  }

  function PushField(ctx: Context, c: Core, op: Byte): (r: Res<()>)
    ensures Pays(c, r)
  {
    var (c, _) :- ApplyCost(c, 1);
    match Field(ctx, op)
    case Some(x) => Push(c, x, true)
    case None => Bad(c, ContextMissing)
  }

  // ------------------------------------------------------------------- contracts

  /** The low 64 bits of a big-endian number are not all zero. */
  predicate NonZeroLow(x: Bytes) {
    AsBool(if |x| > 8 then x[|x| - 8..] else x)
  }

  /** CREATE takes the code, a version, a nonce and the creator; CALL and CONTRACT take the contract address as well. */
  function PopMessage(c: Core, op: Byte): (r: Res<seq<Bytes>>)
    ensures Takes(c, r, 16)
  {
    hide Pop, PopMany, Net;
    var (c, code) :- Pop(c, false);
    var (c, version) :- Pop(c, false);
    if NonZeroLow(version) then Bad(c, UnknownVersion)
    else
      var (c, rest) :- PopMany(c, if op == OP_CREATE then 2 else 3, false);
      Good(c, [code] + rest)
  }

  /** Runs a contract outside this machine, which reports the new account state and, on success, gas and a result.
      A context without asset or amount makes the machine panic. */
  function RunContract(ctx: Context, c: Core, op: Byte): (r: Res<()>)
    ensures Pays(c, r)
  {
    hide PopMessage, ApplyCost;
    if ctx.assetId.None? || ctx.amount.None? then Bad(c, Panic)
    else
      var (c, message) :- PopMessage(c, op);
      var (world, outcome) := ctx.evm(c.world, op, message, c.runLimit);
      var c := c.(world := world);
      if outcome.None? then Bad(c, External)
      else
        var (c, _) :- ApplyCost(c, outcome.value.0);
        Push(c, outcome.value.1, false)
  }

  /** DEPOSIT and WITHDRAW move the amount between the output and an account. */
  function Transfer(ctx: Context, c: Core, op: Byte): (r: Res<()>)
    ensures Pays(c, r)
  {
    hide Pop;
    if ctx.assetId.None? || ctx.amount.None? then Bad(c, Panic)
    else
      var (c, address) :- Pop(c, false);
      var (c, vmType) :- Pop(c, false);
      if NonZeroLow(vmType) then Bad(c, UnknownVersion)
      else
        var (c, version) :- Pop(c, false);
        if NonZeroLow(version) then Bad(c, UnknownVersion)
        else
          var (world, done) := ctx.transfer(c.world, op, address);
          var c := c.(world := world);
          if !done then Bad(c, External) else Push(c, BoolBytes(true), false)
  }
}
