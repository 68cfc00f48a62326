// protocol/vmutil/script.go and vaab.go, consensus/segwit/segwit.go and the
// recognisers in protocol/vm: the standard programs, and telling them apart.
module Scripts {
  import opened Wrappers
  import opened Bytes
  import opened VmTypes
  import opened Ops
  import opened Pushdata
  import opened Layout
  import opened ProgramBuilder

  const SCRIPT_HASH_SIZE: nat := 20
  const ADDRESS_SIZE: nat := 20

  // ----------------------------------------------------------------- generators

  function P2wshItems(hash: Bytes): seq<Item> {
    [Chunk(PushdataInt64(0)), Chunk(PushdataBytes(hash))]
  }

  /** DEPOSIT and WITHDRAW programs. */
  function TransferItems(op: Byte, vmType: int, address: Bytes): seq<Item> {
    [Chunk([OP_0]), Chunk(PushdataInt64(vmType)), Chunk(PushdataBytes(address)), Chunk([op])]
  }

  /** CREATE, CALL and CONTRACT programs. */
  function ContractItems(op: Byte, code: Bytes): seq<Item> {
    [Chunk([OP_0]), Chunk(PushdataBytes(code)), Chunk([op])]
  }

  function P2shItems(hash: Bytes): seq<Item> {
    [Chunk([OP_DUP]), Chunk([OP_HASH160]), Chunk(PushdataBytes(hash)), Chunk([OP_EQUALVERIFY]),
     Chunk(PushdataInt64(-1)), Chunk([OP_SWAP]), Chunk(PushdataInt64(0)), Chunk([OP_CHECKPREDICATE])]
  }

  function KeyItems(keys: seq<Bytes>): (r: seq<Item>)
    ensures |r| == |keys| && forall i :: 0 <= i < |r| ==> r[i] == Chunk(PushdataBytes(keys[i]))
  {
    if keys == [] then [] else KeyItems(keys[..|keys| - 1]) + [Chunk(PushdataBytes(keys[|keys| - 1]))]
  }

  function MultiSigItems(keys: seq<Bytes>, quorum: int): seq<Item> {
    [Chunk([OP_TXSIGHASH])] + KeyItems(keys) +
    [Chunk(PushdataInt64(quorum)), Chunk(PushdataInt64(|keys|)), Chunk([OP_CHECKMULTISIG])]
  }

  predicate MultiSigParamsOk(quorum: int, keys: nat) {
    0 <= quorum <= keys && (quorum == 0 ==> keys == 0)
  }

  predicate NoJumps(items: seq<Item>) {
    forall i :: 0 <= i < |items| ==> items[i].Chunk?
  }

  method Finish(b: Builder) returns (prog: Bytes)
    requires b.Valid() && NoJumps(b.items)
    modifies b`program, b`items
    ensures prog == Emit(old(b.items))
  {
    hide ListsUses, OnBoundaries, Emit;
    NothingToResolve(b.items, Words(b.jumpAddr));
    var r := b.Build();
    return r.value;
  }

  lemma NothingToResolve(items: seq<Item>, addrs: Addresses)
    requires NoJumps(items)
    ensures Resolve(items, addrs) == items
  {
  }

  method P2wshProgram(hash: Bytes) returns (prog: Bytes)
    ensures prog == Emit(P2wshItems(hash))
  {
    hide ListsUses, OnBoundaries, Emit, PushdataBytes, PushdataInt64;
    var b := new Builder();
    b.AddInt64(0);
    b.AddData(hash);
    assert b.items == P2wshItems(hash);
    prog := Finish(b);
  }

  method TransferProgram(op: Byte, vmType: int, address: Bytes) returns (prog: Bytes)
    ensures prog == Emit(TransferItems(op, vmType, address))
  {
    hide ListsUses, OnBoundaries, Emit, PushdataBytes, PushdataInt64;
    var b := new Builder();
    b.AddOp(OP_0);
    b.AddInt64(vmType);
    b.AddData(address);
    b.AddOp(op);
    assert b.items == TransferItems(op, vmType, address);
    prog := Finish(b);
  }

  method ContractProgram(op: Byte, code: Bytes) returns (prog: Bytes)
    ensures prog == Emit(ContractItems(op, code))
  {
    hide ListsUses, OnBoundaries, Emit, PushdataBytes;
    var b := new Builder();
    b.AddOp(OP_0);
    b.AddData(code);
    b.AddOp(op);
    assert b.items == ContractItems(op, code);
    prog := Finish(b);
  }

  method P2shProgram(hash: Bytes) returns (prog: Bytes)
    ensures prog == Emit(P2shItems(hash))
  {
    hide ListsUses, OnBoundaries, Emit, PushdataBytes, PushdataInt64;
    var b := new Builder();
    b.AddOp(OP_DUP);
    b.AddOp(OP_HASH160);
    b.AddData(hash);
    b.AddOp(OP_EQUALVERIFY);
    b.AddInt64(-1);
    b.AddOp(OP_SWAP);
    b.AddInt64(0);
    b.AddOp(OP_CHECKPREDICATE);
    assert b.items == P2shItems(hash);
    prog := Finish(b);
  }

  /** Refuses a quorum that is negative, larger than the number of keys, or zero for a non-empty list. */
  method MultiSigProgram(keys: seq<Bytes>, quorum: int) returns (r: Result<Bytes, VmError>)
    ensures r.Ok? <==> MultiSigParamsOk(quorum, |keys|)
    ensures r.Ok? ==> r.value == Emit(MultiSigItems(keys, quorum))
  {
    hide ListsUses, OnBoundaries, Emit, PushdataBytes, PushdataInt64;
    if quorum < 0 || quorum > |keys| || (quorum == 0 && |keys| > 0) {
      return Err(BadValue);
    }
    var b := new Builder();
    b.AddOp(OP_TXSIGHASH);
    for i := 0 to |keys|
      invariant b.Valid() && fresh(b)
      invariant b.items == [Chunk([OP_TXSIGHASH])] + KeyItems(keys[..i])
    {
      b.AddData(keys[i]);
      assert keys[..i + 1][..i] == keys[..i];
    }
    assert keys[..|keys|] == keys;
    b.AddInt64(quorum);
    b.AddInt64(|keys|);
    b.AddOp(OP_CHECKMULTISIG);
    assert b.items == MultiSigItems(keys, quorum);
    var prog := Finish(b);
    return Ok(prog);
  }

  // ---------------------------------------------------------------- recognisers

  predicate IsP2wshScript(prog: Bytes) {
    var insts := ParseProgram(prog);
    insts.Ok? && |insts.value| == 2 && insts.value[0].op <= OP_16
    && insts.value[1].op == OP_DATA_20 && |insts.value[1].data| == SCRIPT_HASH_SIZE
  }

  function GetHashFromStandardProg(prog: Bytes): Result<Bytes, VmError> {
    var insts :- ParseProgram(prog);
    if insts == [] then Err(Panic) else Ok(insts[|insts| - 1].data)
  }

  /** IsOpDeposit and IsOpWithdraw. */
  predicate IsOpTransfer(op: Byte, prog: Bytes) {
    var insts := ParseProgram(prog);
    insts.Ok? && |insts.value| == 4 && insts.value[0].op <= OP_16 && insts.value[1].op <= OP_16
    && insts.value[2].op == OP_DATA_20 && |insts.value[2].data| == ADDRESS_SIZE && insts.value[3].op == op
  }

  /** GetAddressFromOpDeposit and GetAddressFromOpWithdraw. */
  function GetTransferAddress(prog: Bytes): Result<Bytes, VmError> {
    var insts :- ParseProgram(prog);
    if |insts| <= 2 then Err(Panic) else Ok(insts[2].data)
  }

  /** IsOpCreate, IsOpCall and IsOpContract. */
  predicate IsOpContract(op: Byte, prog: Bytes) {
    var insts := ParseProgram(prog);
    insts.Ok? && |insts.value| == 3 && insts.value[0].op <= OP_16
    && OP_DATA_1 <= insts.value[1].op <= OP_PUSHDATA4 && insts.value[2].op == op
  }

  function ConvertP2shProgram(prog: Bytes): Result<Bytes, VmError> {
    var insts :- ParseProgram(prog);
    if insts == [] || (insts[0].op == OP_0 && |insts| == 1) then Err(Panic)
    else if insts[0].op == OP_0 then Ok(Emit(P2shItems(insts[1].data)))
    else Err(UnknownVersion)
  }

  /** The program that is run to check a control program. */
  function WitnessProgram(prog: Bytes): Bytes {
    var converted := ConvertP2shProgram(prog);
    if IsP2wshScript(prog) && converted.Ok? then converted.value else prog
  }

  lemma LongProgramsDoNotParse(prog: Bytes)
    requires |prog| > MAX_INT32
    ensures ParseProgram(prog).Err? || ParseProgram(prog) == Ok([])
  {
  }

  lemma PushOpcode(d: Bytes)
    ensures PushInst(d).data == d
    ensures PushInst(d).op == OP_DATA_20 <==> |d| == 20
    ensures OP_DATA_1 <= PushInst(d).op <= OP_PUSHDATA4 <==> d != []
  {
    hide LittleEndian;
  }

  lemma PushIntOpcode(n: int)
    requires FitsInt64(n)
    ensures |PushdataInt64(n)| <= 9 && IsInstruction(Chunk(PushdataInt64(n)))
    ensures InstOf(Chunk(PushdataInt64(n))).op <= OP_16
  {
    PushdataInt64Parses(n);
  }

  /** A program of two items, the second of which pushes data, parses exactly when it is not too long. */
  lemma P2wshParses(hash: Bytes)
    ensures var prog := Emit(P2wshItems(hash));
            if |prog| <= MAX_INT32
            then ParseProgram(prog) == Ok([Instruction(OP_0, 1, []), PushInst(hash)])
            else ParseProgram(prog).Err? || ParseProgram(prog) == Ok([])
  {
    hide ParseOp, PushdataBytes, ParseFrom, ParseProgram;
    var items := P2wshItems(hash);
    EmitLength(items, 2);
    if |Emit(items)| <= MAX_INT32 {
      PushIsInstruction(hash);
      ZeroIsInstruction();
      EmittedParses(items);
      assert InstsOf(items) == [Instruction(OP_0, 1, []), PushInst(hash)];
    } else {
      LongProgramsDoNotParse(Emit(items));
    }
  }

  lemma ZeroIsInstruction()
    ensures PushdataInt64(0) == [OP_0] && IsInstruction(Chunk([OP_0]))
            && InstOf(Chunk([OP_0])) == Instruction(OP_0, 1, [])
  {
  }

  /** The pay-to-script-hash recogniser accepts the generated program exactly for hashes of 20 bytes, and the hash is
      read back. */
  lemma P2wshRecognised(hash: Bytes)
    ensures var prog := Emit(P2wshItems(hash));
            && (IsP2wshScript(prog) <==> |hash| == SCRIPT_HASH_SIZE)
            && (|prog| <= MAX_INT32 ==> GetHashFromStandardProg(prog) == Ok(hash))
  {
    hide ParseProgram, PushdataBytes;
    P2wshParses(hash);
    PushOpcode(hash);
    P2wshSize(hash);
  }

  /** A program that commits to a script hash is checked by running the script-hash program for that hash. */
  lemma WitnessOfP2wsh(hash: Bytes)
    requires |hash| == SCRIPT_HASH_SIZE
    ensures WitnessProgram(Emit(P2wshItems(hash))) == Emit(P2shItems(hash))
  {
    hide ParseProgram, Emit, PushdataBytes, IsP2wshScript;
    P2wshParses(hash);
    P2wshRecognised(hash);
    P2wshSize(hash);
  }

  lemma P2wshSize(hash: Bytes)
    ensures |hash| == 20 ==> |Emit(P2wshItems(hash))| == 22
  {
    hide LittleEndian;
    var items := P2wshItems(hash);
    EmitLength(items, 2);
    assert Start(items, 1) == 1;
  }

  lemma TransferParses(op: Byte, vmType: int, address: Bytes)
    requires StandsAlone(op) && op > OP_16 && FitsInt64(vmType)
    ensures var prog := Emit(TransferItems(op, vmType, address));
            IsInstruction(Chunk(PushdataInt64(vmType))) &&
            if |prog| <= MAX_INT32
            then ParseProgram(prog) ==
                 Ok([Instruction(OP_0, 1, []), InstOf(Chunk(PushdataInt64(vmType))), PushInst(address),
                     Instruction(op, 1, [])])
            else ParseProgram(prog).Err? || ParseProgram(prog) == Ok([])
  {
    hide ParseOp, PushdataBytes, PushdataInt64, ParseFrom, ParseProgram;
    var items := TransferItems(op, vmType, address);
    PushIntOpcode(vmType);
    EmitLength(items, 4);
    ZeroIsInstruction();
    if |Emit(items)| <= MAX_INT32 {
      PushIsInstruction(address);
      OpcodeIsInstruction(op);
      EmittedParses(items);
      assert InstsOf(items)[0] == InstOf(items[0]) && InstsOf(items)[1] == InstOf(items[1]);
      assert InstsOf(items) == [Instruction(OP_0, 1, []), InstOf(items[1]), PushInst(address), Instruction(op, 1, [])];
    } else {
      LongProgramsDoNotParse(Emit(items));
    }
  }

  lemma OpcodeIsInstruction(op: Byte)
    requires StandsAlone(op) && op > OP_16
    ensures IsInstruction(Chunk([op])) && InstOf(Chunk([op])) == Instruction(op, 1, [])
  {
  }

  /** The deposit and withdraw recognisers accept the generated programs exactly for addresses of 20 bytes, and the
      address is read back. */
  lemma TransferRecognised(op: Byte, vmType: int, address: Bytes)
    requires (op == OP_DEPOSIT || op == OP_WITHDRAW) && FitsInt64(vmType)
    ensures var prog := Emit(TransferItems(op, vmType, address));
            && (IsOpTransfer(op, prog) <==> |address| == ADDRESS_SIZE)
            && (|prog| <= MAX_INT32 ==> GetTransferAddress(prog) == Ok(address))
  {
    hide ParseProgram, PushdataBytes, PushdataInt64, ParseOp;
    TransferParses(op, vmType, address);
    PushOpcode(address);
    PushIntOpcode(vmType);
    TransferSize(op, vmType, address);
  }

  lemma TransferSize(op: Byte, vmType: int, address: Bytes)
    requires FitsInt64(vmType)
    ensures |address| == 20 ==> |Emit(TransferItems(op, vmType, address))| <= 32
  {
    hide LittleEndian, PushdataInt64;
    PushIntOpcode(vmType);
    var items := TransferItems(op, vmType, address);
    EmitLength(items, 4);
    assert Start(items, 1) == 1;
    assert Start(items, 3) == Start(items, 2) + |PushdataBytes(address)|;
  }

  lemma ContractParses(op: Byte, code: Bytes)
    requires StandsAlone(op) && op > OP_16
    ensures var prog := Emit(ContractItems(op, code));
            if |prog| <= MAX_INT32
            then ParseProgram(prog) == Ok([Instruction(OP_0, 1, []), PushInst(code), Instruction(op, 1, [])])
            else ParseProgram(prog).Err? || ParseProgram(prog) == Ok([])
  {
    hide ParseOp, PushdataBytes, ParseFrom, ParseProgram;
    var items := ContractItems(op, code);
    EmitLength(items, 3);
    ZeroIsInstruction();
    if |Emit(items)| <= MAX_INT32 {
      PushIsInstruction(code);
      OpcodeIsInstruction(op);
      EmittedParses(items);
      assert InstsOf(items) == [Instruction(OP_0, 1, []), PushInst(code), Instruction(op, 1, [])];
    } else {
      LongProgramsDoNotParse(Emit(items));
    }
  }

  /** The create, call and contract recognisers accept the generated programs exactly if there is any code and the
      program is within the size limit. */
  lemma ContractRecognised(op: Byte, code: Bytes)
    requires op == OP_CREATE || op == OP_CALL || op == OP_CONTRACT
    ensures var prog := Emit(ContractItems(op, code));
            IsOpContract(op, prog) <==> code != [] && |prog| <= MAX_INT32
  {
    hide ParseProgram, PushdataBytes, ParseOp;
    ContractParses(op, code);
    PushOpcode(code);
  }
}
