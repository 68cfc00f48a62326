// protocol/vm/ops.go: opcodes and the parsing of programs into instructions.
module Ops {
  import opened Wrappers
  import opened Bytes
  import opened VmTypes

  const MAX_INT32: nat := 0x7FFF_FFFF
  const TWO_32: nat := 0x1_0000_0000

  const OP_0: Byte := 0x00
  const OP_DATA_1: Byte := 0x01
  const OP_DATA_20: Byte := 0x14
  const OP_DATA_75: Byte := 0x4b
  const OP_PUSHDATA1: Byte := 0x4c
  const OP_PUSHDATA2: Byte := 0x4d
  const OP_PUSHDATA4: Byte := 0x4e
  const OP_1NEGATE: Byte := 0x4f
  const OP_1: Byte := 0x51
  const OP_16: Byte := 0x60
  const OP_NOP: Byte := 0x61
  const OP_JUMP: Byte := 0x63
  const OP_JUMPIF: Byte := 0x64
  const OP_VERIFY: Byte := 0x69
  const OP_FAIL: Byte := 0x6a
  const OP_TOALTSTACK: Byte := 0x6b
  const OP_FROMALTSTACK: Byte := 0x6c
  const OP_2DROP: Byte := 0x6d
  const OP_2DUP: Byte := 0x6e
  const OP_3DUP: Byte := 0x6f
  const OP_2OVER: Byte := 0x70
  const OP_2ROT: Byte := 0x71
  const OP_2SWAP: Byte := 0x72
  const OP_IFDUP: Byte := 0x73
  const OP_DEPTH: Byte := 0x74
  const OP_DROP: Byte := 0x75
  const OP_DUP: Byte := 0x76
  const OP_NIP: Byte := 0x77
  const OP_OVER: Byte := 0x78
  const OP_PICK: Byte := 0x79
  const OP_ROLL: Byte := 0x7a
  const OP_ROT: Byte := 0x7b
  const OP_SWAP: Byte := 0x7c
  const OP_TUCK: Byte := 0x7d
  const OP_CAT: Byte := 0x7e
  const OP_SUBSTR: Byte := 0x7f
  const OP_LEFT: Byte := 0x80
  const OP_RIGHT: Byte := 0x81
  const OP_SIZE: Byte := 0x82
  const OP_INVERT: Byte := 0x83
  const OP_AND: Byte := 0x84
  const OP_OR: Byte := 0x85
  const OP_XOR: Byte := 0x86
  const OP_EQUAL: Byte := 0x87
  const OP_EQUALVERIFY: Byte := 0x88
  const OP_CATPUSHDATA: Byte := 0x89
  const OP_1ADD: Byte := 0x8b
  const OP_1SUB: Byte := 0x8c
  const OP_2MUL: Byte := 0x8d
  const OP_2DIV: Byte := 0x8e
  const OP_NEGATE: Byte := 0x8f
  const OP_ABS: Byte := 0x90
  const OP_NOT: Byte := 0x91
  const OP_0NOTEQUAL: Byte := 0x92
  const OP_ADD: Byte := 0x93
  const OP_SUB: Byte := 0x94
  const OP_MUL: Byte := 0x95
  const OP_DIV: Byte := 0x96
  const OP_MOD: Byte := 0x97
  const OP_LSHIFT: Byte := 0x98
  const OP_RSHIFT: Byte := 0x99
  const OP_BOOLAND: Byte := 0x9a
  const OP_BOOLOR: Byte := 0x9b
  const OP_NUMEQUAL: Byte := 0x9c
  const OP_NUMEQUALVERIFY: Byte := 0x9d
  const OP_NUMNOTEQUAL: Byte := 0x9e
  const OP_LESSTHAN: Byte := 0x9f
  const OP_GREATERTHAN: Byte := 0xa0
  const OP_LESSTHANOREQUAL: Byte := 0xa1
  const OP_GREATERTHANOREQUAL: Byte := 0xa2
  const OP_MIN: Byte := 0xa3
  const OP_MAX: Byte := 0xa4
  const OP_WITHIN: Byte := 0xa5
  const OP_SHA256: Byte := 0xa8
  const OP_SHA3: Byte := 0xaa
  const OP_HASH160: Byte := 0xab
  const OP_CHECKSIG: Byte := 0xac
  const OP_CHECKMULTISIG: Byte := 0xad
  const OP_TXSIGHASH: Byte := 0xae
  const OP_CHECKPREDICATE: Byte := 0xc0
  const OP_CHECKOUTPUT: Byte := 0xc1
  const OP_ASSET: Byte := 0xc2
  const OP_AMOUNT: Byte := 0xc3
  const OP_PROGRAM: Byte := 0xc4
  const OP_TXDATA: Byte := 0xc7
  const OP_ENTRYDATA: Byte := 0xc8
  const OP_INDEX: Byte := 0xc9
  const OP_ENTRYID: Byte := 0xca
  const OP_OUTPUTID: Byte := 0xcb
  const OP_BLOCKHEIGHT: Byte := 0xcd
  const OP_CREATE: Byte := 0xe1
  const OP_CALL: Byte := 0xe2
  const OP_CONTRACT: Byte := 0xe3
  const OP_DEPOSIT: Byte := 0xe4
  const OP_WITHDRAW: Byte := 0xe5

  datatype Instruction = Instruction(op: Byte, len: nat, data: Bytes)

  /** Opcodes without an assigned meaning. */
  predicate IsExpansion(op: Byte) {
    || op == 0x50 || op == 0x62 || 0x65 <= op <= 0x68 || op == 0x8a || 0xa6 <= op <= 0xa7 || op == 0xa9
    || 0xaf <= op <= 0xbf || 0xc5 <= op <= 0xc6 || op == 0xcc || 0xce <= op <= 0xe0 || op >= 0xe6
  }

  predicate IsJump(op: Byte) {
    op == OP_JUMP || op == OP_JUMPIF
  }

  /** Opcodes that all push the data parsed with them. */
  predicate PushesData(op: Byte) {
    OP_DATA_1 <= op <= OP_PUSHDATA4 || OP_1 <= op <= OP_16
  }

  /** Opcodes that stand alone: no data bytes follow them. */
  predicate StandsAlone(op: Byte) {
    !(OP_DATA_1 <= op <= OP_PUSHDATA4) && !IsJump(op)
  }

  // --------------------------------------------------------------------- parsing

  /** The instruction at pc with `header` bytes before its n data bytes. */
  function WithData(prog: Bytes, pc: nat, header: nat, n: nat): (r: Result<Instruction, VmError>)
    requires pc < |prog| && header > 0
    ensures r.Ok? ==> 0 < r.value.len <= |prog| - pc && r.value.op == prog[pc]
    ensures r.Ok? ==> r.value.len == header + n && |r.value.data| == n
  {
    if pc + header + n >= TWO_32 then Err(Overflow)
    else if pc + header + n > |prog| then Err(ShortProgram)
    else Ok(Instruction(prog[pc], header + n, prog[pc + header..pc + header + n]))
  }

  function ParseOp(prog: Bytes, pc: nat): (r: Result<Instruction, VmError>)
    ensures r.Ok? ==> |prog| <= MAX_INT32 && 0 < r.value.len <= |prog| - pc && r.value.op == prog[pc]
  {
    if |prog| > MAX_INT32 then
      Err(LongProgram)
    else if pc >= |prog| then
      Err(ShortProgram)
    else
      var op := prog[pc];
      if OP_1 <= op <= OP_16 then
        Ok(Instruction(op, 1, [op - OP_1 + 1]))
      else if OP_DATA_1 <= op <= OP_DATA_75 then
        WithData(prog, pc, 1, op)
      else if op == OP_PUSHDATA1 then
        if pc + 2 > |prog| then Err(ShortProgram) else WithData(prog, pc, 2, prog[pc + 1])
      else if op == OP_PUSHDATA2 then
        if pc + 3 > |prog| then Err(ShortProgram) else WithData(prog, pc, 3, FromLittleEndian(prog[pc + 1..pc + 3]))
      else if op == OP_PUSHDATA4 then
        if pc + 5 > |prog| then Err(ShortProgram) else WithData(prog, pc, 5, FromLittleEndian(prog[pc + 1..pc + 5]))
      else if IsJump(op) then
        WithData(prog, pc, 1, 4)
      else
        Ok(Instruction(op, 1, []))
  }

  /** The instructions from pc on; lengths are taken modulo 2^32, as the loop's bound is. */
  function ParseFrom(prog: Bytes, pc: nat): Result<seq<Instruction>, VmError>
    decreases |prog| - pc
  {
    if pc >= |prog| % TWO_32 then
      Ok([])
    else
      var inst :- ParseOp(prog, pc);
      Prepend([inst], ParseFrom(prog, pc + inst.len))
  }

  function ParseProgram(prog: Bytes): Result<seq<Instruction>, VmError> {
    ParseFrom(prog, 0)
  }

  function Prepend(insts: seq<Instruction>, r: Result<seq<Instruction>, VmError>): Result<seq<Instruction>, VmError> {
    if r.Ok? then Ok(insts + r.value) else r
  }

  lemma PrependOne(insts: seq<Instruction>, inst: Instruction, r: Result<seq<Instruction>, VmError>)
    ensures Prepend(insts, Prepend([inst], r)) == Prepend(insts + [inst], r)
  {
    if r.Ok? {
      assert insts + ([inst] + r.value) == insts + [inst] + r.value;
    }
  }

  lemma PrependNone(r: Result<seq<Instruction>, VmError>)
    ensures Prepend([], r) == r
  {
    if r.Ok? {
      assert [] + r.value == r.value;
    }
  }

  method ComputeParseProgram(prog: Bytes) returns (r: Result<seq<Instruction>, VmError>)
    ensures r == ParseProgram(prog)
  {
    hide ParseOp;
    var result, pc := [], 0;
    PrependNone(ParseProgram(prog));
    while pc < |prog| % TWO_32
      invariant Prepend(result, ParseFrom(prog, pc)) == ParseProgram(prog)
      decreases |prog| - pc
    {
      var inst := ParseOp(prog, pc);
      if inst.Err? {
        return Err(inst.error);
      }
      PrependOne(result, inst.value, ParseFrom(prog, pc + inst.value.len));
      result := result + [inst.value];
      pc := pc + inst.value.len;
    }
    assert result + [] == result;
    return Ok(result);
  }

  // ------------------------------------------------------- layout of instructions

  /** Where the i-th instruction starts. */
  function Offset(insts: seq<Instruction>, i: nat): nat
    requires i <= |insts|
  {
    if i == 0 then 0 else Offset(insts, i - 1) + insts[i - 1].len
  }

  /** The i-th instruction is found at its offset. */
  predicate Placed(prog: Bytes, insts: seq<Instruction>, i: nat)
    requires i < |insts|
  {
    ParseOp(prog, Offset(insts, i)) == Ok(insts[i])
  }

  /** prog consists of exactly these instructions. */
  ghost predicate LaidOut(prog: Bytes, insts: seq<Instruction>) {
    && |prog| <= MAX_INT32
    && Offset(insts, |insts|) == |prog|
    && forall i :: 0 <= i < |insts| ==> Placed(prog, insts, i)
  }

  lemma {:induction false} OffsetMonotone(insts: seq<Instruction>, i: nat, j: nat)
    requires i <= j <= |insts|
    ensures Offset(insts, i) <= Offset(insts, j)
  {
    if i < j {
      OffsetMonotone(insts, i, j - 1);
    }
  }

  lemma {:induction false} ParsedFrom(prog: Bytes, insts: seq<Instruction>, i: nat)
    requires LaidOut(prog, insts) && i <= |insts|
    ensures ParseFrom(prog, Offset(insts, i)) == Ok(insts[i..])
    decreases |insts| - i
  {
    hide ParseOp;
    var pc := Offset(insts, i);
    if i < |insts| {
      OffsetMonotone(insts, i + 1, |insts|);
      ParsedFrom(prog, insts, i + 1);
      assert Placed(prog, insts, i);
      assert ParseOp(prog, pc) == Ok(insts[i]) && pc + insts[i].len == Offset(insts, i + 1);
      assert insts[i..] == [insts[i]] + insts[i + 1..];
    } else {
      assert pc == |prog| == |prog| % TWO_32 && insts[i..] == [];
    }
  }

  lemma {:induction false} ParsedUpTo(prog: Bytes, insts: seq<Instruction>, i: nat)
    requires |prog| <= MAX_INT32 && ParseProgram(prog) == Ok(insts) && i <= |insts|
    ensures Offset(insts, i) <= |prog| && ParseFrom(prog, Offset(insts, i)) == Ok(insts[i..])
    ensures forall k :: 0 <= k < i ==> Placed(prog, insts, k)
  {
    hide ParseOp;
    if i > 0 {
      ParsedUpTo(prog, insts, i - 1);
      NextParsed(prog, Offset(insts, i - 1), insts[i - 1..]);
      assert insts[i - 1..][1..] == insts[i..];
    } else {
      assert insts[0..] == insts;
    }
  }

  lemma NextParsed(prog: Bytes, pc: nat, insts: seq<Instruction>)
    requires |prog| <= MAX_INT32 && pc <= |prog| && ParseFrom(prog, pc) == Ok(insts) && insts != []
    ensures ParseOp(prog, pc) == Ok(insts[0]) && pc + insts[0].len <= |prog|
    ensures ParseFrom(prog, pc + insts[0].len) == Ok(insts[1..])
  {
    hide ParseOp;
    var rest := ParseFrom(prog, pc + ParseOp(prog, pc).value.len);
    assert insts == [ParseOp(prog, pc).value] + rest.value;
  }

  /** For programs within the size limit, ParseProgram succeeds with exactly the instructions laid out. */
  lemma ParseProgramExactly(prog: Bytes, insts: seq<Instruction>)
    requires |prog| <= MAX_INT32
    ensures ParseProgram(prog) == Ok(insts) <==> LaidOut(prog, insts)
  {
    hide ParseOp;
    if LaidOut(prog, insts) {
      ParsedFrom(prog, insts, 0);
      assert insts[0..] == insts;
    }
    if ParseProgram(prog) == Ok(insts) {
      ParsedUpTo(prog, insts, |insts|);
      assert insts[|insts|..] == [];
      NothingParsed(prog, Offset(insts, |insts|));
    }
  }

  lemma NothingParsed(prog: Bytes, pc: nat)
    requires |prog| <= MAX_INT32 && pc <= |prog| && ParseFrom(prog, pc) == Ok([])
    ensures pc == |prog|
  {
    hide ParseOp;
  }

  // ------------------------------------------------------------ text of instructions

  /** How many bytes give the length of the data. */
  function LengthBytes(op: Byte): nat {
    if op == OP_PUSHDATA1 then 1 else if op == OP_PUSHDATA2 then 2 else if op == OP_PUSHDATA4 then 4 else 0
  }

  /** Instructions that exist: the opcode and the data belong together. */
  predicate Exists(inst: Instruction) {
    if OP_1 <= inst.op <= OP_16 then inst.data == [inst.op - OP_1 + 1] && inst.len == 1
    else
      && inst.len == 1 + LengthBytes(inst.op) + |inst.data|
      && if OP_DATA_1 <= inst.op <= OP_DATA_75 then |inst.data| == inst.op
         else if LengthBytes(inst.op) > 0 then |inst.data| < Power(LengthBytes(inst.op))
         else |inst.data| == if IsJump(inst.op) then 4 else 0
  }

  /** The opcode, the length where it is written, the data. */
  function InstText(inst: Instruction): Bytes {
    if OP_1 <= inst.op <= OP_16 then [inst.op]
    else [inst.op] + LittleEndian(|inst.data|, LengthBytes(inst.op)) + inst.data
  }

  lemma WithDataExactly(prog: Bytes, pc: nat, w: nat, inst: Instruction)
    requires |prog| <= MAX_INT32 && pc + 1 + w <= |prog| && LengthBytes(inst.op) == w && !(OP_1 <= inst.op <= OP_16)
    requires inst.len == 1 + w + |inst.data| && |inst.data| < Power(w) + 75
    requires prog[pc] == inst.op && prog[pc + 1..pc + 1 + w] == LittleEndian(|inst.data|, w)
    ensures WithData(prog, pc, 1 + w, |inst.data|) == Ok(inst) <==>
            pc + inst.len <= |prog| && prog[pc..pc + inst.len] == InstText(inst)
  {
    hide LittleEndian, Power;
    if pc + inst.len <= |prog| {
      ThreeParts(prog, pc, pc + 1, pc + 1 + w, pc + inst.len);
      assert prog[pc..pc + 1] == [inst.op];
      SameTail([inst.op] + LittleEndian(|inst.data|, w), prog[pc + 1 + w..pc + inst.len], inst.data);
    }
  }

  lemma ThreeParts(s: Bytes, i: nat, j: nat, k: nat, l: nat)
    requires i <= j <= k <= l <= |s|
    ensures s[i..l] == s[i..j] + s[j..k] + s[k..l]
  {
  }

  lemma SameTail(a: Bytes, b: Bytes, c: Bytes)
    ensures a + b == a + c <==> b == c
  {
    if a + b == a + c {
      assert (a + b)[|a|..] == b && (a + c)[|a|..] == c;
    }
  }

  lemma TextParts(prog: Bytes, pc: nat, inst: Instruction)
    requires pc + inst.len <= |prog| && prog[pc..pc + inst.len] == InstText(inst) && !(OP_1 <= inst.op <= OP_16)
    requires inst.len == 1 + LengthBytes(inst.op) + |inst.data|
    ensures prog[pc] == inst.op
    ensures prog[pc + 1..pc + 1 + LengthBytes(inst.op)] == LittleEndian(|inst.data|, LengthBytes(inst.op))
  {
    var w := LengthBytes(inst.op);
    assert prog[pc] == prog[pc..pc + inst.len][0];
    SliceOfSlice(prog, pc, inst.len, 1, 1 + w);
    assert InstText(inst)[1..1 + w] == LittleEndian(|inst.data|, w);
  }

  lemma TextParses(prog: Bytes, pc: nat, inst: Instruction)
    requires |prog| <= MAX_INT32 && Exists(inst) && pc + inst.len <= |prog|
    requires prog[pc..pc + inst.len] == InstText(inst)
    ensures ParseOp(prog, pc) == Ok(inst)
  {
    hide WithData, InstText, FromLittleEndian, LittleEndian;
    if OP_1 <= inst.op <= OP_16 {
      OneByteText(prog, pc, inst);
    } else {
      var w := LengthBytes(inst.op);
      TextParts(prog, pc, inst);
      WithDataExactly(prog, pc, w, inst);
      if w > 0 {
        LittleEndianRoundTrip(|inst.data|, w);
        OneByteNumber(prog, pc + 1);
      }
    }
  }

  lemma OneByteText(prog: Bytes, pc: nat, inst: Instruction)
    requires pc + 1 <= |prog| && OP_1 <= inst.op <= OP_16
    ensures prog[pc..pc + 1] == InstText(inst) <==> prog[pc] == inst.op
  {
    assert prog[pc..pc + 1] == [prog[pc]];
  }

  lemma OneByteNumber(prog: Bytes, i: nat)
    requires i < |prog|
    ensures FromLittleEndian(prog[i..i + 1]) == prog[i]
  {
    assert prog[i..i + 1] == [prog[i]];
    assert prog[i..i + 1][1..] == [];
  }

  lemma ParsedText(prog: Bytes, pc: nat)
    requires ParseOp(prog, pc).Ok?
    ensures var inst := ParseOp(prog, pc).value; Exists(inst) && prog[pc..pc + inst.len] == InstText(inst)
  {
    hide InstText, FromLittleEndian, LittleEndian, Power, WithData;
    var inst := ParseOp(prog, pc).value;
    if OP_1 <= inst.op <= OP_16 {
      OneByteText(prog, pc, inst);
    } else {
      var w := LengthBytes(inst.op);
      if w > 0 {
        BytesRoundTrip(prog[pc + 1..pc + 1 + w]);
        FromLittleEndianBound(prog[pc + 1..pc + 1 + w]);
        OneByteNumber(prog, pc + 1);
      }
      NoLength();
      if StandsAlone(inst.op) {
        AloneText(prog, pc, inst);
      } else {
        WithDataExactly(prog, pc, w, inst);
      }
    }
  }

  lemma AloneText(prog: Bytes, pc: nat, inst: Instruction)
    requires pc < |prog| && prog[pc] == inst.op && inst.data == [] && LengthBytes(inst.op) == 0
    ensures prog[pc..pc + 1] == InstText(inst)
  {
  }

  lemma NoLength()
    ensures Power(0) == 1 && Power(1) == 256
    ensures forall n: nat :: LittleEndian(n, 0) == []
  {
  }

  /** ParseOp returns an instruction exactly if it exists and the program has its bytes at pc. */
  lemma ParseOpExactly(prog: Bytes, pc: nat, inst: Instruction)
    ensures ParseOp(prog, pc) == Ok(inst) <==>
            && |prog| <= MAX_INT32 && Exists(inst) && pc + inst.len <= |prog|
            && prog[pc..pc + inst.len] == InstText(inst)
  {
    hide InstText, Exists, ParseOp;
    if ParseOp(prog, pc) == Ok(inst) {
      ParsedText(prog, pc);
    }
    if |prog| <= MAX_INT32 && Exists(inst) && pc + inst.len <= |prog| && prog[pc..pc + inst.len] == InstText(inst) {
      TextParses(prog, pc, inst);
    }
  }

  /** Within the size limit, the instructions of a program determine its bytes. */
  lemma {:induction false} SameInstsSamePrefix(prog: Bytes, prog': Bytes, insts: seq<Instruction>, n: nat)
    requires LaidOut(prog, insts) && LaidOut(prog', insts) && n <= |insts|
    ensures Offset(insts, n) <= |prog| && prog[..Offset(insts, n)] == prog'[..Offset(insts, n)]
  {
    hide ParseOp, InstText, Exists;
    OffsetMonotone(insts, n, |insts|);
    if n > 0 {
      var a, b := Offset(insts, n - 1), Offset(insts, n);
      SameInstsSamePrefix(prog, prog', insts, n - 1);
      assert Placed(prog, insts, n - 1) && Placed(prog', insts, n - 1);
      ParseOpExactly(prog, a, insts[n - 1]);
      ParseOpExactly(prog', a, insts[n - 1]);
      assert prog[..b] == prog[..a] + prog[a..b];
      assert prog'[..b] == prog'[..a] + prog'[a..b];
    }
  }

  lemma SameInstsSameProgram(prog: Bytes, prog': Bytes, insts: seq<Instruction>)
    requires LaidOut(prog, insts) && LaidOut(prog', insts)
    ensures prog == prog'
  {
    SameInstsSamePrefix(prog, prog', insts, |insts|);
    assert prog[..|prog|] == prog && prog'[..|prog'|] == prog';
  }

  // ------------------------------------------------------------------- locality

  /** b is the whole text of one instruction. */
  predicate Encodes(b: Bytes, inst: Instruction) {
    ParseOp(b, 0) == Ok(inst) && inst.len == |b|
  }

  lemma SliceOfSlice(s: Bytes, pc: nat, n: nat, i: nat, j: nat)
    requires i <= j <= n && pc + n <= |s|
    ensures s[pc..pc + n][i..j] == s[pc + i..pc + j]
  {
    var a, b := s[pc..pc + n][i..j], s[pc + i..pc + j];
    forall k | 0 <= k < j - i
      ensures a[k] == b[k]
    {
      assert a[k] == s[pc..pc + n][i + k];
    }
  }

  /** An instruction parses the same wherever it stands. */
  lemma ParseAnywhere(prog: Bytes, pc: nat, b: Bytes, inst: Instruction)
    requires |prog| <= MAX_INT32 && pc + |b| <= |prog|
    requires prog[pc..pc + |b|] == b && Encodes(b, inst)
    ensures ParseOp(prog, pc) == Ok(inst)
  {
    hide ParseOp, Exists, InstText;
    ParseOpExactly(b, 0, inst);
    ParseOpExactly(prog, pc, inst);
    assert b[0..|b|] == b;
  }
}
