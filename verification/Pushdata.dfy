// protocol/vm/pushdata.go: the shortest instruction that pushes given data.
module Pushdata {
  import opened Wrappers
  import opened Bytes
  import opened VmTypes
  import opened Ops

  /** Lengths of 2^32 and more wrap in the four length bytes. */
  function PushdataBytes(d: Bytes): (r: Bytes)
    ensures r != []
  {
    var l := |d|;
    if l == 0 then [OP_0]
    else if l <= 75 then [l] + d
    else if l < 0x100 then [OP_PUSHDATA1, l] + d
    else if l < 0x1_0000 then [OP_PUSHDATA2] + LittleEndian(l, 2) + d
    else [OP_PUSHDATA4] + LittleEndian(l % TWO_32, 4) + d
  }

  function PushdataInt64(n: int): (r: Bytes)
    ensures r != []
  {
    if n == 0 then [OP_0]
    else if 1 <= n <= 16 then [OP_1 + n - 1]
    else PushdataBytes(Int64Bytes(n))
  }

  /** The instruction that PushdataBytes writes. */
  function PushInst(d: Bytes): Instruction {
    Instruction(PushdataBytes(d)[0], |PushdataBytes(d)|, d)
  }

  lemma Powers()
    ensures Power(1) == 0x100 && Power(2) == 0x1_0000 && Power(4) == TWO_32
  {
  }

  lemma PushdataParses(d: Bytes)
    requires |PushdataBytes(d)| <= MAX_INT32
    ensures Encodes(PushdataBytes(d), PushInst(d))
  {
    hide LittleEndian, FromLittleEndian, Power;
    if |d| <= 75 {
      ShortParses(d);
    } else {
      LongParses(d);
    }
  }

  lemma ShortParses(d: Bytes)
    requires |d| <= 75
    ensures Encodes(PushdataBytes(d), PushInst(d))
  {
    hide LittleEndian, FromLittleEndian, Power;
    assert d != [] ==> PushdataBytes(d)[1..1 + |d|] == d;
  }

  /** The length of long data reads back from its bytes. */
  lemma LongParses(d: Bytes)
    requires 75 < |d| && |PushdataBytes(d)| <= MAX_INT32
    ensures Encodes(PushdataBytes(d), PushInst(d))
  {
    hide LittleEndian, FromLittleEndian, Power;
    var b, l := PushdataBytes(d), |d|;
    Powers();
    if l < 0x100 {
      assert b[2..2 + l] == d;
    } else if l < 0x1_0000 {
      HeaderReads([OP_PUSHDATA2], LittleEndian(l, 2), d);
      LittleEndianRoundTrip(l, 2);
    } else {
      HeaderReads([OP_PUSHDATA4], LittleEndian(l, 4), d);
      LittleEndianRoundTrip(l, 4);
    }
  }

  lemma HeaderReads(op: Bytes, size: Bytes, d: Bytes)
    ensures var b, n := op + size + d, |op| + |size|; b[|op|..n] == size && b[n..n + |d|] == d && |b| == n + |d|
  {
  }

  /** No other push with a length is shorter. */
  lemma ShortestPush(prog: Bytes, pc: nat)
    requires ParseOp(prog, pc).Ok? && prog[pc] <= OP_PUSHDATA4
    ensures |PushdataBytes(ParseOp(prog, pc).value.data)| <= ParseOp(prog, pc).value.len
  {
    Powers();
    var op, data := prog[pc], ParseOp(prog, pc).value.data;
    if op == OP_PUSHDATA2 {
      FromLittleEndianBound(prog[pc + 1..pc + 3]);
    } else if op == OP_PUSHDATA4 {
      FromLittleEndianBound(prog[pc + 1..pc + 5]);
    }
    PushSize(data);
  }

  lemma PushSize(d: Bytes)
    ensures |PushdataBytes(d)| ==
            |d| + if |d| <= 75 then 1 else if |d| < 0x100 then 2 else if |d| < 0x1_0000 then 3 else 5
  {
  }

  /** Pushing an integer writes one instruction that pushes data, or FALSE, whose data reads back as the integer. */
  lemma PushdataInt64Parses(n: int)
    requires FitsInt64(n)
    ensures var r := ParseOp(PushdataInt64(n), 0);
            && r.Ok? && r.value.len == |PushdataInt64(n)| <= 9
            && r.value.op == PushdataInt64(n)[0] <= OP_16 && r.value.data == Int64Bytes(n)
            && AsInt64(r.value.data) == Ok(n)
  {
    Int64RoundTrip(n);
    if 1 <= n <= 16 {
      SmallIntBytes(n);
    } else if n != 0 {
      PushdataParses(Int64Bytes(n));
    } else {
      ZeroTrims(8);
    }
  }
}
