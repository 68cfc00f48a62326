// protocol/vm/types.go: booleans and 64-bit integers as stack items.
module VmTypes {
  import opened Wrappers
  import opened Bytes

  const MIN_INT64: int := -0x8000_0000_0000_0000
  const MAX_INT64: int := 0x7FFF_FFFF_FFFF_FFFF
  const TWO_64: int := 0x1_0000_0000_0000_0000

  datatype VmError =
    | AltStackUnderflow
    | BadValue
    | ContextMissing
    | DataStackUnderflow
    | DisallowedOpcode
    | DivZero
    | FalseResult
    | LongProgram
    | RangeError
    | ReturnExecuted
    | RunLimitExceeded
    | ShortProgram
    | Overflow
    | UnsupportedVm
    | VerifyFailed
    | UnknownVersion
    | External
    | Panic

  predicate FitsInt64(n: int) {
    MIN_INT64 <= n <= MAX_INT64
  }

  // -------------------------------------------------------------------- booleans

  function BoolBytes(b: bool): Bytes {
    if b then [1] else []
  }

  predicate AsBool(b: Bytes) {
    exists i :: 0 <= i < |b| && b[i] != 0
  }

  method ComputeAsBool(b: Bytes) returns (r: bool)
    ensures r == AsBool(b)
  {
    for i := 0 to |b|
      invariant forall k :: 0 <= k < i ==> b[k] == 0
    {
      if b[i] != 0 {
        return true;
      }
    }
    return false;
  }

  lemma BoolRoundTrip(b: bool)
    ensures AsBool(BoolBytes(b)) == b
  {
    if b {
      assert BoolBytes(b)[0] != 0;
    }
  }

  // -------------------------------------------------------------------- integers

  /** Drops the most significant zero bytes of a little-endian number. */
  function Trim(b: Bytes): (r: Bytes)
    ensures |r| <= |b| && r == b[..|r|]
    ensures r != [] ==> r[|r| - 1] != 0
  {
    if b != [] && b[|b| - 1] == 0 then Trim(b[..|b| - 1]) else b
  }

  function Int64Bytes(n: int): (r: Bytes)
    ensures |r| <= 8
  {
    Trim(LittleEndian(n % TWO_64, 8))
  }

  function Signed(u: nat): int {
    if u <= MAX_INT64 then u else u - TWO_64
  }

  function AsInt64(b: Bytes): Result<int, VmError> {
    if |b| > 8 then Err(BadValue) else Ok(Signed(FromLittleEndian(b)))
  }

  method ComputeInt64Bytes(n: int) returns (r: Bytes)
    ensures r == Int64Bytes(n)
  {
    if n == 0 {
      ZeroTrims(8);
      return [];
    }
    r := LittleEndian(n % TWO_64, 8);
    while |r| > 0 && r[|r| - 1] == 0
      invariant Trim(r) == Int64Bytes(n)
    {
      r := r[..|r| - 1];
    }
  }

  lemma {:induction false} ZeroTrims(k: nat)
    ensures Trim(LittleEndian(0, k)) == []
  {
    if k > 0 {
      LittleEndianZero(k);
      LittleEndianZero(k - 1);
      assert LittleEndian(0, k)[..k - 1] == LittleEndian(0, k - 1);
      ZeroTrims(k - 1);
    }
  }

  lemma {:induction false} TrimZeros(n: Byte, k: nat)
    requires n != 0
    ensures Trim([n] + LittleEndian(0, k)) == [n]
  {
    var b := [n] + LittleEndian(0, k);
    if k > 0 {
      LittleEndianZero(k);
      LittleEndianZero(k - 1);
      assert b[..k] == [n] + LittleEndian(0, k - 1);
      TrimZeros(n, k - 1);
    }
  }

  lemma SmallIntBytes(n: int)
    requires 0 < n < 256
    ensures Int64Bytes(n) == [n]
  {
    TrimZeros(n, 7);
  }

  lemma {:induction false} LittleEndianZero(k: nat)
    ensures forall i :: 0 <= i < k ==> LittleEndian(0, k)[i] == 0
  {
    if k > 0 {
      LittleEndianZero(k - 1);
    }
  }

  lemma {:induction false} TrailingZero(b: Bytes)
    ensures FromLittleEndian(b + [0]) == FromLittleEndian(b)
  {
    if b == [] {
      assert FromLittleEndian([0]) == 0;
    } else {
      TrailingZero(b[1..]);
      assert (b + [0])[1..] == b[1..] + [0];
    }
  }

  lemma {:induction false} TrimKeepsValue(b: Bytes)
    ensures FromLittleEndian(Trim(b)) == FromLittleEndian(b)
  {
    if b != [] && b[|b| - 1] == 0 {
      TrailingZero(b[..|b| - 1]);
      assert b == b[..|b| - 1] + [0];
      TrimKeepsValue(b[..|b| - 1]);
    }
  }

  lemma Power8()
    ensures Power(8) == TWO_64
  {
    assert Power(2) == 65536 && Power(4) == 65536 * 65536;
    assert Power(6) == 65536 * Power(4);
  }

  /** Every 64-bit integer pushed on the stack is read back unchanged. */
  lemma Int64RoundTrip(n: int)
    requires FitsInt64(n)
    ensures AsInt64(Int64Bytes(n)) == Ok(n)
  {
    Power8();
    LittleEndianRoundTrip(n % TWO_64, 8);
    TrimKeepsValue(LittleEndian(n % TWO_64, 8));
    assert n % TWO_64 == if n >= 0 then n else n + TWO_64;
  }

  /** Whatever is read as an integer is a 64-bit one. */
  lemma AsInt64InRange(b: Bytes)
    ensures |b| <= 8 ==> AsInt64(b).Ok? && FitsInt64(AsInt64(b).value)
    ensures |b| > 8 ==> AsInt64(b) == Err(BadValue)
  {
    if |b| <= 8 {
      Power8();
      FromLittleEndianBound(b);
      PowerMonotone(|b|, 8);
    }
  }

  lemma {:induction false} PowerMonotone(j: nat, k: nat)
    requires j <= k
    ensures Power(j) <= Power(k)
  {
    if j < k {
      PowerMonotone(j, k - 1);
    }
  }
}
