// consensus/difficulty/difficulty.go: compact targets, work and retargeting.
// A compact target holds an exponent in its top byte, a sign in bit 55 and a
// mantissa below it; big.Int becomes int and bit operations become arithmetic.
module Difficulty {

  const TWO_55 := 0x80_0000_0000_0000
  const TWO_56 := 0x100_0000_0000_0000
  const TWO_63 := 0x8000_0000_0000_0000
  const TWO_64 := 0x1_0000_0000_0000_0000
  const TWO_256 := 0x1_0000_0000_0000_0000_0000_0000_0000_0000_0000_0000_0000_0000_0000_0000_0000_0000

  const BLOCKS_PER_RETARGET := 11
  const TARGET_SECONDS_PER_BLOCK := 13

  function Pow256(k: nat): (p: nat)
    ensures p > 0
  {
    if k == 0 then 1 else 256 * Pow256(k - 1)
  }

  // ------------------------------------------------------ products and quotients

  lemma MulLe(a: nat, b: nat, p: nat)
    requires a <= b
    ensures a * p <= b * p
  {
  }

  lemma MulDivBounds(n: nat, p: nat)
    requires p > 0
    ensures n / p >= 0 && n / p * p <= n < n / p * p + p
  {
  }

  lemma MulCancelLt(a: nat, b: nat, p: nat)
    requires a * p < b * p
    ensures a < b
  {
    if b <= a {
      MulLe(b, a, p);
    }
  }

  lemma DivRange(n: nat, p: nat, lo: nat, hi: nat)
    requires p > 0 && lo * p <= n < hi * p
    ensures lo <= n / p < hi
  {
    MulDivBounds(n, p);
    var q := n / p;
    MulCancelLt(q, hi, p);
    assert (q + 1) * p == q * p + p;
    MulCancelLt(lo, q + 1, p);
  }

  lemma MulDivCancel(m: nat, p: nat)
    requires p > 0
    ensures m * p / p == m
  {
    assert (m + 1) * p == m * p + p;
    DivRange(m * p, p, m, m + 1);
  }

  lemma DivMonotone(m: nat, n: nat, p: nat)
    requires p > 0 && m <= n
    ensures 0 <= m / p <= n / p
  {
    MulDivBounds(m, p);
    MulDivBounds(n, p);
    var q, r := m / p, n / p;
    assert (r + 1) * p == r * p + p;
    MulCancelLt(q, r + 1, p);
  }

  function Abs(n: int): nat {
    if n < 0 then -n else n
  }

  /** The number of bytes of the big-endian representation. */
  function ByteLen(n: nat): nat {
    if n == 0 then 0 else 1 + ByteLen(n / 256)
  }

  function CompactToBig(compact: nat): int {
    var mantissa := compact % TWO_55;
    var negative := (compact / TWO_55) % 2 == 1;
    var exponent := compact / TWO_56;
    var n := if exponent <= 3 then mantissa / Pow256(3 - exponent) else mantissa * Pow256(exponent - 3);
    if negative then -n else n
  }

  function BigToCompact(n: int): nat {
    if n == 0 then 0
    else
      var exponent := ByteLen(Abs(n));
      var mantissa := if exponent <= 3 then Abs(n) * Pow256(3 - exponent) else Abs(n / Pow256(exponent - 3));
      var overflow := (mantissa / TWO_55) % 2 == 1;
      var exponent' := if overflow then exponent + 1 else exponent;
      var mantissa' := if overflow then mantissa / 256 else mantissa;
      (exponent' % 256) * TWO_56 + mantissa' + (if n < 0 then TWO_55 else 0)
  }

  function CalcWork(bits: nat): (work: nat) {
    var target := CompactToBig(bits);
    if target <= 0 then 0 else TWO_256 / (target + 1)
  }

  /** The number of hashes expected to find one at most at the target: 2^256 over the target and one, rounded down. */
  lemma WorkExactly(bits: nat)
    ensures CompactToBig(bits) <= 0 ==> CalcWork(bits) == 0
    ensures CompactToBig(bits) > 0 ==>
              var n := CompactToBig(bits) + 1; CalcWork(bits) * n <= TWO_256 < CalcWork(bits) * n + n
  {
    hide CompactToBig;
    if CompactToBig(bits) > 0 {
      MulDivBounds(TWO_256, CompactToBig(bits) + 1);
    }
  }

  /** A smaller target means at least as much work. */
  lemma WorkFallsWithTarget(a: nat, b: nat)
    requires 0 < CompactToBig(a) <= CompactToBig(b)
    ensures CalcWork(a) >= CalcWork(b)
  {
    hide CompactToBig;
    WorkExactly(a);
    WorkExactly(b);
    var m, n, w := CompactToBig(a) + 1, CompactToBig(b) + 1, CalcWork(b);
    MulLe(m, n, w);
    assert (CalcWork(a) + 1) * m == CalcWork(a) * m + m;
    MulCancelLt(w, CalcWork(a) + 1, m);
  }

  /** The three fields of a compact number: the top byte, the sign bit below it and the 55 bits below that. */
  lemma CompactFormat(exponent: nat, negative: bool, mantissa: nat)
    requires mantissa < 0x80_0000_0000_0000
    ensures var compact := exponent * 0x100_0000_0000_0000 + (if negative then 0x80_0000_0000_0000 else 0) + mantissa;
            var size := if exponent <= 3 then mantissa / Pow256(3 - exponent) else mantissa * Pow256(exponent - 3);
            CompactToBig(compact) == if negative then -size else size
  {
    hide Pow256;
    var compact := exponent * TWO_56 + (if negative then TWO_55 else 0) + mantissa;
    assert compact / TWO_56 == exponent && compact % TWO_55 == mantissa;
    assert compact / TWO_55 == exponent * 2 + if negative then 1 else 0;
  }

  /** Two's complement reading of the low 64 bits. */
  function ToInt64(n: int): (r: int)
    ensures -TWO_63 <= r < TWO_63 && (r - n) % TWO_64 == 0
  {
    var u := n % TWO_64;
    if u < TWO_63 then u else u - TWO_64
  }

  function RetargetBits(bits: nat, lastTimestamp: nat, compareTimestamp: nat): nat {
    var span := ToInt64(lastTimestamp - compareTimestamp);
    BigToCompact((CompactToBig(bits) * span) / (BLOCKS_PER_RETARGET * TARGET_SECONDS_PER_BLOCK))
  }

  lemma RetargetIs(bits: nat, last: nat, compare: nat)
    ensures RetargetBits(bits, last, compare) == BigToCompact(CompactToBig(bits) * ToInt64(last - compare) / 143)
  {
    hide CompactToBig, BigToCompact, ToInt64;
  }

  // ------------------------------------------------------------ powers of 256

  lemma {:induction false} Pow256Add(a: nat, b: nat)
    ensures Pow256(a + b) == Pow256(a) * Pow256(b)
  {
    if a > 0 {
      Pow256Add(a - 1, b);
      assert Pow256(a + b) == 256 * Pow256(a - 1 + b);
    }
  }

  lemma {:induction false} Pow256Monotone(a: nat, b: nat)
    requires a <= b
    ensures Pow256(a) <= Pow256(b)
  {
    if a < b {
      Pow256Monotone(a, b - 1);
    }
  }

  /** A number has L bytes exactly when it lies in [256^(L-1), 256^L). */
  lemma {:induction false} ByteLenBounds(n: nat)
    requires n > 0
    ensures ByteLen(n) > 0 && Pow256(ByteLen(n) - 1) <= n < Pow256(ByteLen(n))
  {
    if n >= 256 {
      ByteLenBounds(n / 256);
      assert Pow256(ByteLen(n) - 1) == 256 * Pow256(ByteLen(n / 256) - 1);
      assert Pow256(ByteLen(n)) == 256 * Pow256(ByteLen(n / 256));
    } else {
      assert ByteLen(n / 256) == 0 && ByteLen(n) == 1;
      assert Pow256(0) == 1 && Pow256(1) == 256;
    }
  }

  lemma {:induction false} ByteLenMonotone(m: nat, n: nat)
    requires m <= n
    ensures ByteLen(m) <= ByteLen(n)
  {
    if m > 0 {
      ByteLenMonotone(m / 256, n / 256);
    }
  }

  lemma ByteLenUnique(n: nat, l: nat)
    requires l > 0 && Pow256(l - 1) <= n < Pow256(l)
    ensures ByteLen(n) == l
  {
    ByteLenBounds(n);
    if ByteLen(n) < l {
      Pow256Monotone(ByteLen(n), l - 1);
    } else if ByteLen(n) > l {
      Pow256Monotone(l, ByteLen(n) - 1);
    }
  }

  // ----------------------------------------------------- the compact encoding

  /** The three leading bytes of a number of L bytes, and the unit they count. */
  function Unit(n: nat): nat {
    if ByteLen(n) <= 3 then 1 else Pow256(ByteLen(n) - 3)
  }

  function Mantissa(n: nat): nat {
    if ByteLen(n) <= 3 then n * Pow256(3 - ByteLen(n))
    else MulDivBounds(n, Pow256(ByteLen(n) - 3)); n / Pow256(ByteLen(n) - 3)
  }

  /** A positive number's mantissa fills exactly three bytes. */
  lemma MantissaRange(n: nat)
    requires n > 0
    ensures 65536 <= Mantissa(n) < 16777216
  {
    var l := ByteLen(n);
    ByteLenBounds(n);
    SmallPowers();
    if l > 3 {
      Pow256Add(2, l - 3);
      Pow256Add(3, l - 3);
      DivRange(n, Pow256(l - 3), 65536, 16777216);
    }
  }

  lemma SmallPowers()
    ensures Pow256(0) == 1 && Pow256(1) == 256 && Pow256(2) == 65536 && Pow256(3) == 16777216
  {
    assert Pow256(1) == 256 * Pow256(0);
    assert Pow256(2) == 256 * Pow256(1);
    assert Pow256(3) == 256 * Pow256(2);
  }

  lemma BigToCompactFields(n: nat)
    requires n > 0 && ByteLen(n) <= 255
    ensures BigToCompact(n) == ByteLen(n) * TWO_56 + Mantissa(n)
  {
    hide ByteLen, Pow256;
    MantissaRange(n);
    SmallQuotient(Mantissa(n));
  }

  lemma SmallQuotient(m: nat)
    requires m < TWO_55
    ensures m / TWO_55 == 0
  {
  }

  lemma PackedFields(exponent: nat, mantissa: nat)
    requires mantissa < TWO_55
    ensures var c := exponent * TWO_56 + mantissa;
            c / TWO_56 == exponent && c % TWO_55 == mantissa && (c / TWO_55) % 2 == 0
  {
  }

  lemma CompactToBigFields(exponent: nat, mantissa: nat)
    requires mantissa < TWO_55
    ensures CompactToBig(exponent * TWO_56 + mantissa) ==
            if exponent <= 3 then mantissa / Pow256(3 - exponent) else mantissa * Pow256(exponent - 3)
  {
    hide Pow256;
    PackedFields(exponent, mantissa);
  }

  /** A number with everything after its three leading bytes cleared. */
  function Rounded(n: nat): (r: nat)
    ensures r <= n < r + Unit(n)
    ensures ByteLen(n) <= 3 ==> r == n
  {
    MulDivBounds(n, Unit(n));
    n / Unit(n) * Unit(n)
  }

  /** Packing and unpacking keeps the three leading bytes: it rounds down to a multiple of the unit. */
  lemma RoundTripValue(n: nat)
    requires ByteLen(n) <= 255
    ensures CompactToBig(BigToCompact(n)) == Rounded(n)
  {
    if n > 0 {
      var l := ByteLen(n);
      BigToCompactFields(n);
      MantissaRange(n);
      CompactToBigFields(l, Mantissa(n));
      if l <= 3 {
        MulDivCancel(n, Pow256(3 - l));
      }
    }
  }

  /** The loss is less than one unit, nothing is lost up to three bytes, and it is at most a 2^-16 part. */
  lemma RoundTripLoss(n: nat)
    requires ByteLen(n) <= 255
    ensures var r := CompactToBig(BigToCompact(n));
            0 <= n - r < Unit(n) && (ByteLen(n) <= 3 ==> r == n) && (n > 0 ==> (n - r) * 65536 < n)
  {
    hide BigToCompact, CompactToBig;
    RoundTripValue(n);
    if n > 0 {
      UnitIsSmall(n);
    }
  }

  lemma UnitIsSmall(n: nat)
    requires n > 0
    ensures Rounded(n) != n ==> Unit(n) * 65536 <= n
  {
    hide Pow256;
    ByteLenBounds(n);
    if ByteLen(n) > 3 {
      SmallPowers();
      Pow256Add(2, ByteLen(n) - 3);
      assert Pow256(ByteLen(n) - 1) == 65536 * Unit(n);
    }
  }

  lemma RoundedKeepsLength(n: nat)
    requires n > 0
    ensures Rounded(n) > 0 && ByteLen(Rounded(n)) == ByteLen(n)
  {
    var l, u := ByteLen(n), Unit(n);
    if l > 3 {
      MantissaRange(n);
      SmallPowers();
      Pow256Add(2, l - 3);
      ByteLenBounds(n);
      MulLe(65536, n / u, u);
      ByteLenUnique(Rounded(n), l);
    }
  }

  lemma RoundedKeepsMantissa(n: nat)
    requires n > 0
    ensures Mantissa(Rounded(n)) == Mantissa(n)
  {
    RoundedKeepsLength(n);
    MulDivBounds(n, Unit(n));
    MulDivCancel(n / Unit(n), Unit(n));
  }

  lemma RoundedMonotone(m: nat, n: nat)
    requires m <= n
    ensures Rounded(m) <= Rounded(n)
  {
    hide Pow256;
    ByteLenMonotone(m, n);
    if m > 0 {
      if ByteLen(m) < ByteLen(n) {
        RoundedKeepsLength(n);
        ByteLenBounds(m);
        ByteLenBounds(Rounded(n));
        Pow256Monotone(ByteLen(m), ByteLen(n) - 1);
      } else {
        DivMonotone(m, n, Unit(n));
        MulLe(m / Unit(n), n / Unit(n), Unit(n));
      }
    }
  }

  /** A decoded target encodes back to the same compact form. */
  lemma ReencodesToItself(n: nat)
    requires ByteLen(n) <= 255
    ensures BigToCompact(CompactToBig(BigToCompact(n))) == BigToCompact(n)
  {
    RoundTripValue(n);
    if n > 0 {
      RoundedKeepsLength(n);
      RoundedKeepsMantissa(n);
      BigToCompactFields(n);
      BigToCompactFields(Rounded(n));
    }
  }

  /** Larger targets have larger compact forms, compared as plain 64-bit numbers. */
  lemma CompactMonotone(m: nat, n: nat)
    requires m <= n && ByteLen(n) <= 255
    ensures BigToCompact(m) <= BigToCompact(n) < TWO_64
  {
    ByteLenMonotone(m, n);
    if n > 0 {
      BigToCompactFields(n);
      MantissaRange(n);
    }
    if m > 0 {
      BigToCompactFields(m);
      MantissaRange(m);
      if ByteLen(m) == ByteLen(n) {
        MantissaMonotone(m, n);
      }
    }
  }

  lemma MantissaMonotone(m: nat, n: nat)
    requires m <= n && ByteLen(m) == ByteLen(n)
    ensures Mantissa(m) <= Mantissa(n)
  {
    var l := ByteLen(n);
    if l <= 3 {
      MulLe(m, n, Pow256(3 - l));
    } else {
      DivMonotone(m, n, Pow256(l - 3));
    }
  }

  /** The decoded targets are ordered like the originals. */
  lemma RoundTripMonotone(m: nat, n: nat)
    requires m <= n && ByteLen(n) <= 255
    ensures CompactToBig(BigToCompact(m)) <= CompactToBig(BigToCompact(n))
  {
    ByteLenMonotone(m, n);
    RoundTripValue(m);
    RoundTripValue(n);
    RoundedMonotone(m, n);
  }

  /** The target a retarget aims for: old * span / 143. */
  function IdealTarget(target: nat, span: nat): (t: nat) {
    target * span / (BLOCKS_PER_RETARGET * TARGET_SECONDS_PER_BLOCK)
  }

  lemma RetargetEncodesIdeal(bits: nat, last: nat, compare: nat)
    requires 0 <= last - compare < TWO_63
    requires CompactToBig(bits) >= 0
    ensures RetargetBits(bits, last, compare) == BigToCompact(IdealTarget(CompactToBig(bits), last - compare))
  {
    assert ToInt64(last - compare) == last - compare;
  }

  /** A retarget over a time span that is not negative scales the old target by span/143, rounded down by at most
      a 2^-16 part, whenever the scaled target still has an exponent that fits its byte. */
  lemma RetargetScales(bits: nat, last: nat, compare: nat)
    requires 0 <= last - compare < TWO_63
    requires CompactToBig(bits) >= 0
    requires ByteLen(IdealTarget(CompactToBig(bits), last - compare)) <= 255
    ensures var ideal := IdealTarget(CompactToBig(bits), last - compare);
            var actual := CompactToBig(RetargetBits(bits, last, compare));
            0 <= actual <= ideal && (ideal > 0 ==> (ideal - actual) * 65536 < ideal)
  {
    RetargetEncodesIdeal(bits, last, compare);
    RoundTripLoss(IdealTarget(CompactToBig(bits), last - compare));
    RoundTripValue(IdealTarget(CompactToBig(bits), last - compare));
  }

  /** A slower window never makes the next target smaller. */
  lemma RetargetMonotoneInSpan(bits: nat, last: nat, last': nat, compare: nat)
    requires compare <= last <= last' && last' - compare < TWO_63
    requires CompactToBig(bits) >= 0
    requires ByteLen(IdealTarget(CompactToBig(bits), last' - compare)) <= 255
    ensures RetargetBits(bits, last, compare) <= RetargetBits(bits, last', compare)
  {
    RetargetEncodesIdeal(bits, last, compare);
    RetargetEncodesIdeal(bits, last', compare);
    var t := CompactToBig(bits);
    IdealTargetMonotone(t, last - compare, last' - compare);
    CompactMonotone(IdealTarget(t, last - compare), IdealTarget(t, last' - compare));
  }

  lemma IdealTargetMonotone(t: nat, s: nat, s': nat)
    requires s <= s'
    ensures IdealTarget(t, s) <= IdealTarget(t, s')
  {
    MulLe(s, s', t);
  }
}
