// basis/crypto/sm2/p256.go: the field of the SM2 curve on nine limbs of 29 and
// 28 bits alternately, held in 32-bit words.
module Sm2Field {

  const P: nat := 0xFFFFFFFE_FFFFFFFF_FFFFFFFF_FFFFFFFF_FFFFFFFF_00000000_FFFFFFFF_FFFFFFFF
  const R_INVERSE: nat := 0x7ffffffd_80000002_fffffffe_00000001_7ffffffe_80000003_7ffffffc_80000002
  const TWO_28: nat := 0x1000_0000
  const TWO_29: nat := 0x2000_0000
  const TWO_30: nat := 0x4000_0000
  const TWO_32: nat := 0x1_0000_0000
  const TWO_64: nat := 0x1_0000_0000_0000_0000
  const TWO_257: nat := 2 * 0x1_00000000_00000000_00000000_00000000_00000000_00000000_00000000_00000000

  type U32 = x: nat | x < 0x1_0000_0000

  // ------------------------------------------------------------- limbs and weights

  /** One more than the largest value of limb i once carries are taken out. */
  function Radix(i: nat): (r: nat)
    ensures r == TWO_29 || r == TWO_28
  {
    if i % 2 == 0 then TWO_29 else TWO_28
  }

  function Weight(i: nat): (w: nat)
    ensures w > 0
  {
    if i == 0 then 1 else Weight(i - 1) * Radix(i - 1)
  }

  /** The number that the first n limbs stand for. */
  function EvalUpTo(s: seq<int>, n: nat): int
    requires n <= |s|
  {
    if n == 0 then 0 else EvalUpTo(s, n - 1) + s[n - 1] * Weight(n - 1)
  }

  function Eval(s: seq<int>): int {
    EvalUpTo(s, |s|)
  }

  lemma {:induction false} EvalNotNegative(s: seq<nat>, n: nat)
    requires n <= |s|
    ensures EvalUpTo(s, n) >= 0
  {
    hide Weight;
    if n > 0 {
      EvalNotNegative(s, n - 1);
    }
  }

  /** The bounds that every operation expects and keeps. */
  predicate Bounded(s: seq<nat>) {
    |s| == 9 && forall i :: 0 <= i < 9 ==> s[i] < 2 * Radix(i)
  }

  lemma {:induction false} EvalPrefix(s: seq<nat>, x: nat, n: nat)
    requires n <= |s|
    ensures EvalUpTo(s + [x], n) == EvalUpTo(s, n)
  {
    hide Weight;
    if n > 0 {
      EvalPrefix(s, x, n - 1);
    }
  }

  lemma EvalSnoc(s: seq<nat>, x: nat)
    ensures Eval(s + [x]) == Eval(s) + x * Weight(|s|)
  {
    hide Weight;
    EvalPrefix(s, x, |s|);
  }

  /** What stays in limb i, and what is carried on. */
  function Low(sum: nat, i: nat): nat {
    sum % Radix(i)
  }

  function High(sum: nat, i: nat): nat {
    sum / Radix(i)
  }

  lemma SplitLimb(sum: nat, w: nat, r: nat)
    requires r > 0
    ensures sum * w == (sum % r) * w + (sum / r) * (w * r)
  {
    assert sum == (sum / r) * r + sum % r;
  }

  // ----------------------------------------------------------- carries out of the top

  function CarryRow(k: nat): seq<nat>
    requires k < 8
  {
    if k == 0 then [0, 0, 0, 0, 0, 0, 0, 0, 0]
    else [2 * k, 0, 0x20000000 - 0x100 * k, 0x800 * k - 1, 0, 0, 0, 0x2000000 * k, 0]
  }

  lemma RowBounds(k: nat)
    requires k < 8
    ensures var row := CarryRow(k);
            && |row| == 9 && row[0] < TWO_28 && row[2] < TWO_29 && row[3] < TWO_28 && row[7] < TWO_28
            && row[1] == row[4] == row[5] == row[6] == row[8] == 0
  {
  }

  method ReduceCarry(a: array<U32>, carry: nat)
    requires a.Length == 9 && carry < 8 && forall i :: 0 <= i < 9 ==> a[i] < Radix(i)
    modifies a
    ensures Bounded(a[..])
    ensures forall i :: 0 <= i < 9 ==> a[i] == old(a[i]) + CarryRow(carry)[i]
  {
    hide CarryRow;
    RowBounds(carry);
    var row := CarryRow(carry);
    a[0] := (a[0] + row[0]) % TWO_32;
    a[2] := (a[2] + row[2]) % TWO_32;
    a[3] := (a[3] + row[3]) % TWO_32;
    a[7] := (a[7] + row[7]) % TWO_32;
  }

  function Plus(s: seq<nat>, t: seq<nat>): (r: seq<nat>)
    requires |s| == |t|
    ensures |r| == |s|
  {
    seq(|s|, i requires 0 <= i < |s| => s[i] + t[i])
  }

  lemma {:induction false} EvalPlus(s: seq<nat>, t: seq<nat>, n: nat)
    requires |s| == |t| && n <= |s|
    ensures EvalUpTo(Plus(s, t), n) == EvalUpTo(s, n) + EvalUpTo(t, n)
  {
    hide Weight;
    if n > 0 {
      EvalPlus(s, t, n - 1);
    }
  }

  lemma Weights()
    ensures Weight(0) == 1 && Weight(2) == 0x0200_0000_0000_0000
    ensures Weight(3) == 0x40_0000_0000_0000_0000_0000
    ensures Weight(7) == 0x100_0000_0000_0000_0000_0000_0000_0000_0000_0000_0000_0000_0000
    ensures Weight(9) == TWO_257
  {
    assert Weight(1) == TWO_29;
    assert Weight(2) == Weight(1) * TWO_28;
    assert Weight(3) == Weight(2) * TWO_29;
    assert Weight(4) == Weight(3) * TWO_28;
    assert Weight(5) == Weight(4) * TWO_29;
    assert Weight(6) == Weight(5) * TWO_28;
    assert Weight(7) == Weight(6) * TWO_29;
    assert Weight(8) == Weight(7) * TWO_28;
    assert Weight(9) == Weight(8) * TWO_29;
  }

  /** A row of the table is its multiple of 2^257, less twice as many times the prime. */
  lemma RowValue(k: nat)
    requires k < 8
    ensures Eval(CarryRow(k)) + 2 * k * P == k * TWO_257
  {
    hide Weight, Radix;
    var row := CarryRow(k);
    Weights();
    assert EvalUpTo(row, 1) == row[0] * Weight(0);
    assert EvalUpTo(row, 2) == EvalUpTo(row, 1) + row[1] * Weight(1);
    assert EvalUpTo(row, 3) == EvalUpTo(row, 2) + row[2] * Weight(2);
    assert EvalUpTo(row, 4) == EvalUpTo(row, 3) + row[3] * Weight(3);
    assert EvalUpTo(row, 5) == EvalUpTo(row, 4) + row[4] * Weight(4);
    assert EvalUpTo(row, 6) == EvalUpTo(row, 5) + row[5] * Weight(5);
    assert EvalUpTo(row, 7) == EvalUpTo(row, 6) + row[6] * Weight(6);
    assert EvalUpTo(row, 8) == EvalUpTo(row, 7) + row[7] * Weight(7);
    assert EvalUpTo(row, 9) == EvalUpTo(row, 8) + row[8] * Weight(8);
  }

  lemma CarryReduced(s: seq<nat>, t: seq<nat>, carry: nat)
    requires |s| == |t| == 9 && carry < 8 && forall i :: 0 <= i < 9 ==> t[i] == s[i] + CarryRow(carry)[i]
    ensures Eval(t) + 2 * carry * P == Eval(s) + carry * TWO_257
  {
    hide EvalUpTo, CarryRow;
    RowBounds(carry);
    assert t == Plus(s, CarryRow(carry));
    EvalPlus(s, CarryRow(carry), 9);
    RowValue(carry);
  }

  // ------------------------------------------------------------ addition, subtraction

  /** Adds limb by limb with carries; c may be a or b.  The result differs from the sum by an even multiple of the
      prime, at most fourteen times. */
  method Add(c: array<U32>, a: array<U32>, b: array<U32>) returns (ghost top: nat)
    requires a.Length == b.Length == c.Length == 9 && Bounded(a[..]) && Bounded(b[..])
    modifies c
    ensures Bounded(c[..]) && top < 8
    ensures Eval(c[..]) + 2 * top * P == old(Eval(a[..])) + old(Eval(b[..]))
    ensures Eval(c[..]) % P == (old(Eval(a[..])) + old(Eval(b[..]))) % P
  {
    hide Weight, EvalUpTo, Eval, CarryRow, Low, High, Radix;
    var carry: nat := 0;
    ghost var x: seq<nat>, y: seq<nat>, done: seq<nat> := a[..], b[..], [];
    EvalNone(x, y);
    for i := 0 to 9
      invariant forall k :: i <= k < 9 ==> a[k] == x[k] && b[k] == y[k]
      invariant |done| == i && forall k :: 0 <= k < i ==> c[k] == done[k] < Radix(k)
      invariant carry < 8 && Eval(done) + carry * Weight(i) == EvalUpTo(x, i) + EvalUpTo(y, i)
    {
      var sum: nat := (a[i] + b[i] + carry) % TWO_32;
      AddStep(x, y, done, carry, i);
      NoWrap(x[i], 0, y[i], carry);
      assert sum == x[i] + y[i] + carry;
      carry := High(sum, i);
      c[i] := Low(sum, i);
      done := done + [Low(sum, i)];
    }
    top := carry;
    ghost var mid: seq<nat> := c[..];
    assert mid == done;
    Weights();
    EvalFull(x);
    EvalFull(y);
    ReduceCarry(c, carry);
    CarryReduced(mid, c[..], carry);
    SameResidue(Eval(c[..]), Eval(x) + Eval(y), 2 * carry);
  }

  lemma EvalFull(x: seq<nat>)
    ensures EvalUpTo(x, |x|) == Eval(x)
  {
  }

  lemma EvalNone(x: seq<nat>, y: seq<nat>)
    ensures Eval([]) == 0 && EvalUpTo(x, 0) == 0 && EvalUpTo(y, 0) == 0
  {
  }

  lemma AddStep(x: seq<nat>, y: seq<nat>, done: seq<nat>, carry: nat, i: nat)
    requires Bounded(x) && Bounded(y) && i < 9 && |done| == i && carry < 8
    requires Eval(done) + carry * Weight(i) == EvalUpTo(x, i) + EvalUpTo(y, i)
    ensures var sum := x[i] + y[i] + carry;
            && sum < TWO_32 && High(sum, i) < 8 && Low(sum, i) < Radix(i) <= TWO_29
            && Eval(done + [Low(sum, i)]) + High(sum, i) * Weight(i + 1) == EvalUpTo(x, i + 1) + EvalUpTo(y, i + 1)
  {
    var sum, w := x[i] + y[i] + carry, Weight(i);
    EvalSnoc(done, sum % Radix(i));
    SplitLimb(sum, w, Radix(i));
    Distribute(x[i], y[i], carry, w);
  }

  lemma Distribute(x: int, y: int, z: int, w: int)
    ensures (x + y + z) * w == x * w + y * w + z * w
  {
  }

  /** Eight times the prime, with limbs so large that no difference of limbs makes them negative. */
  const ZERO_31: seq<nat> := [0x7FFFFFF8, 0x3FFFFFFC, 0x800003FC, 0x3FFFDFFC, 0x7FFFFFFC, 0x3FFFFFFC, 0x7FFFFFFC,
                              0x37FFFFFC, 0x7FFFFFFC]

  lemma ZeroLimb(i: nat)
    requires i < 9
    ensures 2 * Radix(i) <= ZERO_31[i] < 4 * Radix(i) + 0x400
  {
  }

  lemma ZeroValue()
    ensures Eval(ZERO_31) == 8 * P
  {
    hide Weight, Radix;
    AllWeights();
    var z := ZERO_31;
    assert EvalUpTo(z, 1) == z[0] * Weight(0);
    assert EvalUpTo(z, 2) == EvalUpTo(z, 1) + z[1] * Weight(1);
    assert EvalUpTo(z, 3) == EvalUpTo(z, 2) + z[2] * Weight(2);
    assert EvalUpTo(z, 4) == EvalUpTo(z, 3) + z[3] * Weight(3);
    assert EvalUpTo(z, 5) == EvalUpTo(z, 4) + z[4] * Weight(4);
    assert EvalUpTo(z, 6) == EvalUpTo(z, 5) + z[5] * Weight(5);
    assert EvalUpTo(z, 7) == EvalUpTo(z, 6) + z[6] * Weight(6);
    assert EvalUpTo(z, 8) == EvalUpTo(z, 7) + z[7] * Weight(7);
    assert EvalUpTo(z, 9) == EvalUpTo(z, 8) + z[8] * Weight(8);
  }

  lemma AllWeights()
    ensures Weight(0) == 1 && Weight(1) == TWO_29 && Weight(2) == Weight(1) * TWO_28
    ensures Weight(3) == Weight(2) * TWO_29 && Weight(4) == Weight(3) * TWO_28 && Weight(5) == Weight(4) * TWO_29
    ensures Weight(6) == Weight(5) * TWO_28 && Weight(7) == Weight(6) * TWO_29 && Weight(8) == Weight(7) * TWO_28
  {
    assert Weight(1) == Weight(0) * TWO_29;
  }

  /** Subtracts limb by limb on top of a multiple of the prime; c may be a or b. */
  method Sub(c: array<U32>, a: array<U32>, b: array<U32>) returns (ghost top: nat)
    requires a.Length == b.Length == c.Length == 9 && Bounded(a[..]) && Bounded(b[..])
    modifies c
    ensures Bounded(c[..]) && top < 8
    ensures Eval(c[..]) + 2 * top * P + old(Eval(b[..])) == old(Eval(a[..])) + 8 * P
    ensures Eval(c[..]) % P == (old(Eval(a[..])) - old(Eval(b[..]))) % P
  {
    hide Weight, EvalUpTo, Eval, CarryRow, Low, High, Radix;
    var carry: nat := 0;
    ghost var x: seq<nat>, y: seq<nat>, done: seq<nat> := a[..], b[..], [];
    EvalNone(x, y);
    EvalNone(ZERO_31, []);
    for i := 0 to 9
      invariant forall k :: i <= k < 9 ==> a[k] == x[k] && b[k] == y[k]
      invariant |done| == i && forall k :: 0 <= k < i ==> c[k] == done[k] < Radix(k)
      invariant carry < 8
      invariant Eval(done) + carry * Weight(i) + EvalUpTo(y, i) == EvalUpTo(x, i) + EvalUpTo(ZERO_31, i)
    {
      var sum: nat := ((a[i] - b[i]) % TWO_32 + ZERO_31[i] + carry) % TWO_32;
      SubStep(x, y, done, carry, i);
      NoWrap(x[i], y[i], ZERO_31[i], carry);
      carry := High(sum, i);
      c[i] := Low(sum, i);
      done := done + [Low(sum, i)];
    }
    top := carry;
    ghost var mid: seq<nat> := c[..];
    assert mid == done;
    Weights();
    EvalFull(x);
    EvalFull(y);
    EvalFull(ZERO_31);
    ZeroValue();
    ReduceCarry(c, carry);
    CarryReduced(mid, c[..], carry);
    SameResidue(Eval(c[..]), Eval(x) - Eval(y), 2 * carry - 8);
  }

  /** Wrapping in 32 bits on the way does not matter if the result fits. */
  lemma NoWrap(x: nat, y: nat, z: nat, carry: nat)
    requires 0 <= x - y + z + carry < TWO_32
    ensures ((x - y) % TWO_32 + z + carry) % TWO_32 == x - y + z + carry
  {
  }

  lemma SubStep(x: seq<nat>, y: seq<nat>, done: seq<nat>, carry: nat, i: nat)
    requires Bounded(x) && Bounded(y) && i < 9 && |done| == i && carry < 8
    requires Eval(done) + carry * Weight(i) + EvalUpTo(y, i) == EvalUpTo(x, i) + EvalUpTo(ZERO_31, i)
    ensures var sum := x[i] - y[i] + ZERO_31[i] + carry;
            && 0 <= sum < TWO_32 && High(sum, i) < 8 && Low(sum, i) < Radix(i) <= TWO_29
            && Eval(done + [Low(sum, i)]) + High(sum, i) * Weight(i + 1) + EvalUpTo(y, i + 1) ==
               EvalUpTo(x, i + 1) + EvalUpTo(ZERO_31, i + 1)
  {
    ZeroLimb(i);
    var z := ZERO_31[i];
    var sum, w := x[i] - y[i] + z + carry, Weight(i);
    EvalSnoc(done, sum % Radix(i));
    SplitLimb(sum, w, Radix(i));
    Distribute(x[i], z, carry, w);
    Distribute(sum, y[i], 0, w);
    assert sum + y[i] == x[i] + z + carry;
  }

  // ------------------------------------------------------------------- the product

  /** Two odd limbs meet at a weight that is half the product of theirs. */
  function Twist(i: nat, j: nat): nat {
    if i % 2 == 1 && j % 2 == 1 then 2 else 1
  }

  lemma {:induction false} WeightProduct(i: nat, j: nat)
    ensures Weight(i) * Weight(j) == Weight(i + j) * Twist(i, j)
  {
    if j > 0 {
      WeightProduct(i, j - 1);
      var w, v := Weight(i), Weight(j - 1);
      assert w * (v * Radix(j - 1)) == (w * v) * Radix(j - 1) by {
        Associate(w, v, Radix(j - 1));
      }
      assert Twist(i, j - 1) * Radix(j - 1) == Radix(i + j - 1) * Twist(i, j);
      Associate(Weight(i + j - 1), Twist(i, j - 1), Radix(j - 1));
      Associate(Weight(i + j - 1), Radix(i + j - 1), Twist(i, j));
    }
  }

  lemma Associate(a: int, b: int, c: int)
    ensures (a * b) * c == a * (b * c)
  {
  }

  /** A product of limbs, the second one shifted: t is 1, 2 or 4. */
  function Prod(x: nat, y: nat, t: nat): nat {
    x * (y * t)
  }

  /** What limb i of a contributes to limb k of the product. */
  function Term(a: seq<nat>, b: seq<nat>, i: nat, k: nat): nat
    requires |a| == |b| == 9 && i < 9
  {
    if i <= k < i + 9 then Prod(a[i], b[k - i], Twist(i, k - i)) else 0
  }

  function Column(a: seq<nat>, b: seq<nat>, n: nat, k: nat): nat
    requires |a| == |b| == 9 && n <= 9
  {
    if n == 0 then 0 else Column(a, b, n - 1, k) + Term(a, b, n - 1, k)
  }

  /** The first m limbs of the product of the first n limbs of a with b. */
  function Columns(a: seq<nat>, b: seq<nat>, n: nat, m: nat): nat
    requires |a| == |b| == 9 && n <= 9
  {
    if m == 0 then 0 else Columns(a, b, n, m - 1) + Column(a, b, n, m - 1) * Weight(m - 1)
  }

  /** The part of it that comes from limb i of a. */
  function Row(a: seq<nat>, b: seq<nat>, i: nat, m: nat): nat
    requires |a| == |b| == 9 && i < 9
  {
    if m == 0 then 0 else Row(a, b, i, m - 1) + Term(a, b, i, m - 1) * Weight(m - 1)
  }

  function Clamp(m: int): nat {
    if m < 0 then 0 else if m > 9 then 9 else m
  }

  lemma {:induction false} RowIsMultiple(a: seq<nat>, b: seq<nat>, i: nat, m: nat)
    requires |a| == |b| == 9 && i < 9
    ensures Row(a, b, i, m) == a[i] * Weight(i) * EvalUpTo(b, Clamp(m - i))
  {
    hide Weight;
    if m > 0 {
      RowIsMultiple(a, b, i, m - 1);
      if i <= m - 1 < i + 9 {
        var j := m - 1 - i;
        TermWeight(a[i], b[j], i, j);
        var e, t := EvalUpTo(b, j), b[j] * Weight(j);
        Spread(a[i] * Weight(i), e, t);
        assert EvalUpTo(b, j + 1) == e + t;
      }
    }
  }

  lemma Spread(x: int, y: int, z: int)
    ensures x * (y + z) == x * y + x * z
  {
  }

  lemma TermWeight(x: nat, y: nat, i: nat, j: nat)
    ensures x * (y * Twist(i, j)) * Weight(i + j) == x * Weight(i) * (y * Weight(j))
  {
    hide Weight, Twist;
    WeightProduct(i, j);
    var t, w, u, v := Twist(i, j), Weight(i + j), Weight(i), Weight(j);
    Rearrange(x, y, t, w);
    Rearrange2(x, y, u, v);
  }

  lemma Rearrange(x: int, y: int, t: int, w: int)
    ensures x * (y * t) * w == (x * y) * (w * t)
  {
  }

  lemma Rearrange2(x: int, y: int, u: int, v: int)
    ensures x * u * (y * v) == (x * y) * (u * v)
  {
  }

  lemma {:induction false} OneMoreRow(a: seq<nat>, b: seq<nat>, n: nat, m: nat)
    requires |a| == |b| == 9 && n < 9
    ensures Columns(a, b, n + 1, m) == Columns(a, b, n, m) + Row(a, b, n, m)
  {
    hide Weight, Term;
    if m > 0 {
      OneMoreRow(a, b, n, m - 1);
      Distribute(Column(a, b, n, m - 1), Term(a, b, n, m - 1), 0, Weight(m - 1));
    }
  }

  lemma {:induction false} NoRows(a: seq<nat>, b: seq<nat>, m: nat)
    requires |a| == |b| == 9
    ensures Columns(a, b, 0, m) == 0
  {
    if m > 0 {
      NoRows(a, b, m - 1);
    }
  }

  lemma {:induction false} RowsMultiply(a: seq<nat>, b: seq<nat>, n: nat)
    requires |a| == |b| == 9 && n <= 9
    ensures Columns(a, b, n, 17) == EvalUpTo(a, n) * Eval(b)
  {
    hide Weight, Column, Row;
    if n == 0 {
      NoRows(a, b, 17);
    } else {
      RowsMultiply(a, b, n - 1);
      OneMoreRow(a, b, n - 1, 17);
      RowIsMultiple(a, b, n - 1, 17);
      Distribute(EvalUpTo(a, n - 1), a[n - 1] * Weight(n - 1), 0, Eval(b));
    }
  }

  lemma ColumnUnrolled(a: seq<nat>, b: seq<nat>, k: nat)
    requires |a| == |b| == 9
    ensures Column(a, b, 9, k) ==
            Term(a, b, 0, k) + Term(a, b, 1, k) + Term(a, b, 2, k) + Term(a, b, 3, k) + Term(a, b, 4, k) +
            Term(a, b, 5, k) + Term(a, b, 6, k) + Term(a, b, 7, k) + Term(a, b, 8, k)
  {
    hide Term;
    assert Column(a, b, 1, k) == Term(a, b, 0, k);
    assert Column(a, b, 2, k) == Column(a, b, 1, k) + Term(a, b, 1, k);
    assert Column(a, b, 4, k) == Column(a, b, 2, k) + Term(a, b, 2, k) + Term(a, b, 3, k);
    assert Column(a, b, 6, k) == Column(a, b, 4, k) + Term(a, b, 4, k) + Term(a, b, 5, k);
    assert Column(a, b, 8, k) == Column(a, b, 6, k) + Term(a, b, 6, k) + Term(a, b, 7, k);
  }

  /** No column of bounded factors reaches 64 bits. */
  lemma ColumnFits(a: seq<nat>, b: seq<nat>, k: nat)
    requires Bounded(a) && Bounded(b)
    ensures Column(a, b, 9, k) < TWO_64
  {
    hide Term;
    ColumnUnrolled(a, b, k);
    TermFits(a, b, 0, k);
    TermFits(a, b, 1, k);
    TermFits(a, b, 2, k);
    TermFits(a, b, 3, k);
    TermFits(a, b, 4, k);
    TermFits(a, b, 5, k);
    TermFits(a, b, 6, k);
    TermFits(a, b, 7, k);
    TermFits(a, b, 8, k);
  }

  lemma TermFits(a: seq<nat>, b: seq<nat>, i: nat, k: nat)
    requires Bounded(a) && Bounded(b) && i < 9
    ensures Term(a, b, i, k) <= TWO_30 * TWO_30
  {
    if i <= k < i + 9 {
      var x, y := a[i], b[k - i] * Twist(i, k - i);
      assert x <= TWO_30;
      if Twist(i, k - i) == 2 {
        assert b[k - i] < TWO_29;
      }
      assert y <= TWO_30;
      ProductFits(x, y);
    }
  }

  lemma {:induction false} MulMonotone(x: nat, m: nat, y: nat)
    requires x <= m
    ensures x * y <= m * y
    decreases m
  {
    if x < m {
      MulMonotone(x, m - 1, y);
      assert m * y == (m - 1) * y + y;
    }
  }

  lemma ProductFits(x: nat, y: nat)
    requires x <= TWO_30 && y <= TWO_30
    ensures x * y <= TWO_30 * TWO_30
  {
    MulMonotone(x, TWO_30, y);
  }

  /** What the 17 limbs of a product stand for. */
  lemma {:induction false} ColumnsAreEval(a: seq<nat>, b: seq<nat>, tmp: seq<nat>, m: nat)
    requires |a| == |b| == 9 && m <= |tmp| && forall k :: 0 <= k < m ==> tmp[k] == Column(a, b, 9, k)
    ensures EvalUpTo(tmp, m) == Columns(a, b, 9, m)
  {
    hide Weight, Column;
    if m > 0 {
      ColumnsAreEval(a, b, tmp, m - 1);
    }
  }

  lemma ProductEval(a: seq<nat>, b: seq<nat>, tmp: seq<nat>)
    requires |a| == |b| == 9 && |tmp| == 17 && forall k :: 0 <= k < 17 ==> tmp[k] == Column(a, b, 9, k)
    ensures Eval(tmp) == Eval(a) * Eval(b)
  {
    hide Column, Columns, EvalUpTo;
    ColumnsAreEval(a, b, tmp, 17);
    RowsMultiply(a, b, 9);
  }

  lemma MulColumnsAre(a: seq<nat>, b: seq<nat>)
    requires |a| == |b| == 9
    ensures Column(a, b, 9, 0) == Prod(a[0], b[0], 1)
    ensures Column(a, b, 9, 1) == Prod(a[0], b[1], 1) + Prod(a[1], b[0], 1)
    ensures Column(a, b, 9, 2) == Prod(a[0], b[2], 1) + Prod(a[1], b[1], 2) + Prod(a[2], b[0], 1)
    ensures Column(a, b, 9, 3) == Prod(a[0], b[3], 1) + Prod(a[1], b[2], 1) + Prod(a[2], b[1], 1) +
            Prod(a[3], b[0], 1)
    ensures Column(a, b, 9, 4) == Prod(a[0], b[4], 1) + Prod(a[1], b[3], 2) + Prod(a[2], b[2], 1) +
            Prod(a[3], b[1], 2) + Prod(a[4], b[0], 1)
    ensures Column(a, b, 9, 5) == Prod(a[0], b[5], 1) + Prod(a[1], b[4], 1) + Prod(a[2], b[3], 1) +
            Prod(a[3], b[2], 1) + Prod(a[4], b[1], 1) + Prod(a[5], b[0], 1)
    ensures Column(a, b, 9, 6) == Prod(a[0], b[6], 1) + Prod(a[1], b[5], 2) + Prod(a[2], b[4], 1) +
            Prod(a[3], b[3], 2) + Prod(a[4], b[2], 1) + Prod(a[5], b[1], 2) + Prod(a[6], b[0], 1)
    ensures Column(a, b, 9, 7) == Prod(a[0], b[7], 1) + Prod(a[1], b[6], 1) + Prod(a[2], b[5], 1) +
            Prod(a[3], b[4], 1) + Prod(a[4], b[3], 1) + Prod(a[5], b[2], 1) + Prod(a[6], b[1], 1) + Prod(a[7], b[0], 1)
    ensures Column(a, b, 9, 8) == Prod(a[0], b[8], 1) + Prod(a[1], b[7], 2) + Prod(a[2], b[6], 1) +
            Prod(a[3], b[5], 2) + Prod(a[4], b[4], 1) + Prod(a[5], b[3], 2) + Prod(a[6], b[2], 1) +
            Prod(a[7], b[1], 2) + Prod(a[8], b[0], 1)
    ensures Column(a, b, 9, 9) == Prod(a[1], b[8], 1) + Prod(a[2], b[7], 1) + Prod(a[3], b[6], 1) +
            Prod(a[4], b[5], 1) + Prod(a[5], b[4], 1) + Prod(a[6], b[3], 1) + Prod(a[7], b[2], 1) + Prod(a[8], b[1], 1)
    ensures Column(a, b, 9, 10) == Prod(a[2], b[8], 1) + Prod(a[3], b[7], 2) + Prod(a[4], b[6], 1) +
            Prod(a[5], b[5], 2) + Prod(a[6], b[4], 1) + Prod(a[7], b[3], 2) + Prod(a[8], b[2], 1)
    ensures Column(a, b, 9, 11) == Prod(a[3], b[8], 1) + Prod(a[4], b[7], 1) + Prod(a[5], b[6], 1) +
            Prod(a[6], b[5], 1) + Prod(a[7], b[4], 1) + Prod(a[8], b[3], 1)
    ensures Column(a, b, 9, 12) == Prod(a[4], b[8], 1) + Prod(a[5], b[7], 2) + Prod(a[6], b[6], 1) +
            Prod(a[7], b[5], 2) + Prod(a[8], b[4], 1)
    ensures Column(a, b, 9, 13) == Prod(a[5], b[8], 1) + Prod(a[6], b[7], 1) + Prod(a[7], b[6], 1) +
            Prod(a[8], b[5], 1)
    ensures Column(a, b, 9, 14) == Prod(a[6], b[8], 1) + Prod(a[7], b[7], 2) + Prod(a[8], b[6], 1)
    ensures Column(a, b, 9, 15) == Prod(a[7], b[8], 1) + Prod(a[8], b[7], 1)
    ensures Column(a, b, 9, 16) == Prod(a[8], b[8], 1)
  {
    hide Column, Prod;
    ColumnUnrolled(a, b, 0);
    ColumnUnrolled(a, b, 1);
    ColumnUnrolled(a, b, 2);
    ColumnUnrolled(a, b, 3);
    ColumnUnrolled(a, b, 4);
    ColumnUnrolled(a, b, 5);
    ColumnUnrolled(a, b, 6);
    ColumnUnrolled(a, b, 7);
    ColumnUnrolled(a, b, 8);
    ColumnUnrolled(a, b, 9);
    ColumnUnrolled(a, b, 10);
    ColumnUnrolled(a, b, 11);
    ColumnUnrolled(a, b, 12);
    ColumnUnrolled(a, b, 13);
    ColumnUnrolled(a, b, 14);
    ColumnUnrolled(a, b, 15);
    ColumnUnrolled(a, b, 16);
  }

  /** The columns of a product. */
  function ProductColumns(a: seq<nat>, b: seq<nat>): (r: seq<nat>)
    requires |a| == |b| == 9
    ensures |r| == 17
  {
    seq(17, k requires 0 <= k < 17 => Column(a, b, 9, k))
  }

  /** The 17 limbs that multiplication starts from: their value is the exact product, and none overflows 64 bits. */
  method MulColumns(a: array<U32>, b: array<U32>) returns (tmp: array<nat>)
    requires a.Length == b.Length == 9 && Bounded(a[..]) && Bounded(b[..])
    ensures fresh(tmp) && tmp.Length == 17 && forall k :: 0 <= k < 17 ==> tmp[k] < TWO_64
    ensures tmp[..] == ProductColumns(a[..], b[..]) && Eval(tmp[..]) == Eval(a[..]) * Eval(b[..])
  {
    hide Column, Eval, Bounded, Prod;
    var x: seq<nat>, y: seq<nat> := a[..], b[..];
    var t0 := Prod(x[0], y[0], 1);
    var t1 := Prod(x[0], y[1], 1) + Prod(x[1], y[0], 1);
    var t2 := Prod(x[0], y[2], 1) + Prod(x[1], y[1], 2) + Prod(x[2], y[0], 1);
    var t3 := Prod(x[0], y[3], 1) + Prod(x[1], y[2], 1) + Prod(x[2], y[1], 1) + Prod(x[3], y[0], 1);
    var t4 := Prod(x[0], y[4], 1) + Prod(x[1], y[3], 2) + Prod(x[2], y[2], 1) + Prod(x[3], y[1], 2) +
      Prod(x[4], y[0], 1);
    var t5 := Prod(x[0], y[5], 1) + Prod(x[1], y[4], 1) + Prod(x[2], y[3], 1) + Prod(x[3], y[2], 1) +
      Prod(x[4], y[1], 1) + Prod(x[5], y[0], 1);
    var t6 := Prod(x[0], y[6], 1) + Prod(x[1], y[5], 2) + Prod(x[2], y[4], 1) + Prod(x[3], y[3], 2) +
      Prod(x[4], y[2], 1) + Prod(x[5], y[1], 2) + Prod(x[6], y[0], 1);
    var t7 := Prod(x[0], y[7], 1) + Prod(x[1], y[6], 1) + Prod(x[2], y[5], 1) + Prod(x[3], y[4], 1) +
      Prod(x[4], y[3], 1) + Prod(x[5], y[2], 1) + Prod(x[6], y[1], 1) + Prod(x[7], y[0], 1);
    var t8 := Prod(x[0], y[8], 1) + Prod(x[1], y[7], 2) + Prod(x[2], y[6], 1) + Prod(x[3], y[5], 2) +
      Prod(x[4], y[4], 1) + Prod(x[5], y[3], 2) + Prod(x[6], y[2], 1) + Prod(x[7], y[1], 2) + Prod(x[8], y[0], 1);
    var t9 := Prod(x[1], y[8], 1) + Prod(x[2], y[7], 1) + Prod(x[3], y[6], 1) + Prod(x[4], y[5], 1) +
      Prod(x[5], y[4], 1) + Prod(x[6], y[3], 1) + Prod(x[7], y[2], 1) + Prod(x[8], y[1], 1);
    var t10 := Prod(x[2], y[8], 1) + Prod(x[3], y[7], 2) + Prod(x[4], y[6], 1) + Prod(x[5], y[5], 2) +
      Prod(x[6], y[4], 1) + Prod(x[7], y[3], 2) + Prod(x[8], y[2], 1);
    var t11 := Prod(x[3], y[8], 1) + Prod(x[4], y[7], 1) + Prod(x[5], y[6], 1) + Prod(x[6], y[5], 1) +
      Prod(x[7], y[4], 1) + Prod(x[8], y[3], 1);
    var t12 := Prod(x[4], y[8], 1) + Prod(x[5], y[7], 2) + Prod(x[6], y[6], 1) + Prod(x[7], y[5], 2) +
      Prod(x[8], y[4], 1);
    var t13 := Prod(x[5], y[8], 1) + Prod(x[6], y[7], 1) + Prod(x[7], y[6], 1) + Prod(x[8], y[5], 1);
    var t14 := Prod(x[6], y[8], 1) + Prod(x[7], y[7], 2) + Prod(x[8], y[6], 1);
    var t15 := Prod(x[7], y[8], 1) + Prod(x[8], y[7], 1);
    var t16 := Prod(x[8], y[8], 1);
    MulColumnsAre(x, y);
    tmp := new nat[17][t0, t1, t2, t3, t4, t5, t6, t7, t8, t9, t10, t11, t12, t13, t14, t15, t16];
    ColumnsFound(x, y, tmp[..]);
  }

  lemma ColumnsFound(a: seq<nat>, b: seq<nat>, tmp: seq<nat>)
    requires Bounded(a) && Bounded(b) && |tmp| == 17
    requires forall k :: 0 <= k < 17 ==> tmp[k] == Column(a, b, 9, k)
    ensures Eval(tmp) == Eval(a) * Eval(b) && forall k :: 0 <= k < 17 ==> tmp[k] < TWO_64
    ensures tmp == ProductColumns(a, b)
  {
    hide Column, Eval;
    ProductEval(a, b, tmp);
    forall k | 0 <= k < 17
      ensures tmp[k] < TWO_64
    {
      ColumnFits(a, b, k);
    }
  }

  lemma Pair(x: nat, y: nat, t: nat)
    ensures Prod(x, y, t) + Prod(y, x, t) == Prod(x, y, 2 * t)
  {
  }

  lemma SquareColumnsAre(a: seq<nat>)
    requires |a| == 9
    ensures Column(a, a, 9, 0) == Prod(a[0], a[0], 1)
    ensures Column(a, a, 9, 1) == Prod(a[0], a[1], 2)
    ensures Column(a, a, 9, 2) == Prod(a[0], a[2], 2) + Prod(a[1], a[1], 2)
    ensures Column(a, a, 9, 3) == Prod(a[0], a[3], 2) + Prod(a[1], a[2], 2)
    ensures Column(a, a, 9, 4) == Prod(a[0], a[4], 2) + Prod(a[1], a[3], 4) + Prod(a[2], a[2], 1)
    ensures Column(a, a, 9, 5) == Prod(a[0], a[5], 2) + Prod(a[1], a[4], 2) + Prod(a[2], a[3], 2)
    ensures Column(a, a, 9, 6) == Prod(a[0], a[6], 2) + Prod(a[1], a[5], 4) + Prod(a[2], a[4], 2) +
            Prod(a[3], a[3], 2)
    ensures Column(a, a, 9, 7) == Prod(a[0], a[7], 2) + Prod(a[1], a[6], 2) + Prod(a[2], a[5], 2) +
            Prod(a[3], a[4], 2)
    ensures Column(a, a, 9, 8) == Prod(a[0], a[8], 2) + Prod(a[1], a[7], 4) + Prod(a[2], a[6], 2) +
            Prod(a[3], a[5], 4) + Prod(a[4], a[4], 1)
    ensures Column(a, a, 9, 9) == Prod(a[1], a[8], 2) + Prod(a[2], a[7], 2) + Prod(a[3], a[6], 2) +
            Prod(a[4], a[5], 2)
    ensures Column(a, a, 9, 10) == Prod(a[2], a[8], 2) + Prod(a[3], a[7], 4) + Prod(a[4], a[6], 2) +
            Prod(a[5], a[5], 2)
    ensures Column(a, a, 9, 11) == Prod(a[3], a[8], 2) + Prod(a[4], a[7], 2) + Prod(a[5], a[6], 2)
    ensures Column(a, a, 9, 12) == Prod(a[4], a[8], 2) + Prod(a[5], a[7], 4) + Prod(a[6], a[6], 1)
    ensures Column(a, a, 9, 13) == Prod(a[5], a[8], 2) + Prod(a[6], a[7], 2)
    ensures Column(a, a, 9, 14) == Prod(a[6], a[8], 2) + Prod(a[7], a[7], 2)
    ensures Column(a, a, 9, 15) == Prod(a[7], a[8], 2)
    ensures Column(a, a, 9, 16) == Prod(a[8], a[8], 1)
  {
    hide Column, Prod;
    MulColumnsAre(a, a);
    Pair(a[0], a[1], 1);
    Pair(a[0], a[2], 1);
    Pair(a[0], a[3], 1);
    Pair(a[1], a[2], 1);
    Pair(a[0], a[4], 1);
    Pair(a[1], a[3], 2);
    Pair(a[0], a[5], 1);
    Pair(a[1], a[4], 1);
    Pair(a[2], a[3], 1);
    Pair(a[0], a[6], 1);
    Pair(a[1], a[5], 2);
    Pair(a[2], a[4], 1);
    Pair(a[0], a[7], 1);
    Pair(a[1], a[6], 1);
    Pair(a[2], a[5], 1);
    Pair(a[3], a[4], 1);
    Pair(a[0], a[8], 1);
    Pair(a[1], a[7], 2);
    Pair(a[2], a[6], 1);
    Pair(a[3], a[5], 2);
    Pair(a[1], a[8], 1);
    Pair(a[2], a[7], 1);
    Pair(a[3], a[6], 1);
    Pair(a[4], a[5], 1);
    Pair(a[2], a[8], 1);
    Pair(a[3], a[7], 2);
    Pair(a[4], a[6], 1);
    Pair(a[3], a[8], 1);
    Pair(a[4], a[7], 1);
    Pair(a[5], a[6], 1);
    Pair(a[4], a[8], 1);
    Pair(a[5], a[7], 2);
    Pair(a[5], a[8], 1);
    Pair(a[6], a[7], 1);
    Pair(a[6], a[8], 1);
    Pair(a[7], a[8], 1);
  }

  /** Squaring adds equal terms up first and gives the same limbs. */
  method SquareColumns(a: array<U32>) returns (tmp: array<nat>)
    requires a.Length == 9 && Bounded(a[..])
    ensures fresh(tmp) && tmp.Length == 17 && forall k :: 0 <= k < 17 ==> tmp[k] < TWO_64
    ensures tmp[..] == ProductColumns(a[..], a[..]) && Eval(tmp[..]) == Eval(a[..]) * Eval(a[..])
  {
    hide Column, Eval, Bounded, Prod;
    var x: seq<nat> := a[..];
    var t0 := Prod(x[0], x[0], 1);
    var t1 := Prod(x[0], x[1], 2);
    var t2 := Prod(x[0], x[2], 2) + Prod(x[1], x[1], 2);
    var t3 := Prod(x[0], x[3], 2) + Prod(x[1], x[2], 2);
    var t4 := Prod(x[0], x[4], 2) + Prod(x[1], x[3], 4) + Prod(x[2], x[2], 1);
    var t5 := Prod(x[0], x[5], 2) + Prod(x[1], x[4], 2) + Prod(x[2], x[3], 2);
    var t6 := Prod(x[0], x[6], 2) + Prod(x[1], x[5], 4) + Prod(x[2], x[4], 2) + Prod(x[3], x[3], 2);
    var t7 := Prod(x[0], x[7], 2) + Prod(x[1], x[6], 2) + Prod(x[2], x[5], 2) + Prod(x[3], x[4], 2);
    var t8 := Prod(x[0], x[8], 2) + Prod(x[1], x[7], 4) + Prod(x[2], x[6], 2) + Prod(x[3], x[5], 4) +
      Prod(x[4], x[4], 1);
    var t9 := Prod(x[1], x[8], 2) + Prod(x[2], x[7], 2) + Prod(x[3], x[6], 2) + Prod(x[4], x[5], 2);
    var t10 := Prod(x[2], x[8], 2) + Prod(x[3], x[7], 4) + Prod(x[4], x[6], 2) + Prod(x[5], x[5], 2);
    var t11 := Prod(x[3], x[8], 2) + Prod(x[4], x[7], 2) + Prod(x[5], x[6], 2);
    var t12 := Prod(x[4], x[8], 2) + Prod(x[5], x[7], 4) + Prod(x[6], x[6], 1);
    var t13 := Prod(x[5], x[8], 2) + Prod(x[6], x[7], 2);
    var t14 := Prod(x[6], x[8], 2) + Prod(x[7], x[7], 2);
    var t15 := Prod(x[7], x[8], 2);
    var t16 := Prod(x[8], x[8], 1);
    SquareColumnsAre(x);
    tmp := new nat[17][t0, t1, t2, t3, t4, t5, t6, t7, t8, t9, t10, t11, t12, t13, t14, t15, t16];
    ColumnsFound(x, x, tmp[..]);
  }

  // ------------------------------------------------------------- from and to integers

  const R_QUOTIENT: nat := 0xfffffffc_00000001_fffffffe_00000000_ffffffff_00000001_00000000_00000001

  lemma SameResidue(x: int, y: int, k: int)
    requires x + k * P == y
    ensures x % P == y % P
  {
  }

  /** Cuts a * 2^257 modulo the prime into limbs, from the lowest up. */
  method FromBig(limbs: array<U32>, a: int)
    requires limbs.Length == 9
    modifies limbs
    ensures Bounded(limbs[..]) && Eval(limbs[..]) == (a * TWO_257) % P
    ensures forall k :: 0 <= k < 9 ==> limbs[k] < Radix(k)
  {
    hide Weight, EvalUpTo, Radix, Eval;
    var x := (a * TWO_257) % P;
    ghost var whole: nat, done: seq<nat> := x, [];
    EvalNone([], []);
    Weights();
    for i := 0 to 9
      invariant x >= 0 && |done| == i && forall k :: 0 <= k < i ==> limbs[k] == done[k] < Radix(k)
      invariant Eval(done) + x * Weight(i) == whole
    {
      EvalSnoc(done, x % Radix(i));
      SplitLimb(x, Weight(i), Radix(i));
      WeightNext(i);
      limbs[i] := x % Radix(i);
      done := done + [x % Radix(i)];
      x := x / Radix(i);
    }
    assert limbs[..] == done;
    ValueNotNegative(done);
    NothingLeft(x, Eval(done));
  }

  lemma ValueNotNegative(s: seq<nat>)
    ensures Eval(s) >= 0
  {
    EvalNotNegative(s, |s|);
  }

  lemma WeightNext(i: nat)
    ensures Weight(i + 1) == Weight(i) * Radix(i)
  {
  }

  lemma NothingLeft(x: nat, low: nat)
    requires low + x * TWO_257 < P
    ensures x == 0
  {
  }

  /** Puts the limbs together from the highest down and undoes the factor 2^257. */
  method ToBig(limbs: array<U32>) returns (r: int)
    requires limbs.Length == 9
    ensures r == (Eval(limbs[..]) * R_INVERSE) % P
  {
    hide Weight, EvalUpTo;
    ghost var x: seq<nat> := limbs[..];
    r := limbs[8];
    EvalNext(x, 8);
    var i := 8;
    while i > 0
      invariant 0 <= i <= 8 && r * Weight(i) + EvalUpTo(x, i) == Eval(x)
    {
      i := i - 1;
      EvalNext(x, i);
      WeightNext(i);
      Associate(r, Radix(i), Weight(i));
      Distribute(r * Radix(i), limbs[i], 0, Weight(i));
      r := r * Radix(i) + limbs[i];
    }
    EvalNone(x, x);
    Weights();
    r := (r * R_INVERSE) % P;
  }

  lemma EvalNext(x: seq<nat>, i: nat)
    requires i < |x|
    ensures EvalUpTo(x, i + 1) == EvalUpTo(x, i) + x[i] * Weight(i)
  {
  }

  /** Going to limbs and back is reduction modulo the prime. */
  lemma ToBigOfFromBig(a: int)
    ensures (((a * TWO_257) % P) * R_INVERSE) % P == a % P
  {
    var y := a * TWO_257;
    var q, x := y / P, y % P;
    assert TWO_257 * R_INVERSE == 1 + R_QUOTIENT * P;
    Distribute(q * P, x, 0, R_INVERSE);
    Associate(a, TWO_257, R_INVERSE);
    Spread(a, 1, R_QUOTIENT * P);
    Associate(a, R_QUOTIENT, P);
    assert y * R_INVERSE == a + a * R_QUOTIENT * P;
    assert q * P * R_INVERSE == q * R_INVERSE * P;
    var k := q * R_INVERSE - a * R_QUOTIENT;
    Distribute(q * R_INVERSE, -(a * R_QUOTIENT), 0, P);
    SameResidue(x * R_INVERSE, a, k);
  }
}
