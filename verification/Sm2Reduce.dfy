// basis/crypto/sm2/p256.go, sm2P256ReduceDegree: from the 17 columns of a product
// to nine limbs that stand for the product divided by 2^257 modulo the prime.
// Nine times the lowest limb is made zero by adding a multiple of the prime.
module Sm2Reduce {
  import opened Sm2Field

  function Wrap(n: int): U32 {
    n % TWO_32
  }

  function Bit(b: bool): nat {
    if b then 1 else 0
  }

  // ------------------------------------------------------------ weights from limb i on

  /** The weight of limb i + d relative to that of limb i. */
  function Rel(i: nat, d: nat): nat {
    if d == 0 then 1 else Rel(i, d - 1) * Radix(i + d - 1)
  }

  lemma {:induction false} WeightRel(i: nat, d: nat)
    ensures Weight(i + d) == Weight(i) * Rel(i, d)
  {
    hide Radix;
    if d > 0 {
      WeightRel(i, d - 1);
      Associate(Weight(i), Rel(i, d - 1), Radix(i + d - 1));
    }
  }

  const T57: nat := 0x200_0000_0000_0000
  const T85: nat := 0x20_0000_0000_0000_0000_0000
  const T86: nat := 0x40_0000_0000_0000_0000_0000
  const T114: nat := 0x4_0000_0000_0000_0000_0000_0000_0000
  const T142: nat := 0x4000_0000_0000_0000_0000_0000_0000_0000_0000
  const T143: nat := 0x8000_0000_0000_0000_0000_0000_0000_0000_0000
  const T171: nat := 0x800_0000_0000_0000_0000_0000_0000_0000_0000_0000_0000
  const T199: nat := 0x80_0000_0000_0000_0000_0000_0000_0000_0000_0000_0000_0000_0000
  const T200: nat := 0x100_0000_0000_0000_0000_0000_0000_0000_0000_0000_0000_0000_0000
  const T228: nat := 0x10_0000_0000_0000_0000_0000_0000_0000_0000_0000_0000_0000_0000_0000_0000
  const T256: nat := 0x1_0000_0000_0000_0000_0000_0000_0000_0000_0000_0000_0000_0000_0000_0000_0000_0000
  const T257: nat := 0x2_0000_0000_0000_0000_0000_0000_0000_0000_0000_0000_0000_0000_0000_0000_0000_0000

  lemma Rels(i: nat)
    ensures Rel(i, 2) == T57 && Rel(i, 4) == T114 && Rel(i, 6) == T171 && Rel(i, 8) == T228
    ensures i % 2 == 0 ==> Rel(i, 3) == T86 && Rel(i, 5) == T143 && Rel(i, 7) == T200 && Rel(i, 9) == T257
    ensures i % 2 == 1 ==> Rel(i, 3) == T85 && Rel(i, 5) == T142 && Rel(i, 7) == T199 && Rel(i, 9) == T256
  {
    assert Rel(i, 1) == Radix(i);
    assert Rel(i, 2) == T57;
    assert Rel(i, 3) == T57 * Radix(i);
    assert Rel(i, 4) == T114;
    assert Rel(i, 5) == T114 * Radix(i);
    assert Rel(i, 6) == T171;
    assert Rel(i, 7) == T171 * Radix(i);
    assert Rel(i, 8) == T228;
    assert Rel(i, 9) == T228 * Radix(i);
  }

  // --------------------------------------------------------------- one elimination

  /** What x times the prime plus one, 2^256 - 2^224 - 2^96 + 2^64, adds up to at limb i: shares that go to a limb and
      to the next one. */
  datatype Shares = Shares(a: nat, b: nat, c: nat, d: nat)

  function SharesOf(i: nat, x: nat): Shares {
    var e := if i % 2 == 0 then 1 else 2;
    Shares(x * 0x80, x * (0x400 * e), x * (0x100_0000 * e), x * TWO_28)
  }

  /** Which limbs borrow from the next one. */
  datatype Borrows = Borrows(b3: nat, b4: nat, b5: nat, b6: nat, b7: nat, b8: nat)

  function BorrowsOf(s: seq<nat>, i: nat, x: nat): Borrows
    requires |s| == 18 && i <= 8
  {
    var sh := SharesOf(i, x);
    var four := s[i + 4] < Radix(i + 4);
    var five := four && s[i + 5] < Radix(i + 5);
    Borrows(Bit(Wrap(s[i + 3] + High(sh.a, i + 2)) < Radix(i + 3)), Bit(four), Bit(five),
            Bit(five && s[i + 6] < Radix(i + 6)), Bit(s[i + 7] < Radix(i + 7)),
            Bit(Wrap(s[i + 8] + Low(sh.d, i + 8)) < Radix(i + 8)))
  }

  /** Limb i + d once x times the prime plus one has been added, before it is cut to 32 bits. */
  function Limb(s: seq<nat>, i: nat, x: nat, d: nat): int
    requires |s| == 18 && i <= 8 && 2 <= d <= 9
  {
    var sh, b, o := SharesOf(i, x), BorrowsOf(s, i, x), s[i + d];
    if d == 2 then o + Low(sh.a, i + 2)
    else if d == 3 then o + High(sh.a, i + 2) + Radix(i + 3) * b.b3 - Low(sh.b, i + 3)
    else if d == 4 then o + Radix(i + 4) * b.b4 - b.b3 - High(sh.b, i + 3)
    else if d == 5 then o + Radix(i + 5) * b.b5 - b.b4
    else if d == 6 then o + Radix(i + 6) * b.b6 - b.b5
    else if d == 7 then o + Radix(i + 7) * b.b7 - b.b6 - Low(sh.c, i + 7)
    else if d == 8 then o + Low(sh.d, i + 8) + Radix(i + 8) * b.b8 - b.b7 - High(sh.c, i + 7)
    else o + High(sh.d, i + 8) - b.b8
  }

  /** The change of limb i + d at its relative weight. */
  function Change(s: seq<nat>, i: nat, x: nat, d: nat): int
    requires |s| == 18 && i <= 8 && 2 <= d <= 9
  {
    (Limb(s, i, x, d) - s[i + d]) * Rel(i, d)
  }

  /** Lending and borrowing cancel out, at the weights from an even limb on and from an odd one on. */
  lemma EvenBalance(x: int, a0: int, a1: int, b0: int, b1: int, c0: int, c1: int, d0: int, d1: int, b: Borrows)
    requires a0 + a1 * TWO_29 == x * 0x80 && b0 + b1 * TWO_28 == x * 0x400
    requires c0 + c1 * TWO_28 == x * 0x100_0000 && d0 + d1 * TWO_29 == x * TWO_28
    ensures a0 * T57 + (a1 + TWO_28 * b.b3 - b0) * T86 + (TWO_29 * b.b4 - b.b3 - b1) * T114
            + (TWO_28 * b.b5 - b.b4) * T143 + (TWO_29 * b.b6 - b.b5) * T171 + (TWO_28 * b.b7 - b.b6 - c0) * T200
            + (d0 + TWO_29 * b.b8 - b.b7 - c1) * T228 + (d1 - b.b8) * T257 == x * (P + 1)
  {
  }

  lemma OddBalance(x: int, a0: int, a1: int, b0: int, b1: int, c0: int, c1: int, d0: int, d1: int, b: Borrows)
    requires a0 + a1 * TWO_28 == x * 0x80 && b0 + b1 * TWO_29 == x * 0x800
    requires c0 + c1 * TWO_29 == x * 0x200_0000 && d0 + d1 * TWO_28 == x * TWO_28
    ensures a0 * T57 + (a1 + TWO_29 * b.b3 - b0) * T85 + (TWO_28 * b.b4 - b.b3 - b1) * T114
            + (TWO_29 * b.b5 - b.b4) * T142 + (TWO_28 * b.b6 - b.b5) * T171 + (TWO_29 * b.b7 - b.b6 - c0) * T199
            + (d0 + TWO_28 * b.b8 - b.b7 - c1) * T228 + (d1 - b.b8) * T256 == x * (P + 1)
  {
  }

  lemma LowHigh(n: nat, i: nat)
    ensures Low(n, i) + High(n, i) * Radix(i) == n
  {
  }

  lemma Radices(i: nat)
    ensures Radix(i + 2) == Radix(i + 4) == Radix(i + 6) == Radix(i + 8) == Radix(i)
    ensures Radix(i + 3) == Radix(i + 5) == Radix(i + 7) == Radix(i + 9) == Radix(i + 1)
    ensures i % 2 == 0 ==> Radix(i) == TWO_29 && Radix(i + 1) == TWO_28
    ensures i % 2 == 1 ==> Radix(i) == TWO_28 && Radix(i + 1) == TWO_29
  {
  }

  lemma ChangesAddUp(s: seq<nat>, i: nat, x: nat)
    requires |s| == 18 && i <= 8
    ensures Change(s, i, x, 2) + Change(s, i, x, 3) + Change(s, i, x, 4) + Change(s, i, x, 5) + Change(s, i, x, 6) +
            Change(s, i, x, 7) + Change(s, i, x, 8) + Change(s, i, x, 9) == x * (P + 1)
  {
    hide Rel, BorrowsOf, Radix, Low, High;
    Rels(i);
    Radices(i);
    var sh, b := SharesOf(i, x), BorrowsOf(s, i, x);
    LowHigh(sh.a, i + 2);
    LowHigh(sh.b, i + 3);
    LowHigh(sh.c, i + 7);
    LowHigh(sh.d, i + 8);
    if i % 2 == 0 {
      EvenBalance(x, Low(sh.a, i + 2), High(sh.a, i + 2), Low(sh.b, i + 3), High(sh.b, i + 3),
                  Low(sh.c, i + 7), High(sh.c, i + 7), Low(sh.d, i + 8), High(sh.d, i + 8), b);
    } else {
      OddBalance(x, Low(sh.a, i + 2), High(sh.a, i + 2), Low(sh.b, i + 3), High(sh.b, i + 3),
                 Low(sh.c, i + 7), High(sh.c, i + 7), Low(sh.d, i + 8), High(sh.d, i + 8), b);
    }
  }

  // ---------------------------------------------------------------- debts and bounds

  /** Words from here on stand for limbs below zero that have wrapped around. */
  const DEBT: nat := 0xC000_0000

  /** The limb that a word stands for. */
  function Read(w: nat): int {
    if w < DEBT then w else w - TWO_32
  }

  function ReadAll(s: seq<nat>): (r: seq<int>)
    ensures |r| == |s|
  {
    seq(|s|, k requires 0 <= k < |s| => Read(s[k]))
  }

  lemma ReadWrap(w: nat, n: int)
    requires w < TWO_32 && 0 <= Read(w) + n + TWO_30 < TWO_32
    ensures Read(Wrap(w + n)) == Read(w) + n
  {
  }

  /** Below what a limb is when the one d places below it is eliminated. */
  function Bound(d: nat): nat {
    if d == 0 then 0x7000_0000 else if d == 1 then 0x6000_0100 else if d == 2 then 0x4000_0100
    else if d <= 7 then TWO_30 else if d == 8 then 0x3000_0000 else TWO_29
  }

  /** The last limb is larger, and only the last elimination reaches it. */
  function Ceiling(k: nat, i: nat): nat
    requires i <= k
  {
    if k < 17 then Bound(k - i) else if i <= 8 then 0x8000_0200 else 0xA000_0000
  }

  /** How far below zero limb k can be when the one d places below it is eliminated: only the odd limbs from nine on,
      once an elimination has borrowed from them. */
  function Floor(k: nat, d: nat): int {
    if k < 9 || k % 2 == 0 || d >= 9 then 0
    else if d == 8 then -1 else if d == 7 then -0x200_0001 else if d >= 4 then -0x1200_0000 - (6 - d)
    else if d == 3 then -0x1200_0803 else -0x2200_0803
  }

  predicate Words(s: seq<nat>) {
    forall k :: 0 <= k < |s| ==> s[k] < TWO_32
  }

  predicate LimbInRange(s: seq<nat>, i: nat, k: nat)
    requires i <= k < |s|
  {
    s[k] < TWO_32 && Floor(k, k - i) <= Read(s[k]) < Ceiling(k, i)
  }

  predicate InRange(s: seq<nat>, i: nat) {
    && |s| == 18 && i <= 9 && (forall k :: 0 <= k < i ==> s[k] == 0)
    && (forall k :: i <= k < 18 ==> LimbInRange(s, i, k))
  }

  lemma ShareA(i: nat, x: nat)
    requires x < Radix(i)
    ensures var a := SharesOf(i, x).a; Low(a, i + 2) < Radix(i) && High(a, i + 2) < 0x80
  {
  }

  lemma ShareB(i: nat, x: nat)
    requires x < Radix(i)
    ensures var b := SharesOf(i, x).b; Low(b, i + 3) < Radix(i + 1) && High(b, i + 3) < 0x800
  {
  }

  lemma ShareC(i: nat, x: nat)
    requires x < Radix(i)
    ensures var c := SharesOf(i, x).c; Low(c, i + 7) <= Radix(i + 1) - 2 && High(c, i + 7) < 0x200_0000
  {
    if i % 2 == 0 {
      Cut(x * 0x100_0000, 1, x / 16, (x % 16) * 0x100_0000);
    } else {
      Cut(x * 0x200_0000, 0, x / 16, (x % 16) * 0x200_0000);
    }
  }

  lemma Cut(n: nat, k: nat, q: nat, low: nat)
    requires n == low + q * Radix(k) && low < Radix(k)
    ensures Low(n, k) == low && High(n, k) == q
  {
  }

  lemma ShareD(i: nat, x: nat)
    requires x < Radix(i)
    ensures var d := SharesOf(i, x).d;
            && Low(d, i + 8) <= TWO_28 && High(d, i + 8) < TWO_28
            && (i % 2 == 1 ==> High(d, i + 8) == x && Low(d, i + 8) == 0)
            && (i % 2 == 0 ==> High(d, i + 8) == x / 2 && Low(d, i + 8) == x % 2 * TWO_28)
  {
    if i % 2 == 0 {
      assert x * TWO_28 == (x % 2) * TWO_28 + (x / 2) * TWO_29;
    }
  }

  /** Limb i + d as it is read once x times the prime plus one has been added. */
  function Next(s: seq<nat>, i: nat, x: nat, d: nat): int
    requires |s| == 18 && i <= 8 && 2 <= d <= 9
  {
    Read(s[i + d]) + Limb(s, i, x, d) - s[i + d]
  }

  /** It stays within the bounds for the next elimination, and gets below zero only if it was there before or if an
      even elimination borrows from an empty limb. */
  predicate NextInRange(s: seq<nat>, i: nat, x: nat, d: nat)
    requires |s| == 18 && i <= 8 && 2 <= d <= 9
  {
    && Floor(i + d, d - 1) <= Next(s, i, x, d) < Ceiling(i + d, i + 1)
    && (Read(s[i + d]) >= 0 && !(d == 9 && i % 2 == 0 && s[i + 9] == 0) ==> Next(s, i, x, d) >= 0)
  }

  lemma LowInRange(s: seq<nat>, i: nat, x: nat)
    requires |s| == 18 && i <= 8 && 0 < x < Radix(i) && LimbInRange(s, i, i + 2) && LimbInRange(s, i, i + 4)
    ensures NextInRange(s, i, x, 2) && NextInRange(s, i, x, 4)
  {
    hide Low, High, SharesOf, Radix, Wrap;
    ShareA(i, x);
    ShareB(i, x);
    Radices(i);
  }

  lemma MiddleInRange(s: seq<nat>, i: nat, x: nat)
    requires |s| == 18 && i <= 8 && 0 < x < Radix(i)
    requires LimbInRange(s, i, i + 5) && LimbInRange(s, i, i + 6) && LimbInRange(s, i, i + 7)
    ensures NextInRange(s, i, x, 5) && NextInRange(s, i, x, 6) && NextInRange(s, i, x, 7)
  {
    hide Low, High, SharesOf, Radix, Wrap;
    ShareC(i, x);
    Radices(i);
  }

  lemma ThirdInRange(s: seq<nat>, i: nat, x: nat)
    requires |s| == 18 && i <= 8 && 0 < x < Radix(i) && LimbInRange(s, i, i + 3)
    ensures NextInRange(s, i, x, 3)
  {
    hide Low, High, SharesOf, Radix, Wrap;
    ShareA(i, x);
    ShareB(i, x);
    Radices(i);
    var n := High(SharesOf(i, x).a, i + 2);
    ReadWrap(s[i + 3], n);
  }

  lemma TopInRange(s: seq<nat>, i: nat, x: nat)
    requires |s| == 18 && i <= 8 && 0 < x < Radix(i) && LimbInRange(s, i, i + 8) && LimbInRange(s, i, i + 9)
    ensures NextInRange(s, i, x, 8) && NextInRange(s, i, x, 9)
  {
    hide Low, High, SharesOf, Radix, Wrap;
    ShareC(i, x);
    ShareD(i, x);
    Radices(i);
    ReadWrap(s[i + 8], Low(SharesOf(i, x).d, i + 8));
  }

  lemma LimbsInRange(s: seq<nat>, i: nat, x: nat)
    requires |s| == 18 && i <= 8 && 0 < x < Radix(i) && forall k :: i + 2 <= k < 18 ==> LimbInRange(s, i, k)
    ensures forall d :: 2 <= d <= 9 ==> NextInRange(s, i, x, d)
  {
    hide NextInRange, LimbInRange, Radix;
    LowInRange(s, i, x);
    MiddleInRange(s, i, x);
    ThirdInRange(s, i, x);
    TopInRange(s, i, x);
  }

  /** The limbs with the first one's digit made zero: its carry goes to the next limb, and if the digit is not zero a
      multiple of the prime is added. */
  function Eliminate(s: seq<nat>, i: nat): (r: seq<nat>)
    requires |s| == 18 && i <= 8
    ensures |r| == 18
  {
    var x, t := Low(s[i], i), Cleared(s, i);
    if x == 0 then t else Added(t, i, x)
  }

  function Added(t: seq<nat>, i: nat, x: nat): (r: seq<nat>)
    requires |t| == 18 && i <= 8
    ensures |r| == 18
  {
    t[i + 2 := Wrap(Limb(t, i, x, 2))][i + 3 := Wrap(Limb(t, i, x, 3))][i + 4 := Wrap(Limb(t, i, x, 4))]
     [i + 5 := Wrap(Limb(t, i, x, 5))][i + 6 := Wrap(Limb(t, i, x, 6))][i + 7 := Wrap(Limb(t, i, x, 7))]
     [i + 8 := Wrap(Limb(t, i, x, 8))][i + 9 := Wrap(Limb(t, i, x, 9))]
  }

  lemma {:induction false} EvalSet(s: seq<int>, k: nat, v: int, n: nat)
    requires k < |s| && n <= |s|
    ensures EvalUpTo(s[k := v], n) == EvalUpTo(s, n) + if k < n then (v - s[k]) * Weight(k) else 0
  {
    hide Weight;
    if n > 0 {
      EvalSet(s, k, v, n - 1);
      if k == n - 1 {
        Spread(v - s[k], s[k], Weight(k));
      }
    }
  }

  lemma SetLimb(s: seq<int>, k: nat, v: int)
    requires k < |s|
    ensures Eval(s[k := v]) == Eval(s) + (v - s[k]) * Weight(k)
  {
    hide EvalUpTo, Weight;
    EvalSet(s, k, v, |s|);
  }

  lemma Small(n: int)
    requires 0 <= n < TWO_32
    ensures Wrap(n) == n
  {
  }

  /** Eight limbs set one after the other. */
  lemma SetLimbs(t: seq<int>, i: nat, v2: int, v3: int, v4: int, v5: int, v6: int, v7: int, v8: int, v9: int)
    requires |t| == 18 && i <= 8
    ensures Eval(t[i + 2 := v2][i + 3 := v3][i + 4 := v4][i + 5 := v5]
                  [i + 6 := v6][i + 7 := v7][i + 8 := v8][i + 9 := v9])
            == Eval(t) + (v2 - t[i + 2]) * Weight(i + 2) + (v3 - t[i + 3]) * Weight(i + 3)
               + (v4 - t[i + 4]) * Weight(i + 4) + (v5 - t[i + 5]) * Weight(i + 5) + (v6 - t[i + 6]) * Weight(i + 6)
               + (v7 - t[i + 7]) * Weight(i + 7) + (v8 - t[i + 8]) * Weight(i + 8) + (v9 - t[i + 9]) * Weight(i + 9)
  {
    hide Eval, Weight;
    var t2 := t[i + 2 := v2];
    var t3 := t2[i + 3 := v3];
    var t4 := t3[i + 4 := v4];
    var t5 := t4[i + 5 := v5];
    var t6 := t5[i + 6 := v6];
    var t7 := t6[i + 7 := v7];
    var t8 := t7[i + 8 := v8];
    SetLimb(t, i + 2, v2);
    SetLimb(t2, i + 3, v3);
    SetLimb(t3, i + 4, v4);
    SetLimb(t4, i + 5, v5);
    SetLimb(t5, i + 6, v6);
    SetLimb(t6, i + 7, v7);
    SetLimb(t7, i + 8, v8);
    SetLimb(t8, i + 9, v9);
  }

  /** The limbs without the digit of limb i, its carry in the next one. */
  function Cleared(s: seq<nat>, i: nat): (t: seq<nat>)
    requires |s| == 18 && i <= 8
    ensures |t| == 18
  {
    s[i := 0][i + 1 := Wrap(s[i + 1] + High(s[i], i))]
  }

  lemma TakenOut(s: seq<nat>, i: nat)
    requires |s| == 18 && InRange(s, i) && i <= 8
    ensures var t := Cleared(s, i);
            && Eval(ReadAll(t)) + Low(s[i], i) * Weight(i) == Eval(ReadAll(s))
            && LimbInRange(t, i + 1, i + 1) && (Read(s[i + 1]) >= 0 ==> Read(t[i + 1]) >= 0)
  {
    hide Eval, Low, High, Weight, Wrap, InRange;
    var x, c := Low(s[i], i), High(s[i], i);
    CarryBound(s, i);
    ReadWrap(s[i + 1], c);
    var r := ReadAll(s);
    ClearedReads(s, i, c);
    SetLimb(r, i, 0);
    SetLimb(r[i := 0], i + 1, Read(s[i + 1]) + c);
    LowHigh(s[i], i);
    DigitWeight(s[i], x, c, i);
    Balance(Read(s[i + 1]), c, s[i], Weight(i), Weight(i + 1));
  }

  lemma Balance(r: int, c: int, n: int, w: int, w': int)
    ensures (0 - n) * w == -(n * w) && (r + c - r) * w' == c * w'
  {
  }

  lemma ClearedReads(s: seq<nat>, i: nat, c: nat)
    requires |s| == 18 && i <= 8 && c == High(s[i], i) && Read(Wrap(s[i + 1] + c)) == Read(s[i + 1]) + c
    ensures ReadAll(Cleared(s, i)) == ReadAll(s)[i := 0][i + 1 := Read(s[i + 1]) + c]
  {
    hide High, Wrap;
  }

  lemma CarryBound(s: seq<nat>, i: nat)
    requires InRange(s, i) && i <= 8
    ensures Read(s[i]) == s[i] && High(s[i], i) < 8
    ensures s[i + 1] < TWO_32 && Floor(i + 1, 0) <= Read(s[i + 1]) < 0x6000_0100
  {
    assert LimbInRange(s, i, i) && LimbInRange(s, i, i + 1);
  }

  lemma DigitWeight(n: nat, x: nat, c: nat, i: nat)
    requires x + c * Radix(i) == n
    ensures n * Weight(i) == x * Weight(i) + c * Weight(i + 1)
  {
    Spread(Weight(i), x, c * Radix(i));
    Associate(c, Radix(i), Weight(i));
  }

  lemma ChangeWeight(s: seq<nat>, i: nat, x: nat, d: nat)
    requires |s| == 18 && i <= 8 && 2 <= d <= 9
    ensures (Next(s, i, x, d) - Read(s[i + d])) * Weight(i + d) == Weight(i) * Change(s, i, x, d)
  {
    hide Limb, Weight, Rel, Read;
    WeightRel(i, d);
    var n := Limb(s, i, x, d) - s[i + d];
    Rearrange3(n, Weight(i), Rel(i, d));
  }

  lemma Rearrange3(n: int, w: int, r: int)
    ensures n * (w * r) == w * (n * r)
  {
    Associate(n, w, r);
    Associate(w, n, r);
  }

  lemma Sum8(w: int, a: int, b: int, c: int, d: int, e: int, f: int, g: int, h: int)
    ensures w * a + w * b + w * c + w * d + w * e + w * f + w * g + w * h == w * (a + b + c + d + e + f + g + h)
  {
  }

  lemma AddedAt(t: seq<nat>, i: nat, x: nat, k: nat)
    requires |t| == 18 && i <= 8 && k < 18
    ensures Added(t, i, x)[k] == if i + 2 <= k <= i + 9 then Wrap(Limb(t, i, x, k - i)) else t[k]
  {
    hide Limb, Wrap;
  }

  /** The words stand for the next limbs. */
  lemma AddedReads(t: seq<nat>, i: nat, x: nat, d: nat)
    requires |t| == 18 && i <= 8 && 2 <= d <= 9 && Words(t) && NextInRange(t, i, x, d)
    ensures Read(Wrap(Limb(t, i, x, d))) == Next(t, i, x, d)
  {
    hide Limb, Wrap;
    ReadWrap(t[i + d], Limb(t, i, x, d) - t[i + d]);
  }

  lemma AddedValue(t: seq<nat>, i: nat, x: nat)
    requires |t| == 18 && i <= 8 && Words(t) && forall d :: 2 <= d <= 9 ==> NextInRange(t, i, x, d)
    ensures Eval(ReadAll(Added(t, i, x))) == Eval(ReadAll(t)) + Weight(i) * (x * (P + 1))
  {
    hide Eval, Weight, Limb, Rel, Change, Wrap, Read, NextInRange, Next;
    var r := ReadAll(t);
    forall d | 2 <= d <= 9
      ensures Read(Wrap(Limb(t, i, x, d))) == Next(t, i, x, d)
      ensures (Next(t, i, x, d) - r[i + d]) * Weight(i + d) == Weight(i) * Change(t, i, x, d)
    {
      AddedReads(t, i, x, d);
      ChangeWeight(t, i, x, d);
    }
    assert ReadAll(Added(t, i, x)) ==
           r[i + 2 := Next(t, i, x, 2)][i + 3 := Next(t, i, x, 3)][i + 4 := Next(t, i, x, 4)]
            [i + 5 := Next(t, i, x, 5)][i + 6 := Next(t, i, x, 6)][i + 7 := Next(t, i, x, 7)]
            [i + 8 := Next(t, i, x, 8)][i + 9 := Next(t, i, x, 9)];
    SetLimbs(r, i, Next(t, i, x, 2), Next(t, i, x, 3), Next(t, i, x, 4), Next(t, i, x, 5), Next(t, i, x, 6),
             Next(t, i, x, 7), Next(t, i, x, 8), Next(t, i, x, 9));
    Sum8(Weight(i), Change(t, i, x, 2), Change(t, i, x, 3), Change(t, i, x, 4), Change(t, i, x, 5),
         Change(t, i, x, 6), Change(t, i, x, 7), Change(t, i, x, 8), Change(t, i, x, 9));
    ChangesAddUp(t, i, x);
  }

  lemma ClearedInRange(s: seq<nat>, i: nat)
    requires InRange(s, i) && i <= 8
    ensures Words(Cleared(s, i)) && forall k :: i + 2 <= k < 18 ==> LimbInRange(Cleared(s, i), i, k)
  {
    hide Wrap, High;
    forall k | i + 2 <= k < 18
      ensures LimbInRange(Cleared(s, i), i, k)
    {
      assert LimbInRange(s, i, k);
    }
    forall k | 0 <= k < 18
      ensures Cleared(s, i)[k] < TWO_32
    {
      if k >= i {
        assert LimbInRange(s, i, k);
      }
    }
  }

  /** Elimination i adds a multiple of the prime to the number that the limbs stand for. */
  lemma EliminateValue(s: seq<nat>, i: nat)
    requires InRange(s, i) && i <= 8
    ensures Eval(ReadAll(Eliminate(s, i))) == Eval(ReadAll(s)) + Weight(i) * (Low(s[i], i) * P)
  {
    hide Eval, Low, High, Weight, Limb, Added, Wrap, Read, ReadAll, NextInRange, Cleared;
    var x, t := Low(s[i], i), Cleared(s, i);
    TakenOut(s, i);
    DigitBelow(s[i], i);
    if x > 0 {
      ClearedInRange(s, i);
      LimbsInRange(t, i, x);
      AddedValue(t, i, x);
      PrimePlusOne(Weight(i), x);
    }
  }

  lemma DigitBelow(n: nat, i: nat)
    ensures Low(n, i) < Radix(i)
  {
  }

  lemma PrimePlusOne(w: int, x: int)
    ensures w * (x * (P + 1)) == w * (x * P) + x * w
  {
    Spread(w, x * P, x);
  }

  /** Elimination keeps all limbs in range for the next one, and only an even one that borrows from an empty limb makes
      a debt. */
  lemma EliminateLimbInRange(s: seq<nat>, i: nat, k: nat)
    requires |s| == 18 && InRange(s, i) && i <= 8 && i < k < 18
    ensures LimbInRange(Eliminate(s, i), i + 1, k)
    ensures Read(s[k]) >= 0 && !(k == i + 9 && i % 2 == 0 && s[k] == 0) ==> Read(Eliminate(s, i)[k]) >= 0
  {
    hide Low, High, Limb, Added, Wrap, Read, NextInRange, InRange, Eval, Weight;
    var x, t := Low(s[i], i), Cleared(s, i);
    TakenOut(s, i);
    DigitBelow(s[i], i);
    ClearedInRange(s, i);
    if x > 0 {
      LimbsInRange(t, i, x);
      AddedAt(t, i, x, k);
    }
    if k > i + 1 && (x == 0 || k > i + 9) {
      Unreached(t, i, k);
    } else if k > i + 1 {
      AddedReads(t, i, x, k - i);
      ReachedInRange(t, i, x, k - i);
    }
  }

  lemma Unreached(t: seq<nat>, i: nat, k: nat)
    requires |t| == 18 && i + 1 < k < 18 && LimbInRange(t, i, k)
    ensures LimbInRange(t, i + 1, k)
  {
  }

  lemma ReachedInRange(t: seq<nat>, i: nat, x: nat, d: nat)
    requires |t| == 18 && i <= 8 && 2 <= d <= 9 && NextInRange(t, i, x, d)
    ensures Floor(i + d, d - 1) <= Next(t, i, x, d) < Ceiling(i + d, i + 1)
    ensures Read(t[i + d]) >= 0 && !(d == 9 && i % 2 == 0 && t[i + 9] == 0) ==> Next(t, i, x, d) >= 0
  {
  }

  lemma EliminateInRange(s: seq<nat>, i: nat)
    requires InRange(s, i) && i <= 8
    ensures InRange(Eliminate(s, i), i + 1)
  {
    hide Low, High, Added, Wrap, LimbInRange;
    var t, j := Eliminate(s, i), i + 1;
    forall k | j <= k < 18
      ensures LimbInRange(t, j, k)
    {
      EliminateLimbInRange(s, i, k);
    }
    forall k | 0 <= k <= i
      ensures Eliminate(s, i)[k] == 0
    {
      if Low(s[i], i) > 0 {
        AddedAt(Cleared(s, i), i, Low(s[i], i), k);
      }
    }
  }

  // -------------------------------------------------------- cutting columns into limbs

  /** Columns of a product: 64 bits, and the last one a product of two limbs. */
  predicate Columns17(b: seq<nat>) {
    |b| == 17 && (forall k :: 0 <= k < 17 ==> b[k] < TWO_64) && b[16] <= TWO_30 * TWO_30
  }

  /** A column reaches over three limbs. */
  function Mid(n: nat, j: nat): nat {
    Low(High(n, j), j + 1)
  }

  function Top(n: nat, j: nat): nat {
    High(High(n, j), j + 1)
  }

  /** What falls on limb i. */
  function Piece(b: seq<nat>, i: nat): nat
    requires i < |b|
  {
    Low(b[i], i) + (if i >= 1 then Mid(b[i - 1], i - 1) else 0) + if i >= 2 then Top(b[i - 2], i - 2) else 0
  }

  /** The first n limbs, and the carry out of them. */
  function SplitUpTo(b: seq<nat>, n: nat): (r: (seq<nat>, nat))
    requires n <= |b|
    ensures |r.0| == n
  {
    if n == 0 then ([], 0)
    else
      var (t, c) := SplitUpTo(b, n - 1);
      (t + [Low(Piece(b, n - 1) + c, n - 1)], High(Piece(b, n - 1) + c, n - 1))
  }

  function Split(b: seq<nat>): (t: seq<nat>)
    requires |b| == 17
    ensures |t| == 18
  {
    var (t, c) := SplitUpTo(b, 17);
    t + [Wrap(Top(b[15], 15) + High(b[16], 16) + c)]
  }

  lemma ColumnWeight(n: nat, j: nat)
    ensures n * Weight(j) == Low(n, j) * Weight(j) + Mid(n, j) * Weight(j + 1) + Top(n, j) * Weight(j + 2)
    ensures n * Weight(j) == Low(n, j) * Weight(j) + High(n, j) * Weight(j + 1)
  {
    hide Low, High, Weight;
    LowHigh(n, j);
    LowHigh(High(n, j), j + 1);
    DigitWeight(n, Low(n, j), High(n, j), j);
    DigitWeight(High(n, j), Mid(n, j), Top(n, j), j + 1);
  }

  /** What the columns before n have left for limb n and the one after it. */
  function Pending(b: seq<nat>, n: nat): nat
    requires n <= |b|
  {
    (if n >= 1 then Mid(b[n - 1], n - 1) else 0) + if n >= 2 then Top(b[n - 2], n - 2) else 0
  }

  function PendingNext(b: seq<nat>, n: nat): nat
    requires n <= |b|
  {
    if n >= 1 then Top(b[n - 1], n - 1) else 0
  }

  lemma {:induction false} SplitValue(b: seq<nat>, n: nat)
    requires n <= |b|
    ensures var (t, c) := SplitUpTo(b, n);
            Eval(t) + (c + Pending(b, n)) * Weight(n) + PendingNext(b, n) * Weight(n + 1) == EvalUpTo(b, n)
  {
    hide Low, High, Weight, Eval, Mid, Top;
    if n == 0 {
      EvalEmpty();
    } else {
      SplitValue(b, n - 1);
      var (t, c) := SplitUpTo(b, n - 1);
      CarryOn(t, c, Piece(b, n - 1), n - 1);
      ColumnWeight(b[n - 1], n - 1);
      SplitSum(Eval(t), c, Pending(b, n - 1), PendingNext(b, n - 1), Low(b[n - 1], n - 1), Mid(b[n - 1], n - 1),
               High(Piece(b, n - 1) + c, n - 1), Weight(n - 1), Weight(n));
    }
  }

  lemma SplitSum(e: int, c: int, p: int, q: int, l: int, m: int, h: int, w: int, w': int)
    ensures e + (c + p) * w + q * w' + l * w + m * w' + h * w' == e + c * w + (l + p) * w + (h + (m + q)) * w'
  {
  }

  lemma EvalEmpty()
    ensures Eval([]) == 0
  {
  }

  lemma PartBounds(n: nat, j: nat)
    requires n < TWO_64
    ensures Low(n, j) < Radix(j) && Mid(n, j) < Radix(j + 1) && Top(n, j) < 0x80
  {
  }

  lemma {:induction false} SplitRange(b: seq<nat>, n: nat)
    requires n <= |b| && forall k :: 0 <= k < |b| ==> b[k] < TWO_64
    ensures var (t, c) := SplitUpTo(b, n); c < 8 && forall k :: 0 <= k < n ==> t[k] < Radix(k)
  {
    hide Low, High, Mid, Top;
    if n > 0 {
      SplitRange(b, n - 1);
      var (t, c) := SplitUpTo(b, n - 1);
      PartBounds(b[n - 1], n - 1);
      if n >= 2 {
        PartBounds(b[n - 2], n - 2);
      }
      if n >= 3 {
        PartBounds(b[n - 3], n - 3);
      }
      SmallCarry(Piece(b, n - 1) + c, n - 1);
    }
  }

  lemma SmallCarry(v: nat, k: nat)
    requires v < 8 * Radix(k)
    ensures High(v, k) < 8 && Low(v, k) < Radix(k)
  {
  }

  lemma LastLimb(b: seq<nat>, c: nat)
    requires Columns17(b) && c < 8
    ensures Top(b[15], 15) + High(b[16], 16) + c < Ceiling(17, 0) <= DEBT
  {
    PartBounds(b[15], 15);
  }

  lemma LastValue(b: seq<nat>, e: int, c: nat)
    requires |b| == 17
    requires e + (c + Pending(b, 17)) * Weight(17) + PendingNext(b, 17) * Weight(18) == EvalUpTo(b, 17)
    ensures e + (Top(b[15], 15) + High(b[16], 16) + c) * Weight(17) == EvalUpTo(b, 17)
  {
    hide Low, High, Mid, Top, Weight, EvalUpTo;
    ColumnWeight(b[16], 16);
    LastSum(c, Top(b[15], 15), Mid(b[16], 16), High(b[16], 16), Weight(17));
  }

  lemma LastSum(c: int, t: int, m: int, h: int, w: int)
    ensures (c + (m + t)) * w - m * w + h * w == (t + h + c) * w
  {
  }

  /** The limbs stand for the same number as the columns, and are digits in range. */
  lemma SplitKeeps(b: seq<nat>)
    requires Columns17(b)
    ensures Eval(Split(b)) == Eval(b) && InRange(Split(b), 0) && ReadAll(Split(b)) == Split(b)
  {
    hide Low, High, Mid, Top, Weight, EvalUpTo, SplitUpTo, Wrap, Pending, PendingNext, Eval;
    var (t, c) := SplitUpTo(b, 17);
    SplitValue(b, 17);
    SplitRange(b, 17);
    LastLimb(b, c);
    var v := Top(b[15], 15) + High(b[16], 16) + c;
    Small(v);
    EvalSnoc(t, v);
    EvalWhole(b);
    LastValue(b, Eval(t), c);
    forall k | 0 <= k < 18
      ensures LimbInRange(Split(b), 0, k) && Read(Split(b)[k]) == Split(b)[k]
    {
      if k < 17 {
        assert Split(b)[k] == t[k] < Radix(k) <= TWO_29 <= Bound(k);
      }
    }
  }

  lemma EvalWhole(b: seq<int>)
    ensures EvalUpTo(b, |b|) == Eval(b)
  {
  }

  // ------------------------------------------------------------ from limb nine on

  /** The upper nine limbs start with 28 bits; every second bit moves down by one limb. */
  function Moved(s: seq<nat>, k: nat): nat
    requires |s| == 18 && k < 9
  {
    if k % 2 == 1 then s[k + 9] / 2 else s[k + 9] + if k < 8 then s[k + 10] % 2 * TWO_28 else 0
  }

  function FoldUpTo(s: seq<nat>, n: nat): (r: (seq<nat>, nat))
    requires |s| == 18 && n <= 9
    ensures |r.0| == n
  {
    if n == 0 then ([], 0)
    else
      var (t, c) := FoldUpTo(s, n - 1);
      var v := Wrap(Moved(s, n - 1) + c);
      (t + [Low(v, n - 1)], High(v, n - 1))
  }

  /** The first n of the upper limbs, at their weights relative to the first of them. */
  function Upper(s: seq<nat>, n: nat): int
    requires |s| == 18 && n <= 9
  {
    if n == 0 then 0 else Upper(s, n - 1) + Read(s[n + 8]) * Rel(9, n - 1)
  }

  /** Limb k + 9 is a debt, and what is moved and carried to it does not settle it. */
  predicate Short(s: seq<nat>, k: nat)
    requires |s| == 18 && k < 9
  {
    k % 2 == 0 && s[k + 9] >= DEBT && Moved(s, k) + FoldUpTo(s, k).1 < TWO_32
  }

  /** The limb that is folded at place k, after what is moved to it. */
  function Due(s: seq<nat>, k: nat): int
    requires |s| == 18 && k < 9
  {
    Moved(s, k) - s[k + 9] + Read(s[k + 9])
  }

  lemma MovedRange(s: seq<nat>, k: nat)
    requires InRange(s, 9) && k < 9 && FoldUpTo(s, k).1 < 8
    ensures var c := FoldUpTo(s, k).1;
            && Wrap(Moved(s, k) + c) == Due(s, k) + c + (if Short(s, k) then TWO_32 else 0)
            && Wrap(Moved(s, k) + c) < 8 * Radix(k)
  {
    hide FoldUpTo;
    assert LimbInRange(s, 9, k + 9);
    if k < 8 {
      assert LimbInRange(s, 9, k + 10);
    }
  }

  lemma {:induction false} FoldRange(s: seq<nat>, n: nat)
    requires |s| == 18 && InRange(s, 9) && n <= 9
    ensures var (t, c) := FoldUpTo(s, n); c < 8 && forall k :: 0 <= k < n ==> t[k] < Radix(k)
  {
    hide Low, High, InRange, Moved, Wrap, Due, Short;
    if n > 0 {
      FoldRange(s, n - 1);
      var (t, c) := FoldUpTo(s, n - 1);
      MovedRange(s, n - 1);
      SmallCarry(Wrap(Moved(s, n - 1) + c), n - 1);
    }
  }

  /** The weights of the places where a debt is not settled. */
  function Unsettled(s: seq<nat>, n: nat): nat
    requires |s| == 18 && n <= 9
  {
    if n == 0 then 0 else Unsettled(s, n - 1) + if Short(s, n - 1) then Weight(n - 1) else 0
  }

  /** Up to an odd limb the low bit of the next one is already in. */
  function Ahead(s: seq<nat>, n: nat): nat
    requires |s| == 18 && n <= 9
  {
    if n % 2 == 1 && n < 9 then s[n + 9] % 2 * Rel(9, n) else 0
  }

  lemma {:induction false} RelFromNine(n: nat)
    ensures n % 2 == 0 ==> Rel(9, n) == Weight(n)
    ensures n % 2 == 1 ==> 2 * Rel(9, n) == Weight(n) && Rel(9, n) == TWO_28 * Weight(n - 1)
  {
    if n > 0 {
      RelFromNine(n - 1);
    }
  }

  lemma NothingAhead(s: seq<nat>)
    requires |s| == 18
    ensures Ahead(s, 0) == Ahead(s, 9) == 0
  {
  }

  /** Folding keeps the value, except that every debt left unsettled is forgiven: it counts 2^32 at its place. */
  lemma {:induction false} FoldValue(s: seq<nat>, n: nat)
    requires |s| == 18 && InRange(s, 9) && n <= 9
    ensures var (t, c) := FoldUpTo(s, n);
            Eval(t) + c * Weight(n) == Upper(s, n) + Ahead(s, n) + TWO_32 * Unsettled(s, n)
  {
    hide Low, High, InRange, Wrap, Weight, Rel, Eval, Moved, Ahead, Due, Short, Read;
    if n == 0 {
      NothingAhead(s);
      EvalEmpty();
    } else {
      FoldValue(s, n - 1);
      FoldRange(s, n - 1);
      var (t, c) := FoldUpTo(s, n - 1);
      MovedRange(s, n - 1);
      DueValue(s, n - 1);
      FoldStep(t, c, Due(s, n - 1), if Short(s, n - 1) then TWO_32 else 0, n - 1);
      if Short(s, n - 1) {
        Spread(TWO_32, Unsettled(s, n - 1), Weight(n - 1));
      }
    }
  }

  lemma FoldStep(t: seq<nat>, c: nat, due: int, forgiven: nat, k: nat)
    requires |t| == k && due + c + forgiven >= 0
    ensures var v := due + c + forgiven;
            Eval(t + [Low(v, k)]) + High(v, k) * Weight(k + 1) ==
            Eval(t) + c * Weight(k) + due * Weight(k) + forgiven * Weight(k)
  {
    hide Low, High, Weight, Eval;
    var v := due + c + forgiven;
    CarryOn(t, 0, v, k);
    Spread(Weight(k), due + c, forgiven);
    Spread(Weight(k), due, c);
  }

  /** Taking the digit out of limb k and carrying the rest on keeps the value. */
  lemma CarryOn(t: seq<nat>, c: nat, m: nat, k: nat)
    requires |t| == k
    ensures Eval(t + [Low(m + c, k)]) + High(m + c, k) * Weight(k + 1) == Eval(t) + c * Weight(k) + m * Weight(k)
  {
    hide Low, High, Weight, Eval;
    EvalSnoc(t, Low(m + c, k));
    LowHigh(m + c, k);
    DigitWeight(m + c, Low(m + c, k), High(m + c, k), k);
    Spread(Weight(k), m, c);
  }

  lemma DueValue(s: seq<nat>, k: nat)
    requires |s| == 18 && InRange(s, 9) && k < 9
    ensures Due(s, k) * Weight(k) + Ahead(s, k) == Read(s[k + 9]) * Rel(9, k) + Ahead(s, k + 1)
  {
    hide Weight, Rel, Read, InRange;
    RelFromNine(k);
    RelFromNine(k + 1);
    var n := Read(s[k + 9]);
    if k % 2 == 1 {
      NoDebt(s, k);
      Halves(s[k + 9], Rel(9, k));
      assert Due(s, k) == s[k + 9] / 2 && Ahead(s, k) == s[k + 9] % 2 * Rel(9, k) && Ahead(s, k + 1) == 0;
    } else if k < 8 {
      var bit := s[k + 10] % 2;
      assert Due(s, k) == n + bit * TWO_28 && Ahead(s, k) == 0 && Ahead(s, k + 1) == bit * Rel(9, k + 1);
      BitMoved(n, bit, Weight(k));
    } else {
      assert Due(s, k) == n && Ahead(s, k) == Ahead(s, k + 1) == 0;
    }
  }

  lemma NoDebt(s: seq<nat>, k: nat)
    requires InRange(s, 9) && k < 9 && k % 2 == 1
    ensures Read(s[k + 9]) == s[k + 9]
  {
    assert LimbInRange(s, 9, k + 9);
  }

  lemma BitMoved(n: int, bit: int, w: int)
    ensures (n + bit * TWO_28) * w == n * w + bit * (TWO_28 * w)
  {
    Spread(w, n, bit * TWO_28);
    Associate(bit, TWO_28, w);
  }

  lemma Halves(n: nat, r: nat)
    ensures n / 2 * (2 * r) + n % 2 * r == n * r
  {
    Associate(n / 2, 2, r);
    Spread(r, n / 2 * 2, n % 2);
  }

  // ------------------------------------------------------------- the reduced product

  /** The limbs before elimination i. */
  function State(b: seq<nat>, i: nat): (s: seq<nat>)
    requires |b| == 17 && i <= 9
    ensures |s| == 18
  {
    if i == 0 then Split(b) else Eliminate(State(b, i - 1), i - 1)
  }

  function Reduced(b: seq<nat>): (r: seq<nat>)
    requires |b| == 17
    ensures |r| == 9
  {
    var (t, c) := FoldUpTo(State(b, 9), 9);
    Plus(t, CarryRow(c % 8))
  }

  /** The multiple of the prime added by the first n eliminations. */
  ghost function Multiple(b: seq<nat>, n: nat): nat
    requires |b| == 17 && n <= 9
  {
    if n == 0 then 0 else Multiple(b, n - 1) + Times(Weight(n - 1), Low(State(b, n - 1)[n - 1], n - 1))
  }

  function Times(a: nat, b: nat): nat {
    a * b
  }

  lemma {:induction false} StateValue(b: seq<nat>, n: nat)
    requires Columns17(b) && n <= 9
    ensures InRange(State(b, n), n) && Eval(ReadAll(State(b, n))) == Eval(b) + Multiple(b, n) * P
  {
    hide Eliminate, Low, Weight, Eval, InRange, Split, ReadAll;
    if n == 0 {
      SplitKeeps(b);
    } else {
      StateValue(b, n - 1);
      var s := State(b, n - 1);
      EliminateValue(s, n - 1);
      EliminateInRange(s, n - 1);
      Associate(Weight(n - 1), Low(s[n - 1], n - 1), P);
      Spread(P, Multiple(b, n - 1), Weight(n - 1) * Low(s[n - 1], n - 1));
    }
  }

  lemma {:induction false} UpperValue(s: seq<nat>, n: nat)
    requires |s| == 18 && n <= 9 && forall k :: 0 <= k < 9 ==> s[k] == 0
    ensures EvalUpTo(ReadAll(s), 9 + n) == TWO_257 * Upper(s, n)
  {
    hide Weight, Rel;
    if n == 0 {
      LowerZero(ReadAll(s), 9);
    } else {
      UpperValue(s, n - 1);
      WeightRel(9, n - 1);
      Weights();
      Rearrange3(Read(s[n + 8]), TWO_257, Rel(9, n - 1));
    }
  }

  lemma {:induction false} LowerZero(s: seq<int>, n: nat)
    requires n <= |s| && forall k :: 0 <= k < n ==> s[k] == 0
    ensures EvalUpTo(s, n) == 0
  {
    if n > 0 {
      LowerZero(s, n - 1);
    }
  }

  // ------------------------------------------------------- exactly when it is right

  /** Every debt is settled when the upper limbs are folded. */
  predicate Settles(b: seq<nat>)
    requires |b| == 17
  {
    forall k :: 0 <= k < 9 ==> !Short(State(b, 9), k)
  }

  /** The limbs from which even eliminations borrow have something to lend, before anything is added to them. */
  predicate Roomy(b: seq<nat>)
    requires |b| == 17
  {
    var s := Split(b);
    s[9] > 0 && s[11] > 0 && s[13] > 0 && s[15] > 0 && s[17] > 0
  }

  lemma BitsOf(s: seq<nat>) returns (e: seq<nat>)
    requires |s| == 18
    ensures |e| == 5 && forall k :: 0 <= k < 5 ==> e[k] == Bit(Short(s, 2 * k))
    ensures Unsettled(s, 9) ==
            e[0] * Weight(0) + e[1] * Weight(2) + e[2] * Weight(4) + e[3] * Weight(6) + e[4] * Weight(8)
    ensures (forall k :: 0 <= k < 9 ==> !Short(s, k)) <==> e == [0, 0, 0, 0, 0]
  {
    hide Weight;
    assert !Short(s, 1) && !Short(s, 3) && !Short(s, 5) && !Short(s, 7);
    hide Short;
    e := [Bit(Short(s, 0)), Bit(Short(s, 2)), Bit(Short(s, 4)), Bit(Short(s, 6)), Bit(Short(s, 8))];
    assert Unsettled(s, 1) == e[0] * Weight(0);
    assert Unsettled(s, 2) == Unsettled(s, 1);
    assert Unsettled(s, 4) == Unsettled(s, 2) + e[1] * Weight(2);
    assert Unsettled(s, 6) == Unsettled(s, 4) + e[2] * Weight(4);
    assert Unsettled(s, 8) == Unsettled(s, 6) + e[3] * Weight(6);
    if e == [0, 0, 0, 0, 0] {
      forall k | 0 <= k < 9
        ensures !Short(s, k)
      {
        if k % 2 == 0 {
          assert e[k / 2] == 0;
        }
      }
    }
  }

  /** What the places forgive is no multiple of the prime. */
  lemma NoMultiple(e0: nat, e2: nat, e4: nat, e6: nat, e8: nat)
    requires e0 <= 1 && e2 <= 1 && e4 <= 1 && e6 <= 1 && e8 <= 1
    ensures TWO_32 * (e0 + e2 * T57 + e4 * T114 + e6 * T171 + e8 * T228) % P == 0 <==>
            e0 == e2 == e4 == e6 == e8 == 0
  {
    var n := TWO_32 * (e0 + e2 * T57 + e4 * T114 + e6 * T171 + e8 * T228);
    var r := n - 16 * e8 * P;
    assert 0 <= r < P && (r == 0 <==> e0 == e2 == e4 == e6 == e8 == 0);
    SameResidue(r, n, 16 * e8);
  }

  /** 2^257 is invertible modulo the prime. */
  lemma ShiftedMultiple(n: int)
    ensures TWO_257 * n % P == 0 <==> n % P == 0
  {
    var q := TWO_257 * n / P;
    if TWO_257 * n % P == 0 {
      assert TWO_257 * R_INVERSE == 1 + R_QUOTIENT * P;
      assert TWO_257 * n == q * P;
      InverseOf(n, q);
      SameResidue(n, 0, R_QUOTIENT * n - q * R_INVERSE);
    }
    if n % P == 0 {
      Rearrange3(n / P, TWO_257, P);
      Associate(TWO_257, n / P, P);
      SameResidue(TWO_257 * n, 0, -(TWO_257 * (n / P)));
    }
  }

  lemma InverseOf(n: int, q: int)
    requires TWO_257 * n == q * P && TWO_257 * R_INVERSE == 1 + R_QUOTIENT * P
    ensures n + (R_QUOTIENT * n - q * R_INVERSE) * P == 0
  {
    Associate(R_INVERSE, TWO_257, n);
    Associate(R_INVERSE, q, P);
    Spread(n, 1, R_QUOTIENT * P);
    Rearrange3(n, R_QUOTIENT, P);
    Spread(P, R_QUOTIENT * n, -(q * R_INVERSE));
  }

  lemma SettledExactly(s: seq<nat>)
    requires |s| == 18
    ensures TWO_257 * (TWO_32 * Unsettled(s, 9)) % P == 0 <==> forall k :: 0 <= k < 9 ==> !Short(s, k)
  {
    hide Weight, Unsettled, Short;
    var e := BitsOf(s);
    EvenWeights();
    NoMultiple(e[0], e[1], e[2], e[3], e[4]);
    ShiftedMultiple(TWO_32 * Unsettled(s, 9));
    assert e == [e[0], e[1], e[2], e[3], e[4]];
  }

  lemma EvenWeights()
    ensures Weight(0) == 1 && Weight(2) == T57 && Weight(4) == T114 && Weight(6) == T171 && Weight(8) == T228
  {
    hide Rel;
    WeightRel(0, 2);
    WeightRel(0, 4);
    WeightRel(0, 6);
    WeightRel(0, 8);
    Rels(0);
  }

  /** The result is always within bounds, and stands for the columns divided by 2^257 modulo the prime if and only if
      every debt is settled. */
  lemma ReducedExactly(b: seq<nat>)
    requires Columns17(b)
    ensures Bounded(Reduced(b)) && (Eval(Reduced(b)) * TWO_257 % P == Eval(b) % P <==> Settles(b))
  {
    hide State, FoldUpTo, Weight, EvalUpTo, Eval, Upper, CarryRow, Multiple, Unsettled, Short, ReadAll;
    var s := State(b, 9);
    StateValue(b, 9);
    FoldValue(s, 9);
    FoldRange(s, 9);
    NothingAhead(s);
    var (t, c) := FoldUpTo(s, 9);
    UpperValue(s, 9);
    EvalWhole(ReadAll(s));
    Weights();
    RowBounds(c);
    CarryReduced(t, Reduced(b), c);
    SettledExactly(s);
    ResidueOf(Eval(Reduced(b)), c, Upper(s, 9), Eval(b), Multiple(b, 9), TWO_32 * Unsettled(s, 9));
  }

  lemma ResidueOf(r: int, c: int, u: int, v: int, m: int, f: int)
    requires r + 2 * c * P == u + f && TWO_257 * u == v + m * P
    ensures r * TWO_257 % P == v % P <==> TWO_257 * f % P == 0
  {
    var k := m - TWO_257 * (2 * c);
    Spread(TWO_257, r, 2 * c * P);
    Spread(TWO_257, u, f);
    Associate(TWO_257, 2 * c, P);
    Spread(P, m, -(TWO_257 * (2 * c)));
    assert r * TWO_257 == v + TWO_257 * f + k * P;
    SameResidue(r * TWO_257, v + TWO_257 * f, -k);
    Difference(v, TWO_257 * f);
  }

  lemma Difference(v: int, y: int)
    ensures (v + y) % P == v % P <==> y % P == 0
  {
    var q, r := y / P, y % P;
    SameResidue(v + r, v + y, q);
  }

  // ------------------------------------------------------------ where nothing is owed

  lemma {:induction false} Untouched(b: seq<nat>, i: nat, k: nat)
    requires |b| == 17 && i <= 9 && i + 9 <= k < 18
    ensures State(b, i)[k] == Split(b)[k]
  {
    hide Split, Wrap, Low, High, Added;
    if i > 0 {
      Untouched(b, i - 1, k);
      var s := State(b, i - 1);
      if Low(s[i - 1], i - 1) > 0 {
        AddedAt(Cleared(s, i - 1), i - 1, Low(s[i - 1], i - 1), k);
      }
    }
  }

  lemma {:induction false} NothingOwed(b: seq<nat>, i: nat, k: nat)
    requires Columns17(b) && Roomy(b) && i <= 9 && k < 18
    ensures Read(State(b, i)[k]) >= 0
  {
    hide Split, Eliminate, InRange, Read;
    if i == 0 {
      SplitKeeps(b);
      assert ReadAll(Split(b))[k] == Split(b)[k];
    } else {
      var s := State(b, i - 1);
      StateValue(b, i - 1);
      StateValue(b, i);
      NothingOwed(b, i - 1, k);
      if i <= k {
        if k == i + 8 {
          Untouched(b, i - 1, k);
        }
        EliminateLimbInRange(s, i - 1, k);
      } else {
        ZeroBelow(State(b, i), i, k);
      }
    }
  }

  lemma ZeroBelow(s: seq<nat>, i: nat, k: nat)
    requires InRange(s, i) && k < i
    ensures s[k] == 0 && Read(s[k]) == 0
  {
  }

  /** A condition on the columns alone under which the result is right. */
  lemma RoomyIsRight(b: seq<nat>)
    requires Columns17(b) && Roomy(b)
    ensures Settles(b) && Eval(Reduced(b)) * TWO_257 % P == Eval(b) % P
  {
    hide State, FoldUpTo, Moved, Eval, Reduced, Roomy;
    forall k | 0 <= k < 9
      ensures !Short(State(b, 9), k)
    {
      NothingOwed(b, 9, k + 9);
      StateValue(b, 9);
      assert LimbInRange(State(b, 9), 9, k + 9);
    }
    ReducedExactly(b);
  }

  // ------------------------------------------------------------------ in place

  lemma WrapWrap(a: int, b: int)
    ensures Wrap(Wrap(a) + b) == Wrap(a + b)
  {
  }

  /** The first two limbs that x times the prime plus one reaches; set4 tells whether the second one borrows. */
  method AddLower(tmp: array<U32>, i: nat, x: nat, ghost s: seq<nat>) returns (set4: nat)
    requires tmp.Length == 18 && i <= 8 && |s| == 18 && forall k :: i + 2 <= k < 18 ==> tmp[k] == s[k]
    modifies tmp
    ensures set4 == BorrowsOf(s, i, x).b3
    ensures tmp[i + 2] == Wrap(Limb(s, i, x, 2)) && tmp[i + 3] == Wrap(Limb(s, i, x, 3))
    ensures forall k :: 0 <= k < 18 && k != i + 2 && k != i + 3 ==> tmp[k] == old(tmp[k])
  {
    hide Low, High, Radix, Wrap, SharesOf;
    var sh := SharesOf(i, x);
    tmp[i + 2] := Wrap(tmp[i + 2] + Low(sh.a, i + 2));
    tmp[i + 3] := Wrap(tmp[i + 3] + High(sh.a, i + 2));
    WrapWrap(s[i + 3] + High(sh.a, i + 2), Radix(i + 3) - Low(sh.b, i + 3));
    WrapWrap(s[i + 3] + High(sh.a, i + 2), 0 - Low(sh.b, i + 3));
    set4 := 0;
    if tmp[i + 3] < Radix(i + 3) {
      set4 := 1;
      tmp[i + 3] := Wrap(tmp[i + 3] + Radix(i + 3) - Low(sh.b, i + 3));
    } else {
      tmp[i + 3] := Wrap(tmp[i + 3] - Low(sh.b, i + 3));
    }
  }

  /** The next three; set7 tells whether the last of them borrows. */
  method AddMiddle(tmp: array<U32>, i: nat, x: nat, set4: nat, ghost s: seq<nat>) returns (set7: nat)
    requires tmp.Length == 18 && i <= 8 && |s| == 18 && forall k :: i + 4 <= k < 18 ==> tmp[k] == s[k]
    requires set4 == BorrowsOf(s, i, x).b3
    modifies tmp
    ensures set7 == BorrowsOf(s, i, x).b6
    ensures tmp[i + 4] == Wrap(Limb(s, i, x, 4)) && tmp[i + 5] == Wrap(Limb(s, i, x, 5))
    ensures tmp[i + 6] == Wrap(Limb(s, i, x, 6))
    ensures forall k :: 0 <= k < 18 && !(i + 4 <= k <= i + 6) ==> tmp[k] == old(tmp[k])
  {
    hide Low, High, Radix, Wrap, SharesOf;
    var sh := SharesOf(i, x);
    Small(s[i + 5]);
    Small(s[i + 6]);
    set7 := 0;
    if tmp[i + 4] < Radix(i + 4) {
      tmp[i + 4] := Wrap(tmp[i + 4] + Radix(i + 4) - set4 - High(sh.b, i + 3));
      set7 := BorrowOne(tmp, i, x, s);
    } else {
      tmp[i + 4] := Wrap(tmp[i + 4] - set4 - High(sh.b, i + 3));
    }
  }

  /** One is borrowed from limb i + 5, and if it has too little, through it from the next. */
  method BorrowOne(tmp: array<U32>, i: nat, x: nat, ghost s: seq<nat>) returns (set7: nat)
    requires tmp.Length == 18 && i <= 8 && |s| == 18 && forall k :: i + 5 <= k < 18 ==> tmp[k] == s[k]
    requires BorrowsOf(s, i, x).b4 == 1
    modifies tmp
    ensures set7 == BorrowsOf(s, i, x).b6
    ensures tmp[i + 5] == Wrap(Limb(s, i, x, 5)) && tmp[i + 6] == Wrap(Limb(s, i, x, 6))
    ensures forall k :: 0 <= k < 18 && k != i + 5 && k != i + 6 ==> tmp[k] == old(tmp[k])
  {
    hide Low, High, Radix, Wrap, SharesOf;
    Small(s[i + 6]);
    set7 := 0;
    if tmp[i + 5] < Radix(i + 5) {
      tmp[i + 5] := Wrap(tmp[i + 5] + Radix(i + 5) - 1);
      if tmp[i + 6] < Radix(i + 6) {
        set7 := 1;
        tmp[i + 6] := Wrap(tmp[i + 6] + Radix(i + 6) - 1);
      } else {
        tmp[i + 6] := Wrap(tmp[i + 6] as int - 1);
      }
    } else {
      tmp[i + 5] := Wrap(tmp[i + 5] as int - 1);
    }
  }

  /** The upper three, where set7 tells whether the limb before them borrows. */
  method AddUpper(tmp: array<U32>, i: nat, x: nat, set7: nat, ghost s: seq<nat>)
    requires tmp.Length == 18 && i <= 8 && |s| == 18 && forall k :: i + 7 <= k < 18 ==> tmp[k] == s[k]
    requires set7 == BorrowsOf(s, i, x).b6
    modifies tmp
    ensures forall d :: 7 <= d <= 9 ==> tmp[i + d] == Wrap(Limb(s, i, x, d))
    ensures forall k :: 0 <= k < 18 && !(i + 7 <= k <= i + 9) ==> tmp[k] == old(tmp[k])
  {
    hide Low, High, Radix, Wrap, SharesOf;
    var sh, set8 := SharesOf(i, x), 0;
    if tmp[i + 7] < Radix(i + 7) {
      set8 := 1;
      tmp[i + 7] := Wrap(tmp[i + 7] + Radix(i + 7) - set7 - Low(sh.c, i + 7));
    } else {
      tmp[i + 7] := Wrap(tmp[i + 7] - set7 - Low(sh.c, i + 7));
    }
    AddTop(tmp, i, x, set8, s);
  }

  method AddTop(tmp: array<U32>, i: nat, x: nat, set8: nat, ghost s: seq<nat>)
    requires tmp.Length == 18 && i <= 8 && |s| == 18 && forall k :: i + 8 <= k < 18 ==> tmp[k] == s[k]
    requires set8 == BorrowsOf(s, i, x).b7
    modifies tmp
    ensures tmp[i + 8] == Wrap(Limb(s, i, x, 8)) && tmp[i + 9] == Wrap(Limb(s, i, x, 9))
    ensures forall k :: 0 <= k < 18 && k != i + 8 && k != i + 9 ==> tmp[k] == old(tmp[k])
  {
    hide Low, High, Radix, Wrap, SharesOf;
    var sh := SharesOf(i, x);
    WrapWrap(s[i + 8] + Low(sh.d, i + 8), Radix(i + 8) - set8 - High(sh.c, i + 7));
    WrapWrap(s[i + 8] + Low(sh.d, i + 8), 0 - set8 - High(sh.c, i + 7));
    tmp[i + 8] := Wrap(tmp[i + 8] + Low(sh.d, i + 8));
    if tmp[i + 8] < Radix(i + 8) {
      tmp[i + 8] := Wrap(tmp[i + 8] + Radix(i + 8) - set8 - High(sh.c, i + 7));
      tmp[i + 9] := Wrap(tmp[i + 9] + High(sh.d, i + 8) - 1);
    } else {
      tmp[i + 8] := Wrap(tmp[i + 8] - set8 - High(sh.c, i + 7));
      tmp[i + 9] := Wrap(tmp[i + 9] + High(sh.d, i + 8));
    }
  }

  /** One elimination.  The source writes it once for even and once for odd limbs, which differ in their sizes. */
  method EliminateLimb(tmp: array<U32>, i: nat)
    requires tmp.Length == 18 && i <= 8
    modifies tmp
    ensures tmp[..] == Eliminate(old(tmp[..]), i)
  {
    hide Low, High, Wrap, Limb, BorrowsOf, Added;
    ghost var s: seq<nat> := tmp[..];
    var x := Low(tmp[i], i);
    tmp[i + 1] := Wrap(tmp[i + 1] + High(tmp[i], i));
    tmp[i] := 0;
    if x > 0 {
      ghost var t: seq<nat> := tmp[..];
      assert t == Cleared(s, i);
      var set4 := AddLower(tmp, i, x, t);
      var set7 := AddMiddle(tmp, i, x, set4, t);
      AddUpper(tmp, i, x, set7, t);
      forall k | 0 <= k < 18
        ensures tmp[k] == Added(t, i, x)[k]
      {
        AddedAt(t, i, x, k);
        if i + 7 <= k <= i + 9 {
          assert tmp[i + (k - i)] == Wrap(Limb(t, i, x, k - i));
        }
      }
    }
  }

  /** The parts of a column as they are taken from its two halves. */
  lemma LowBits(n: nat, i: nat)
    ensures Low(n, i) == n % TWO_32 % Radix(i)
    ensures High(n, i) == n % TWO_32 / Radix(i) + n / TWO_32 * (TWO_32 / Radix(i))
  {
    hide Low, High;
    var h, l := n / TWO_32, n % TWO_32;
    if i % 2 == 0 {
      Cut(n, i, l / TWO_29 + h * 8, l % TWO_29);
    } else {
      Cut(n, i, l / TWO_28 + h * 16, l % TWO_28);
    }
  }

  lemma Eights(h: nat)
    ensures h * 8 % TWO_32 % TWO_28 == h % 0x200_0000 * 8
  {
    hide Low, High;
    var r, q := h / 0x200_0000 % 16, h / 0x200_0000 / 16;
    var low := h % 0x200_0000 * 8 + r * TWO_28;
    CutWord(h * 8, q, low);
    Cut(low, 1, r, h % 0x200_0000 * 8);
    LowIs(low, 1);
  }

  lemma Sixteens(h: nat)
    ensures h * 16 % TWO_32 % TWO_29 == h % 0x200_0000 * 16
  {
    hide Low, High;
    var r, q := h / 0x200_0000 % 8, h / 0x200_0000 / 8;
    var low := h % 0x200_0000 * 16 + r * TWO_29;
    CutWord(h * 16, q, low);
    Cut(low, 0, r, h % 0x200_0000 * 16);
    LowIs(low, 0);
  }

  lemma MidBits(n: nat, j: nat)
    ensures Mid(n, j) == n % TWO_32 / Radix(j) + n / TWO_32 * (TWO_32 / Radix(j)) % TWO_32 % Radix(j + 1)
    ensures Top(n, j) == n / TWO_32 / 0x200_0000
  {
    hide Low, High;
    LowBits(n, j);
    var h, l := n / TWO_32, n % TWO_32;
    if j % 2 == 0 {
      Eights(h);
      Cut(High(n, j), j + 1, h / 0x200_0000, l / TWO_29 + h % 0x200_0000 * 8);
    } else {
      Sixteens(h);
      Cut(High(n, j), j + 1, h / 0x200_0000, l / TWO_28 + h % 0x200_0000 * 16);
    }
  }

  lemma LowBit(n: nat)
    ensures n * TWO_28 % TWO_32 % TWO_29 == n % 2 * TWO_28
  {
    hide Low, High;
    var r, q := n / 2 % 8, n / 2 / 8;
    var low := n % 2 * TWO_28 + r * TWO_29;
    CutWord(n * TWO_28, q, low);
    Cut(low, 0, r, n % 2 * TWO_28);
    LowIs(low, 0);
  }

  lemma CutWord(n: nat, q: nat, low: nat)
    requires n == low + q * TWO_32 && low < TWO_32
    ensures n % TWO_32 == low
  {
  }

  lemma LowIs(n: nat, i: nat)
    ensures Low(n, i) == n % Radix(i)
  {
  }

  /** What falls on limb i, in 32-bit operations. */
  method PieceOf(b: array<nat>, i: nat) returns (v: nat)
    requires b.Length == 17 && i < 17 && forall k :: 0 <= k < 17 ==> b[k] < TWO_64
    ensures v == Piece(b[..], i) < 4 * Radix(i)
  {
    hide Low, High, Mid, Top;
    LowBits(b[i], i);
    PartBounds(b[i], i);
    v := b[i] % TWO_32 % Radix(i);
    if i >= 1 {
      MidBits(b[i - 1], i - 1);
      PartBounds(b[i - 1], i - 1);
      v := v + b[i - 1] % TWO_32 / Radix(i - 1) + b[i - 1] / TWO_32 * (TWO_32 / Radix(i - 1)) % TWO_32 % Radix(i);
    }
    if i >= 2 {
      MidBits(b[i - 2], i - 2);
      PartBounds(b[i - 2], i - 2);
      v := v + b[i - 2] / TWO_32 / 0x200_0000;
    }
  }

  method SplitColumns(b: array<nat>) returns (tmp: array<U32>)
    requires b.Length == 17 && forall k :: 0 <= k < 17 ==> b[k] < TWO_64
    ensures fresh(tmp) && tmp.Length == 18 && tmp[..] == Split(b[..])
  {
    hide Low, High, Mid, Top, Piece, Wrap;
    tmp := new U32[18];
    var carry: nat := 0;
    for i := 0 to 17
      invariant SplitUpTo(b[..], i) == (tmp[..i], carry) && carry < 8
    {
      var v := PieceOf(b, i);
      v := v + carry;
      SmallCarry(v, i);
      tmp[i] := Low(v, i);
      carry := High(v, i);
      assert tmp[..i + 1] == tmp[..i] + [tmp[i]];
    }
    MidBits(b[15], 15);
    LowBits(b[16], 16);
    var h := b[16] / TWO_32 * 8;
    WrapWrap(h, b[15] / TWO_32 / 0x200_0000 + b[16] % TWO_32 / TWO_29 + carry);
    tmp[17] := Wrap(Wrap(h) + (b[15] / TWO_32 / 0x200_0000 + b[16] % TWO_32 / TWO_29 + carry));
    assert tmp[..] == tmp[..17] + [tmp[17]];
  }

  /** The upper limbs moved down, with the carry out of the last one. */
  method FoldLimbs(a: array<U32>, tmp: array<U32>) returns (carry: nat)
    requires a.Length == 9 && tmp.Length == 18 && a != tmp
    modifies a
    ensures FoldUpTo(tmp[..], 9) == (a[..], carry) && carry < 8 && forall k :: 0 <= k < 9 ==> a[k] < Radix(k)
  {
    hide Low, High, Wrap;
    carry := 0;
    for k := 0 to 9
      invariant FoldUpTo(tmp[..], k) == (a[..k], carry) && carry < 16 && (k == 9 ==> carry < 8)
      invariant forall j :: 0 <= j < k ==> a[j] < Radix(j)
    {
      var v: nat := if k % 2 == 1 then tmp[k + 9] / 2 else tmp[k + 9];
      if k % 2 == 0 && k < 8 {
        LowBit(tmp[k + 10]);
        v := v + tmp[k + 10] * TWO_28 % TWO_32 % TWO_29;
      }
      v := Wrap(v + carry);
      CarryBelow(v, k);
      a[k] := Low(v, k);
      carry := High(v, k);
      assert a[..k + 1] == a[..k] + [a[k]];
    }
    assert a[..9] == a[..];
  }

  lemma CarryBelow(v: U32, k: nat)
    ensures Low(v, k) < Radix(k) && High(v, k) < 16 && (k % 2 == 0 ==> High(v, k) < 8)
  {
  }

  /** From columns to limbs in place. */
  method ReduceDegree(a: array<U32>, b: array<nat>)
    requires a.Length == 9 && b.Length == 17 && Columns17(b[..])
    modifies a
    ensures a[..] == Reduced(b[..]) && Bounded(a[..])
    ensures Eval(a[..]) * TWO_257 % P == Eval(b[..]) % P <==> Settles(b[..])
    ensures Roomy(b[..]) ==> Settles(b[..])
  {
    hide Split, Eliminate, FoldUpTo, Eval, CarryRow, Settles, Roomy;
    var tmp := SplitColumns(b);
    for i := 0 to 9
      invariant tmp[..] == State(b[..], i)
    {
      EliminateLimb(tmp, i);
    }
    var carry := FoldLimbs(a, tmp);
    ghost var t: seq<nat> := a[..];
    ReduceCarry(a, carry);
    RowBounds(carry);
    assert a[..] == Plus(t, CarryRow(carry));
    ReducedExactly(b[..]);
    if Roomy(b[..]) {
      RoomyIsRight(b[..]);
    }
  }

  // ------------------------------------------------------------------- products

  /** The columns of bounded factors can be reduced. */
  lemma ProductsFit(a: seq<nat>, b: seq<nat>)
    requires Bounded(a) && Bounded(b)
    ensures Columns17(ProductColumns(a, b)) && Eval(ProductColumns(a, b)) == Eval(a) * Eval(b)
  {
    hide Column, Eval, Term, Prod;
    ColumnsFound(a, b, ProductColumns(a, b));
    MulColumnsAre(a, b);
    LastProduct(a, b);
  }

  lemma LastProduct(a: seq<nat>, b: seq<nat>)
    requires Bounded(a) && Bounded(b)
    ensures Prod(a[8], b[8], 1) <= TWO_30 * TWO_30
  {
    ProductFits(a[8], b[8]);
  }

  /** The product of two elements; c may be a or b. */
  method Mul(c: array<U32>, a: array<U32>, b: array<U32>)
    requires a.Length == b.Length == c.Length == 9 && Bounded(a[..]) && Bounded(b[..])
    modifies c
    ensures c[..] == Reduced(ProductColumns(old(a[..]), old(b[..]))) && Bounded(c[..])
    ensures Eval(c[..]) * TWO_257 % P == old(Eval(a[..])) * old(Eval(b[..])) % P <==>
            Settles(ProductColumns(old(a[..]), old(b[..])))
    ensures Roomy(ProductColumns(old(a[..]), old(b[..]))) ==> Settles(ProductColumns(old(a[..]), old(b[..])))
  {
    hide Eval, Column, Settles, Reduced, Roomy;
    ProductsFit(a[..], b[..]);
    var tmp := MulColumns(a, b);
    ReduceDegree(c, tmp);
  }

  method Square(b: array<U32>, a: array<U32>)
    requires a.Length == b.Length == 9 && Bounded(a[..])
    modifies b
    ensures b[..] == Reduced(ProductColumns(old(a[..]), old(a[..]))) && Bounded(b[..])
    ensures Eval(b[..]) * TWO_257 % P == old(Eval(a[..])) * old(Eval(a[..])) % P <==>
            Settles(ProductColumns(old(a[..]), old(a[..])))
    ensures Roomy(ProductColumns(old(a[..]), old(a[..]))) ==> Settles(ProductColumns(old(a[..]), old(a[..])))
  {
    hide Eval, Column, Settles, Reduced, Roomy;
    ProductsFit(a[..], a[..]);
    var tmp := SquareColumns(a);
    ReduceDegree(b, tmp);
  }

  // ----------------------------------------------------------- a product that is wrong

  /** An element of two small limbs, one, and the columns of their product. */
  const SMALL: seq<nat> := [0, 0, 0, 0, 0, 0, 1, 8, 0]
  const ONE: seq<nat> := [1, 0, 0, 0, 0, 0, 0, 0, 0]
  const SMALL_PRODUCT: seq<nat> := [0, 0, 0, 0, 0, 0, 1, 8, 0, 0, 0, 0, 0, 0, 0, 0, 0]

  /** Its limbs before the seventh, eighth and ninth elimination, and after that. */
  const S6: seq<nat> := [0, 0, 0, 0, 0, 0, 1, 8, 0, 0, 0, 0, 0, 0, 0, 0, 0, 0]
  const S7: seq<nat> := [0, 0, 0, 0, 0, 0, 0, 8, 0x80, 0xFFFFC00, 0x1FFFFFFF, 0xFFFFFFF, 0x1FFFFFFF, 0xEFFFFFF,
                         0x2FFFFFFF, 0xFFFFFFFF, 0, 0]
  const S8: seq<nat> := [0, 0, 0, 0, 0, 0, 0, 0, 0x80, 0x10000000, 0x3FFFBFFF, 0x1FFFFFFE, 0x3FFFFFFE, 0x1EFFFFFE,
                         0x1FFFFFFE, 0xFFFFFFFF, 8, 0]
  const S9: seq<nat> := [0, 0, 0, 0, 0, 0, 0, 0, 0, 0x10000000, 0x3FFFFFFF, 0x1FFDFFFE, 0x3FFFFFFE, 0x1EFFFFFE,
                         0x1FFFFFFE, 0xFFFFFFFF, 0x20000000, 0x3F]

  /** What comes out. */
  const SMALL_RESULT: seq<nat> := [0, 0, 0x1FFE0000, 0xFFFFFFF, 0x1EFFFFFF, 0xFFFFFFF, 0x1FFFFFFF, 7, 0x40]

  lemma Idle(s: seq<nat>, i: nat)
    requires |s| == 18 && i <= 8 && s[i] == 0 && s[i + 1] < TWO_32
    ensures Eliminate(s, i) == s
  {
    hide Added;
    Small(s[i + 1]);
  }

  lemma Shares6()
    ensures var sh := SharesOf(6, 1);
            && Low(sh.a, 8) == 0x80 && High(sh.a, 8) == 0 && Low(sh.b, 9) == 0x400 && High(sh.b, 9) == 0
            && Low(sh.c, 13) == 0x1000000 && High(sh.c, 13) == 0 && Low(sh.d, 14) == TWO_28 && High(sh.d, 14) == 0
  {
  }

  lemma Shares7()
    ensures var sh := SharesOf(7, 8);
            && Low(sh.a, 9) == 0x400 && High(sh.a, 9) == 0 && Low(sh.b, 10) == 0x4000 && High(sh.b, 10) == 0
            && Low(sh.c, 14) == TWO_28 && High(sh.c, 14) == 0 && Low(sh.d, 15) == 0 && High(sh.d, 15) == 8
  {
  }

  lemma Shares8()
    ensures var sh := SharesOf(8, 0x80);
            && Low(sh.a, 10) == 0x4000 && High(sh.a, 10) == 0 && Low(sh.b, 11) == 0x20000 && High(sh.b, 11) == 0
            && Low(sh.c, 15) == 0 && High(sh.c, 15) == 8 && Low(sh.d, 16) == 0 && High(sh.d, 16) == 0x40
  {
  }

  lemma Added6()
    ensures Added(S6[6 := 0], 6, 1) == S7
  {
    hide SharesOf, Low, High, Radix;
    Shares6();
    Radices(6);
    assert BorrowsOf(S6[6 := 0], 6, 1) == Borrows(1, 1, 1, 1, 1, 1);
  }

  lemma Added7()
    ensures Added(S7[7 := 0], 7, 8) == S8
  {
    hide SharesOf, Low, High, Radix;
    Shares7();
    Radices(7);
    assert BorrowsOf(S7[7 := 0], 7, 8) == Borrows(1, 1, 1, 1, 0, 0);
  }

  lemma Added8()
    ensures Added(S8[8 := 0], 8, 0x80) == S9
  {
    hide SharesOf, Low, High, Radix;
    Shares8();
    Radices(8);
    assert BorrowsOf(S8[8 := 0], 8, 0x80) == Borrows(0, 0, 0, 0, 0, 1);
  }

  lemma OneStep(s: seq<nat>, i: nat, x: nat)
    requires |s| == 18 && i <= 8 && 0 < s[i] == x < Radix(i) && s[i + 1] < TWO_32
    ensures Eliminate(s, i) == Added(s[i := 0], i, x)
  {
    hide Added;
    Small(s[i + 1]);
    Cut(x, i, 0, x);
    assert s[i := 0][i + 1 := s[i + 1]] == s[i := 0];
  }

  /** Columns that are digits already are only copied. */
  lemma {:induction false} SplitOfDigits(b: seq<nat>, n: nat)
    requires n <= |b| && forall k :: 0 <= k < |b| ==> b[k] < Radix(k)
    ensures SplitUpTo(b, n) == (b[..n], 0)
  {
    hide Low, High, Radix;
    if n > 0 {
      SplitOfDigits(b, n - 1);
      Cut(b[n - 1], n - 1, 0, b[n - 1]);
      if n >= 2 {
        NothingAbove(b[n - 2], n - 2);
      }
      if n >= 3 {
        NothingAbove(b[n - 3], n - 3);
      }
      assert b[..n] == b[..n - 1] + [b[n - 1]];
    }
  }

  lemma NothingAbove(n: nat, k: nat)
    requires n < Radix(k)
    ensures High(n, k) == 0 && Mid(n, k) == 0 && Top(n, k) == 0
  {
  }

  lemma SmallSplit()
    ensures Split(SMALL_PRODUCT) == S6
  {
    hide Mid, Top, High, SplitUpTo;
    SplitOfDigits(SMALL_PRODUCT, 17);
    NothingAbove(SMALL_PRODUCT[15], 15);
    NothingAbove(SMALL_PRODUCT[16], 16);
    assert SMALL_PRODUCT[..17] == SMALL_PRODUCT;
  }

  lemma SmallIdle()
    ensures State(SMALL_PRODUCT, 6) == S6
  {
    hide Eliminate, Split;
    SmallSplit();
    Idle(S6, 0);
    Idle(S6, 1);
    Idle(S6, 2);
    Idle(S6, 3);
    Idle(S6, 4);
    Idle(S6, 5);
    assert State(SMALL_PRODUCT, 2) == S6;
    assert State(SMALL_PRODUCT, 4) == S6;
  }

  lemma SmallState()
    ensures State(SMALL_PRODUCT, 6) == S6 && State(SMALL_PRODUCT, 9) == S9
  {
    hide Eliminate, Split, Added;
    SmallIdle();
    OneStep(S6, 6, 1);
    Added6();
    assert State(SMALL_PRODUCT, 7) == S7;
    OneStep(S7, 7, 8);
    Added7();
    assert State(SMALL_PRODUCT, 8) == S8;
    OneStep(S8, 8, 0x80);
    Added8();
  }

  lemma FoldOne(k: nat, m: nat, c: nat, low: nat, high: nat)
    requires k < 9 && Moved(S9, k) == m && FoldUpTo(S9, k) == (SMALL_RESULT[..k], c)
    requires Wrap(m + c) == low + high * Radix(k) && low < Radix(k) && low == SMALL_RESULT[k]
    ensures FoldUpTo(S9, k + 1) == (SMALL_RESULT[..k + 1], high)
  {
    hide Moved, Wrap;
    Cut(Wrap(m + c), k, high, low);
    assert SMALL_RESULT[..k + 1] == SMALL_RESULT[..k] + [low];
  }

  lemma SmallFold()
    ensures FoldUpTo(S9, 9) == (SMALL_RESULT, 0)
  {
    hide FoldUpTo;
    FoldNone();
    FoldOne(0, 0x20000000, 0x0, 0x0, 0x1);
    FoldOne(1, 0x1FFFFFFF, 0x1, 0x0, 0x2);
    FoldOne(2, 0x1FFDFFFE, 0x2, 0x1FFE0000, 0x0);
    FoldOne(3, 0x1FFFFFFF, 0x0, 0xFFFFFFF, 0x1);
    FoldOne(4, 0x1EFFFFFE, 0x1, 0x1EFFFFFF, 0x0);
    FoldOne(5, 0xFFFFFFF, 0x0, 0xFFFFFFF, 0x0);
    FoldOne(6, 0xFFFFFFFF, 0x0, 0x1FFFFFFF, 0x7);
    FoldOne(7, 0x10000000, 0x7, 0x7, 0x1);
    FoldOne(8, 0x3F, 0x1, 0x40, 0x0);
    assert SMALL_RESULT[..9] == SMALL_RESULT;
  }

  lemma FoldNone()
    ensures FoldUpTo(S9, 0) == (SMALL_RESULT[..0], 0)
  {
  }

  lemma SmallColumns()
    ensures ProductColumns(SMALL, ONE) == SMALL_PRODUCT
  {
    hide Column;
    MulColumnsAre(SMALL, ONE);
  }

  /** In the product of these two elements a debt stays unsettled, and the result is not the product divided by
      2^257. */
  lemma SmallProductIsWrong()
    ensures Bounded(SMALL) && Bounded(ONE) && !Settles(ProductColumns(SMALL, ONE))
    ensures Eval(Reduced(ProductColumns(SMALL, ONE))) * TWO_257 % P != Eval(SMALL) * Eval(ONE) % P
  {
    hide State, FoldUpTo, Eval, Column, Settles;
    ProductsFit(SMALL, ONE);
    SmallColumns();
    SmallState();
    SmallFold();
    assert Plus(SMALL_RESULT, CarryRow(0)) == SMALL_RESULT;
    SmallValues();
    ReducedExactly(ProductColumns(SMALL, ONE));
  }

  lemma {:induction false} DigitsBelow(s: seq<nat>, n: nat)
    requires n <= |s| && forall k :: 0 <= k < n ==> s[k] < Radix(k)
    ensures EvalUpTo(s, n) < Weight(n)
  {
    hide Radix;
    if n > 0 {
      DigitsBelow(s, n - 1);
      MulMonotone(s[n - 1] + 1, Radix(n - 1), Weight(n - 1));
    }
  }

  /** Digits are determined by the number they stand for. */
  lemma {:induction false} SameDigits(s: seq<nat>, t: seq<nat>, n: nat)
    requires n <= |s| && n <= |t| && EvalUpTo(s, n) == EvalUpTo(t, n)
    requires forall k :: 0 <= k < n ==> s[k] < Radix(k) && t[k] < Radix(k)
    ensures s[..n] == t[..n]
  {
    hide Radix, Weight;
    if n > 0 {
      DigitsBelow(s, n - 1);
      DigitsBelow(t, n - 1);
      EvalNotNegative(s, n - 1);
      EvalNotNegative(t, n - 1);
      SameDigit(s[n - 1], t[n - 1], Weight(n - 1), EvalUpTo(s, n - 1), EvalUpTo(t, n - 1));
      SameDigits(s, t, n - 1);
      assert s[..n] == s[..n - 1] + [s[n - 1]] && t[..n] == t[..n - 1] + [t[n - 1]];
    }
  }

  lemma SameDigit(a: nat, b: nat, w: nat, p: nat, q: nat)
    requires p < w && q < w && p + a * w == q + b * w
    ensures a == b && p == q
  {
    if a < b {
      MulMonotone(a + 1, b, w);
    } else if b < a {
      MulMonotone(b + 1, a, w);
    }
  }

  /** Both elements arise: they are the limbs that FromBig makes of the two numbers, and of no others. */
  lemma SmallArises(limbs: seq<nat>)
    requires |limbs| == 9 && forall k :: 0 <= k < 9 ==> limbs[k] < Radix(k)
    ensures Eval(limbs) == (Eval(SMALL) * R_INVERSE) * TWO_257 % P ==> limbs == SMALL
    ensures Eval(limbs) == R_INVERSE * TWO_257 % P ==> limbs == ONE
  {
    hide Eval, Radix, Weight, EvalUpTo;
    SmallValues();
    var n := Eval(SMALL);
    Inverted(n);
    Inverted(1);
    OneValue();
    SmallDigits();
    EvalWhole(limbs);
    EvalWhole(SMALL);
    EvalWhole(ONE);
    if Eval(limbs) == n {
      SameDigits(limbs, SMALL, 9);
    }
    if Eval(limbs) == 1 {
      SameDigits(limbs, ONE, 9);
    }
  }

  lemma Inverted(n: nat)
    requires n < P
    ensures n * R_INVERSE * TWO_257 % P == n
  {
    assert TWO_257 * R_INVERSE == 1 + R_QUOTIENT * P;
    Associate(n, R_INVERSE, TWO_257);
    Spread(n, 1, R_QUOTIENT * P);
    Associate(n, R_QUOTIENT, P);
    SameResidue(n, n * R_INVERSE * TWO_257, n * R_QUOTIENT);
  }

  lemma OneValue()
    ensures Eval(ONE) == 1
  {
    UpperZero(ONE, 1, 9);
  }

  lemma SmallDigits()
    ensures forall k :: 0 <= k < 9 ==> SMALL[k] < Radix(k) && ONE[k] < Radix(k)
  {
  }

  lemma SmallValues()
    ensures Eval(SMALL_PRODUCT) == Eval(SMALL) == 0x800000008000000000000000000000000000000000000000000
    ensures Eval(SMALL_RESULT) == 0x400000007fffffffffffffffbfffffffffffffffc000000000000000000
  {
    hide Weight, Eval;
    AllWeights();
    LowerZero(SMALL_PRODUCT, 6);
    LowerZero(SMALL, 6);
    EvalWhole(SMALL);
    assert EvalUpTo(SMALL, 8) == EvalUpTo(SMALL, 7) + 8 * Weight(7);
    assert EvalUpTo(SMALL, 9) == EvalUpTo(SMALL, 8);
    UpperZero(SMALL_PRODUCT, 8, 17);
    EvalWhole(SMALL_PRODUCT);
    EvalWhole(SMALL_RESULT);
    var r := SMALL_RESULT;
    assert EvalUpTo(SMALL_PRODUCT, 8) == EvalUpTo(SMALL_PRODUCT, 7) + 8 * Weight(7);
    assert EvalUpTo(r, 2) == 0;
    assert EvalUpTo(r, 4) == r[2] * Weight(2) + r[3] * Weight(3);
    assert EvalUpTo(r, 6) == EvalUpTo(r, 4) + r[4] * Weight(4) + r[5] * Weight(5);
    assert EvalUpTo(r, 8) == EvalUpTo(r, 6) + r[6] * Weight(6) + r[7] * Weight(7);
  }

  lemma {:induction false} UpperZero(s: seq<nat>, n: nat, m: nat)
    requires n <= m <= |s| && forall k :: n <= k < m ==> s[k] == 0
    ensures EvalUpTo(s, m) == EvalUpTo(s, n)
  {
    if n < m {
      UpperZero(s, n, m - 1);
    }
  }
}
