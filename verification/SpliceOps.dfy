// protocol/vm/splice.go and bitwise.go: instructions on byte strings.
module SpliceOps {
  import opened Bytes
  import opened VmTypes
  import opened Ops
  import opened Pushdata
  import opened Machine

  /** CAT and CATPUSHDATA: the cost of the copy is charged at once and given back at the end. */
  function Concatenate(c: Core, asPushdata: bool): (r: Res<()>)
    ensures Pays(c, r)
  {
    hide ApplyCost, PopTwo, Net;
    var (c, _) :- ApplyCost(c, 4);
    var (c, ab) :- PopTwo(c);
    var (a, b) := ab;
    var (c, _) :- ApplyCost(c, |a| + |b|);
    Push(Defer(c, -(|a| + |b|)), a + if asPushdata then PushdataBytes(b) else b, true)
  }

  /** The size that SUBSTR, LEFT and RIGHT start with, charged at once and given back at the end. */
  function PopSize(c: Core): (r: Res<nat>)
    ensures Pays(c, r)
    ensures c.runLimit >= 0 ==> Net(r.core) <= Net(c)
  {
    var (c, _) :- ApplyCost(c, 4);
    var (c, size) :- PopInt(c, true);
    if size < 0 then Bad(c, BadValue)
    else
      var (c, _) :- ApplyCost(c, size);
      Good(Defer(c, -size), size)
  }

  function Substr(c: Core): (r: Res<()>)
    ensures Pays(c, r)
  {
    hide PopSize, PopInt, Pop, Net;
    var (c, size) :- PopSize(c);
    var (c, offset) :- PopInt(c, true);
    if offset < 0 then Bad(c, BadValue)
    else
      var (c, str) :- Pop(c, true);
      if offset + size > MAX_INT64 || offset + size > |str| then Bad(c, BadValue)
      else Push(c, str[offset..offset + size], true)
  }

  function Left(c: Core): (r: Res<()>)
    ensures Pays(c, r)
  {
    var (c, size) :- PopSize(c);
    var (c, str) :- Pop(c, true);
    if size > |str| then Bad(c, BadValue) else Push(c, str[..size], true)
  }

  function Right(c: Core): (r: Res<()>)
    ensures Pays(c, r)
  {
    var (c, size) :- PopSize(c);
    var (c, str) :- Pop(c, true);
    if size > |str| then Bad(c, BadValue) else Push(c, str[|str| - size..], true)
  }

  function SizeOf(c: Core): (r: Res<()>)
    ensures Pays(c, r)
  {
    var (c, _) :- ApplyCost(c, 1);
    var (c, str) :- Top(c);
    Push(c, Int64Bytes(|str|), true)
  }

  // --------------------------------------------------------------------- bitwise

  function Min(m: nat, n: nat): nat {
    if m < n then m else n
  }

  function Max(m: nat, n: nat): nat {
    if m < n then n else m
  }

  function ByteAt(x: Bytes, i: nat): Byte {
    if i < |x| then x[i] else 0
  }

  function BitOp(op: Byte, a: Byte, b: Byte): Byte {
    var x, y := a as bv8, b as bv8;
    var z := if op == OP_AND then x & y else if op == OP_OR then x | y else x ^ y;
    z as nat
  }

  function Invert(c: Core): (r: Res<()>)
    ensures Pays(c, r)
  {
    var (c, _) :- ApplyCost(c, 1);
    var (c, top) :- Top(c);
    var (c, _) :- ApplyCost(c, |top|);
    var rest := c.data[..|c.data| - 1];
    var inverted := seq(|top|, i requires 0 <= i < |top| => 255 - top[i]);
    StackCostSnoc(rest, inverted);
    Good(c.(data := rest + [inverted]), ())
  }

  /** AND works on the common length, OR and XOR pad the shorter operand with zeros. */
  function BitwiseValue(op: Byte, a: Bytes, b: Bytes): Bytes {
    var n := if op == OP_AND then Min(|a|, |b|) else Max(|a|, |b|);
    seq(n, i requires 0 <= i < n => BitOp(op, ByteAt(a, i), ByteAt(b, i)))
  }

  function Bitwise(c: Core, op: Byte): (r: Res<()>)
    ensures Pays(c, r)
  {
    hide ApplyCost, PopTwo, Net;
    var (c, _) :- ApplyCost(c, 1);
    var (c, ab) :- PopTwo(c);
    var x := BitwiseValue(op, ab.0, ab.1);
    var (c, _) :- ApplyCost(c, |x|);
    Push(c, x, true)
  }

  function Compare(c: Core): (r: Res<bool>)
    ensures Takes(c, r, 1)
  {
    hide ApplyCost, PopTwo, Net;
    var (c, _) :- ApplyCost(c, 1);
    var (c, ab) :- PopTwo(c);
    var (c, _) :- ApplyCost(c, Min(|ab.0|, |ab.1|));
    Good(c, ab.0 == ab.1)
  }

  function Equal(c: Core): (r: Res<()>)
    ensures Pays(c, r)
  {
    var (c, same) :- Compare(c);
    Push(c, BoolBytes(same), true)
  }

  function EqualVerify(c: Core): (r: Res<()>)
    ensures Pays(c, r)
  {
    var (c, same) :- Compare(c);
    if same then Good(c, ()) else Bad(c, VerifyFailed)
  }

  // ---------------------------------------------------------- taking apart again

  /** What an instruction on the top of the stack leaves there. */
  predicate Yields(r: Res<()>, data: seq<Bytes>) {
    r.Good? ==> r.core.data == data
  }

  lemma TopItem(base: seq<Bytes>, x: Bytes)
    ensures (base + [x])[|base|] == x && (base + [x])[..|base|] == base
  {
  }

  lemma PopTwoLeaves(c: Core, base: seq<Bytes>, a: Bytes, b: Bytes)
    requires c.data == base + [a, b]
    ensures var r := PopTwo(c); r.Good? && r.core.data == base && r.val == (a, b) && r.core.runLimit == c.runLimit
  {
    hide StackCost;
    assert c.data == (base + [a]) + [b];
    TopItem(base + [a], b);
    TopItem(base, a);
  }

  /** CAT joins the two items on top. */
  lemma CatJoins(c: Core, base: seq<Bytes>, a: Bytes, b: Bytes)
    requires c.data == base + [a, b]
    ensures Yields(Concatenate(c, false), base + [a + b])
    ensures Yields(Concatenate(c, true), base + [a + PushdataBytes(b)])
  {
    hide StackCost, PopTwo, PushdataBytes;
    PopTwoLeaves(ApplyCost(c, 4).core, base, a, b);
  }

  lemma PopSizeLeaves(c: Core, base: seq<Bytes>, n: nat)
    requires n <= MAX_INT64 && c.data == base + [Int64Bytes(n)]
    ensures var r := PopSize(c); r.Good? ==> r.core.data == base && r.val == n
  {
    hide StackCost, AsInt64, Int64Bytes;
    TopItem(base, Int64Bytes(n));
    Int64RoundTrip(n);
  }

  /** LEFT and RIGHT take the two parts of a joined item apart again. */
  lemma LeftAndRightUndoCat(c: Core, base: seq<Bytes>, a: Bytes, b: Bytes)
    requires |a| <= MAX_INT64 && |b| <= MAX_INT64
    ensures c.data == base + [a + b] + [Int64Bytes(|a|)] ==> Yields(Left(c), base + [a])
    ensures c.data == base + [a + b] + [Int64Bytes(|b|)] ==> Yields(Right(c), base + [b])
  {
    hide StackCost, PopSize, Int64Bytes;
    TopItem(base, a + b);
    if c.data == base + [a + b] + [Int64Bytes(|a|)] {
      PopSizeLeaves(c, base + [a + b], |a|);
      assert (a + b)[..|a|] == a;
    }
    if c.data == base + [a + b] + [Int64Bytes(|b|)] {
      PopSizeLeaves(c, base + [a + b], |b|);
      assert (a + b)[|a + b| - |b|..] == b;
    }
  }

  /** SUBSTR takes a middle part out. */
  lemma SubstrCutsOut(c: Core, base: seq<Bytes>, a: Bytes, b: Bytes, d: Bytes)
    requires |a| + |b| <= MAX_INT64
    requires c.data == base + [a + b + d] + [Int64Bytes(|a|)] + [Int64Bytes(|b|)]
    ensures Yields(Substr(c), base + [b])
  {
    hide StackCost, PopSize, Int64Bytes, AsInt64;
    PopSizeLeaves(c, base + [a + b + d] + [Int64Bytes(|a|)], |b|);
    TopItem(base + [a + b + d], Int64Bytes(|a|));
    TopItem(base, a + b + d);
    Int64RoundTrip(|a|);
    assert (a + b + d)[|a|..|a| + |b|] == b;
  }

  /** INVERT undoes itself. */
  lemma InvertTwice(c: Core)
    requires Invert(c).Good?
    ensures Yields(Invert(Invert(c).core), c.data)
  {
    hide StackCost;
    var base, x := c.data[..|c.data| - 1], c.data[|c.data| - 1];
    assert c.data == base + [x];
    var y := Invert(c).core.data[|base|];
    TopItem(base, y);
    assert seq(|y|, i requires 0 <= i < |y| => 255 - y[i]) == x;
  }
}
