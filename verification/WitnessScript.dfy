// The life of a pay-to-script-hash output: the script of a quorum of keys, the
// program that commits to its hash, the witness that collects signatures
// (core/txbuilder/rawtxsig_witness.go) and the run that checks it.
module WitnessScript {
  import opened Bytes
  import opened Machine
  import opened CryptoOps

  // --------------------------------------------------------------- the witness

  /** The first signatures present in the first n slots, at most `quorum` of them. */
  function Picked(slots: seq<Bytes>, n: nat, quorum: int): seq<Bytes>
    requires n <= |slots|
  {
    if n == 0 then []
    else
      var before := Picked(slots, n - 1, quorum);
      if |before| < quorum && slots[n - 1] != [] then before + [slots[n - 1]] else before
  }

  /** Which slots they come from. */
  function PickedAt(slots: seq<Bytes>, n: nat, quorum: int): (r: seq<nat>)
    requires n <= |slots|
    ensures |r| == |Picked(slots, n, quorum)|
  {
    if n == 0 then []
    else
      var before := PickedAt(slots, n - 1, quorum);
      if |before| < quorum && slots[n - 1] != [] then before + [n - 1] else before
  }

  function Present(slots: seq<Bytes>, n: nat): nat
    requires n <= |slots|
  {
    if n == 0 then 0 else Present(slots, n - 1) + if slots[n - 1] != [] then 1 else 0
  }

  method Materialize(slots: seq<Bytes>, quorum: int, args: seq<Bytes>) returns (r: seq<Bytes>)
    ensures r == args + Picked(slots, |slots|, quorum)
  {
    r := args;
    var nsigs, i := 0, 0;
    while i < |slots| && nsigs < quorum
      invariant i <= |slots| && r == args + Picked(slots, i, quorum) && nsigs == |Picked(slots, i, quorum)|
    {
      if |slots[i]| > 0 {
        r := r + [slots[i]];
        nsigs := nsigs + 1;
      }
      i := i + 1;
    }
    PickedEnough(slots, i, |slots|, quorum);
  }

  /** Once there are enough signatures, later slots are not looked at. */
  lemma {:induction false} PickedEnough(slots: seq<Bytes>, m: nat, n: nat, quorum: int)
    requires m <= n <= |slots| && (m == n || |Picked(slots, m, quorum)| >= quorum)
    ensures Picked(slots, n, quorum) == Picked(slots, m, quorum)
  {
    if m < n {
      PickedEnough(slots, m, n - 1, quorum);
    }
  }

  lemma {:induction false} PickedCount(slots: seq<Bytes>, n: nat, quorum: nat)
    requires n <= |slots|
    ensures |Picked(slots, n, quorum)| == if Present(slots, n) < quorum then Present(slots, n) else quorum
  {
    if n > 0 {
      PickedCount(slots, n - 1, quorum);
    }
  }

  /** Every signature present was made with the key of its slot. */
  predicate ValidSlots(ctx: Context, keys: seq<Bytes>, msg: Bytes, slots: seq<Bytes>) {
    |slots| == |keys| && forall i :: 0 <= i < |slots| && slots[i] != [] ==> ctx.verifySig(keys[i], msg, slots[i])
  }

  lemma {:induction false} PickedMatches(ctx: Context, keys: seq<Bytes>, msg: Bytes, slots: seq<Bytes>, n: nat,
                                         quorum: int)
    requires ValidSlots(ctx, keys, msg, slots) && n <= |slots|
    ensures Matching(ctx, keys, msg, Picked(slots, n, quorum), PickedAt(slots, n, quorum))
    ensures forall i :: 0 <= i < |PickedAt(slots, n, quorum)| ==> PickedAt(slots, n, quorum)[i] < n
  {
    if n > 0 {
      PickedMatches(ctx, keys, msg, slots, n - 1, quorum);
    }
  }

  // ----------------------------------------------------------- the stack, reversed

  function Reversed<T>(s: seq<T>): (r: seq<T>)
    ensures |r| == |s| && forall i :: 0 <= i < |s| ==> r[i] == s[|s| - 1 - i]
  {
    seq(|s|, i requires 0 <= i < |s| => s[|s| - 1 - i])
  }

  function Mirrored(at: seq<nat>, n: nat): (r: seq<nat>)
    requires forall i :: 0 <= i < |at| ==> at[i] < n
    ensures |r| == |at| && forall i :: 0 <= i < |at| ==> r[i] == n - 1 - Reversed(at)[i]
  {
    var back := Reversed(at);
    seq(|at|, i requires 0 <= i < |at| => (n - 1 - back[i]) as nat)
  }

  /** Items come off the stack in the opposite order, and a matching can be read from its other end. */
  lemma MatchingReversed(ctx: Context, keys: seq<Bytes>, msg: Bytes, sigs: seq<Bytes>, at: seq<nat>)
    requires Matching(ctx, keys, msg, sigs, at)
    ensures Matching(ctx, Reversed(keys), msg, Reversed(sigs), Mirrored(at, |keys|))
  {
    hide Mirrored, Reversed;
    var back, n := Mirrored(at, |keys|), |at|;
    forall i | 0 <= i < n
      ensures back[i] < |keys| && ctx.verifySig(Reversed(keys)[back[i]], msg, Reversed(sigs)[i])
    {
      var j := n - 1 - i;
      assert at[j] == Reversed(at)[i] && keys[at[j]] == Reversed(keys)[back[i]];
    }
    forall i, j | 0 <= i < j < n
      ensures back[i] < back[j]
    {
      assert Reversed(at)[i] == at[n - 1 - i] && Reversed(at)[j] == at[n - 1 - j];
    }
  }

  lemma NoCost()
    ensures StackCost([]) == 0
  {
  }

  lemma FirstCost(s: seq<Bytes>)
    requires s != []
    ensures StackCost(s) == ItemCost(s[0]) + StackCost(s[1..])
  {
    assert s == [s[0]] + s[1..];
    StackCostConcat([s[0]], s[1..]);
    StackCostSnoc([], s[0]);
    assert [] + [s[0]] == [s[0]];
  }

  lemma PopCore(c: Core, below: seq<Bytes>, x: Bytes)
    requires c.data == below + [x]
    ensures Pop(c, true) == Good(c.(deferred := c.deferred + ItemCost(x), data := below), x)
  {
    assert c.data[..|c.data| - 1] == below;
  }

  lemma {:induction false} PopManyReversed(c: Core, below: seq<Bytes>, items: seq<Bytes>, n: nat)
    requires n <= |items| && c.data == below + items
    ensures var r := PopMany(c, n, true);
            && r.Good? && |r.val| == n && (forall i :: 0 <= i < n ==> r.val[i] == items[|items| - 1 - i])
            && r.core == c.(data := below + items[..|items| - n],
                            deferred := c.deferred + StackCost(items[|items| - n..]))
  {
    hide StackCost, Pop;
    if n == 0 {
      assert items[..|items|] == items && items[|items|..] == [];
      NoCost();
    } else {
      PopManyReversed(c, below, items, n - 1);
      var k := |items| - n;
      var c1 := PopMany(c, n - 1, true).core;
      assert c1.data == below + items[..k] + [items[k]];
      PopCore(c1, below + items[..k], items[k]);
      FirstCost(items[k..]);
      assert items[k..][1..] == items[k + 1..];
    }
  }
}
