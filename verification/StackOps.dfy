// protocol/vm/stack.go and pushdata.go: instructions that push constants and
// rearrange the stacks.
module StackOps {
  import opened Bytes
  import opened VmTypes
  import opened Machine

  function PushBytes(c: Core, x: Bytes): (r: Res<()>)
    ensures Pays(c, r)
  {
    var (c, _) :- ApplyCost(c, 1);
    Push(c, x, false)
  }

  function ToAltStack(c: Core): (r: Res<()>)
    ensures Pays(c, r)
  {
    var (c, _) :- ApplyCost(c, 2);
    var (c, x) :- Top(c);
    StackCostSnoc(c.alt, x);
    Good(c.(alt := c.alt + [x], data := c.data[..|c.data| - 1]), ())
  }

  function FromAltStack(c: Core): (r: Res<()>)
    ensures Pays(c, r)
  {
    var (c, _) :- ApplyCost(c, 2);
    if c.alt == [] then Bad(c, AltStackUnderflow)
    else
      var x := c.alt[|c.alt| - 1];
      StackCostSnoc(c.data, x);
      Good(c.(data := c.data + [x], alt := c.alt[..|c.alt| - 1]), ())
  }

  function Drop(c: Core): (r: Res<()>)
    ensures Pays(c, r)
  {
    var (c, _) :- ApplyCost(c, 1);
    var (c, _) :- Pop(c, false);
    Good(c, ())
  }

  function Drop2(c: Core): (r: Res<()>)
    ensures Pays(c, r)
  {
    var (c, _) :- ApplyCost(c, 2);
    var (c, _) :- Pop(c, false);
    var (c, _) :- Pop(c, false);
    Good(c, ())
  }

  /** Pushes n times the item that lies `depth` below the top, so a run of `depth` items is copied in order. */
  function PushFrom(c: Core, depth: nat, n: nat): (r: Res<()>)
    requires 0 < depth <= |c.data|
    ensures Takes(c, r, 0)
    decreases n
  {
    if n == 0 then Good(c, ())
    else
      var (c, _) :- Push(c, c.data[|c.data| - depth], false);
      PushFrom(c, depth, n - 1)
  }

  /** DUP, 2DUP, 3DUP. */
  function Dup(c: Core, n: nat): (r: Res<()>)
    requires n > 0
    ensures Pays(c, r)
  {
    var (c, _) :- ApplyCost(c, n);
    if |c.data| < n then Bad(c, DataStackUnderflow) else PushFrom(c, n, n)
  }

  function Over2(c: Core): (r: Res<()>)
    ensures Pays(c, r)
  {
    var (c, _) :- ApplyCost(c, 2);
    if |c.data| < 4 then Bad(c, DataStackUnderflow) else PushFrom(c, 4, 2)
  }

  /** The stack with the m items that start n below the top moved to the top. */
  function Moved(s: seq<Bytes>, n: nat, m: nat): (r: seq<Bytes>)
    requires m <= n <= |s|
    ensures StackCost(r) == StackCost(s)
  {
    var base, moving, rest := s[..|s| - n], s[|s| - n..|s| - n + m], s[|s| - n + m..];
    assert s == base + moving + rest;
    StackCostConcat(base + moving, rest);
    StackCostConcat(base, moving);
    StackCostConcat(base + rest, moving);
    StackCostConcat(base, rest);
    base + rest + moving
  }

  function MoveUp(c: Core, n: nat, m: nat): (r: Res<()>)
    requires m <= n
    ensures Takes(c, r, 0)
  {
    if |c.data| < n then Bad(c, DataStackUnderflow) else Good(c.(data := Moved(c.data, n, m)), ())
  }

  /** 2ROT (6, 2), 2SWAP (4, 2), ROT (3, 1) and SWAP (2, 1) differ in the items moved and in cost. */
  function Rearrange(c: Core, cost: nat, n: nat, m: nat): (r: Res<()>)
    requires m <= n && cost > 0
    ensures Pays(c, r)
  {
    var (c, _) :- ApplyCost(c, cost);
    MoveUp(c, n, m)
  }

  function IfDup(c: Core): (r: Res<()>)
    ensures Pays(c, r)
  {
    var (c, _) :- ApplyCost(c, 1);
    var (c, x) :- Top(c);
    if AsBool(x) then Push(c, x, false) else Good(c, ())
  }

  function Depth(c: Core): (r: Res<()>)
    ensures Pays(c, r)
  {
    var (c, _) :- ApplyCost(c, 1);
    Push(c, Int64Bytes(|c.data|), false)
  }

  function Nip(c: Core): (r: Res<()>)
    ensures Pays(c, r)
  {
    var (c, _) :- ApplyCost(c, 1);
    var (c, top) :- Top(c);
    var (c, _) :- Pop(c.(data := c.data[..|c.data| - 1]), false);
    StackCostSnoc(c.data, top);
    Good(c.(data := c.data + [top]), ())
  }

  function Over(c: Core): (r: Res<()>)
    ensures Pays(c, r)
  {
    var (c, _) :- ApplyCost(c, 1);
    if |c.data| < 2 then Bad(c, DataStackUnderflow) else Push(c, c.data[|c.data| - 2], false)
  }

  /** The depth that PICK and ROLL read from the stack, counting the top as one. */
  function PopDepth(c: Core): (r: Res<nat>)
    ensures Pays(c, r) && (r.Good? ==> r.val > 0)
    ensures c.runLimit >= 0 ==> Net(r.core) <= Net(c)
  {
    var (c, _) :- ApplyCost(c, 2);
    var (c, n) :- PopInt(c, false);
    if n < 0 || n == MAX_INT64 then Bad(c, BadValue) else Good(c, n + 1)
  }

  function Pick(c: Core): (r: Res<()>)
    ensures Pays(c, r)
  {
    var (c, n) :- PopDepth(c);
    if |c.data| < n then Bad(c, DataStackUnderflow) else Push(c, c.data[|c.data| - n], false)
  }

  function Roll(c: Core): (r: Res<()>)
    ensures Pays(c, r)
  {
    var (c, n) :- PopDepth(c);
    MoveUp(c, n, 1)
  }

  function Tuck(c: Core): (r: Res<()>)
    ensures Pays(c, r)
  {
    var (c, _) :- ApplyCost(c, 1);
    if |c.data| < 2 then Bad(c, DataStackUnderflow)
    else
      var l := |c.data|;
      var top2 := c.data[l - 2..];
      assert c.data == c.data[..l - 2] + top2;
      StackCostConcat(c.data[..l - 2], top2);
      var (c, _) :- Push(c.(data := c.data[..l - 2]), top2[1], false);
      StackCostConcat(c.data, top2);
      Good(c.(data := c.data + top2), ())
  }

  // -------------------------------------------------------------- undoing rearrangements

  /** Moving the lower m of n items up and then the other n - m restores the stack: SWAP and 2SWAP undo themselves,
      ROT is undone by moving two. */
  lemma MovedBack(s: seq<Bytes>, n: nat, m: nat)
    requires m <= n <= |s|
    ensures Moved(Moved(s, n, m), n, n - m) == s
  {
    hide StackCost;
    var b := |s| - n;
    var base, moving, rest := s[..b], s[b..b + m], s[b + m..];
    assert s == base + moving + rest;
    ThreeSlices(base, rest, moving);
    assert Moved(s, n, m) == base + rest + moving;
  }

  lemma ThreeSlices(a: seq<Bytes>, b: seq<Bytes>, c: seq<Bytes>)
    ensures var s := a + b + c; s[..|a|] == a && s[|a|..|a| + |b|] == b && s[|a| + |b|..] == c
  {
  }

  /** Only the top n items are touched, and no item is lost or made. */
  lemma MovedKeeps(s: seq<Bytes>, n: nat, m: nat)
    requires m <= n <= |s|
    ensures multiset(Moved(s, n, m)) == multiset(s) && Moved(s, n, m)[..|s| - n] == s[..|s| - n]
    ensures Moved(s, n, m)[|s| - m..] == s[|s| - n..|s| - n + m]
  {
    hide StackCost;
    var b := |s| - n;
    var base, moving, rest := s[..b], s[b..b + m], s[b + m..];
    assert Moved(s, n, m) == base + rest + moving;
    assert s == base + moving + rest;
    Pieces(base, moving, rest);
  }

  lemma Pieces(a: seq<Bytes>, b: seq<Bytes>, c: seq<Bytes>)
    ensures multiset(a + c + b) == multiset(a + b + c) && (a + c + b)[..|a|] == a && (a + c + b)[|a| + |c|..] == b
  {
  }

  /** What goes to the alternate stack comes back. */
  lemma AltStackRoundTrip(c: Core)
    requires c.data != [] && c.runLimit >= 4
    ensures var r := ToAltStack(c);
            r.Good? && FromAltStack(r.core) == Good(c.(runLimit := c.runLimit - 4), ())
  {
    var x := c.data[|c.data| - 1];
    assert c.data == c.data[..|c.data| - 1] + [x];
    assert (c.alt + [x])[..|c.alt|] == c.alt;
  }

  /** Copying the top n items appends them once more. */
  lemma DupCopies(c: Core, n: nat)
    requires 0 < n <= |c.data| && Dup(c, n).Good?
    ensures Dup(c, n).core.data == c.data + c.data[|c.data| - n..]
  {
    hide PushFrom, StackCost;
    assert c.data[|c.data| - n..|c.data| - n + 0] == [] && c.data + [] == c.data;
    PushFromCopies(c.(runLimit := c.runLimit - n), c.data, n, 0);
    assert c.data[|c.data| - n..] == c.data[|c.data| - n..|c.data|];
  }

  lemma OneMoreCopied(start: seq<Bytes>, from: nat, at: nat)
    requires from <= at < |start|
    ensures (start + start[from..at]) + [start[at]] == start + start[from..at + 1]
  {
  }

  lemma {:induction false} PushFromCopies(c: Core, start: seq<Bytes>, depth: nat, k: nat)
    requires 0 < depth <= |start| && k <= depth && c.data == start + start[|start| - depth..|start| - depth + k]
    requires PushFrom(c, depth, depth - k).Good?
    ensures PushFrom(c, depth, depth - k).core.data == start + start[|start| - depth..]
    decreases depth - k
  {
    hide StackCost;
    if k < depth {
      var at := |start| - depth + k;
      assert c.data[|c.data| - depth] == start[at];
      var r := Push(c, start[at], false);
      OneMoreCopied(start, |start| - depth, at);
      PushFromCopies(r.core, start, depth, k + 1);
    } else {
      assert start[|start| - depth..|start|] == start[|start| - depth..];
    }
  }
}
