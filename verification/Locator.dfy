// net/netsync/block_keeper.go: the block locator a node sends, and the headers
// another node answers with.
module Locator {
  import opened Wrappers
  import opened Bc
  import opened BlockTree
  import opened BlockIndex

  const MAX_HEADERS_PER_MSG := 2048
  const TWO_64 := 0x1_0000_0000_0000_0000

  /** The heights a locator visits from `height`, when n entries are already on it. */
  function Heights(height: nat, step: nat, n: nat): (hs: seq<nat>)
    requires step > 0
    ensures |hs| > 0 && hs[0] == height
    decreases height
  {
    if height == 0 then [0]
    else [height] + Heights(if height < step then 0 else height - step, if n + 1 >= 9 then 2 * step else step, n + 1)
  }

  function HashesAt(path: seq<BlockNode>, hs: seq<nat>): (r: seq<Hash>)
    requires forall i :: 0 <= i < |hs| ==> hs[i] < |path|
    ensures |r| == |hs| && forall i :: 0 <= i < |hs| ==> r[i] == path[hs[i]].hash
  {
    seq(|hs|, i requires 0 <= i < |hs| => path[hs[i]].hash)
  }

  lemma {:induction false} HeightsBounded(height: nat, step: nat, n: nat)
    requires step > 0
    ensures forall i :: 0 <= i < |Heights(height, step, n)| ==> Heights(height, step, n)[i] <= height
    decreases height
  {
    if height > 0 {
      HeightsBounded(if height < step then 0 else height - step, if n + 1 >= 9 then 2 * step else step, n + 1);
    }
  }

  method BlockLocator(index: BlockIndex, best: BlockNode) returns (locator: seq<Hash>)
    requires WellFormed(best) && index.mainChain == Slots(Path(best))
    ensures (forall i :: 0 <= i < |Heights(best.height, 1, 0)| ==> Heights(best.height, 1, 0)[i] < |Path(best)|)
            && locator == HashesAt(Path(best), Heights(best.height, 1, 0))
  {
    hide Heights, Path, WellFormed;
    PathByHeight(best);
    HeightsBounded(best.height, 1, 0);
    PathEnds(best);
    ghost var all := Heights(best.height, 1, 0);
    locator := [];
    var header := best;
    var step := 1;
    assert all[0..] == all;
    while true
      invariant step > 0 && header.height < |Path(best)| && Path(best)[header.height] == header
      invariant |locator| <= |all| && all[|locator|..] == Heights(header.height, step, |locator|)
      invariant forall i :: 0 <= i < |locator| ==> locator[i] == Path(best)[all[i]].hash
      decreases header.height
    {
      ghost var n := |locator|;
      HeightsNext(header.height, step, n);
      assert all[n] == all[n..][0] && all[n..][1..] == all[n + 1..];
      locator := locator + [header.hash];
      if header.height == 0 {
        break;
      }
      var next := if header.height < step then 0 else header.height - step;
      header := index.NodeByHeight(next).value;
      if |locator| >= 9 {
        step := step * 2;
      }
    }
  }

  lemma HeightsNext(height: nat, step: nat, n: nat)
    requires step > 0
    ensures var hs := Heights(height, step, n);
            && hs[0] == height && (height == 0 ==> |hs| == 1)
            && (height > 0 ==>
                  hs[1..] == Heights(if height < step then 0 else height - step,
                                     if n + 1 >= 9 then 2 * step else step, n + 1))
  {
  }

  lemma PathEnds(best: BlockNode)
    requires WellFormed(best)
    ensures best.height < |Path(best)| && Path(best)[best.height] == best
  {
    PathByHeight(best);
  }

  // ------------------------------------------------------ shape of a locator

  /** A locator starts at the tip, strictly descends and ends at the genesis block. */
  lemma {:induction false} HeightsDescend(height: nat, step: nat, n: nat)
    requires step > 0
    ensures var hs := Heights(height, step, n);
            hs[|hs| - 1] == 0 && forall i :: 0 < i < |hs| ==> hs[i] < hs[i - 1]
    decreases height
  {
    if height > 0 {
      var next := if height < step then 0 else height - step;
      HeightsDescend(next, if n + 1 >= 9 then 2 * step else step, n + 1);
      var tail := Heights(next, if n + 1 >= 9 then 2 * step else step, n + 1);
      var hs := Heights(height, step, n);
      assert hs == [height] + tail;
      forall i | 0 < i < |hs|
        ensures hs[i] < hs[i - 1]
      {
        assert hs[i] == tail[i - 1];
        if i > 1 {
          assert hs[i - 1] == tail[i - 2];
        }
      }
    }
  }

  function Pow2(k: nat): nat {
    if k == 0 then 1 else 2 * Pow2(k - 1)
  }

  /** How far below the tip the k-th entry of a locator lies: nine steps of one block, then steps that double. */
  function Gone(k: nat): nat {
    if k <= 9 then k else 7 + Pow2(k - 8)
  }

  function StepAfter(n: nat): nat {
    if n <= 8 then 1 else Pow2(n - 8)
  }

  lemma GoneSteps(n: nat)
    ensures Gone(n + 1) == Gone(n) + StepAfter(n) && StepAfter(n) > 0
    ensures StepAfter(n + 1) == if n + 1 >= 9 then 2 * StepAfter(n) else StepAfter(n)
  {
    assert Pow2(0) == 1 && Pow2(1) == 2;
    PositivePow2(if n <= 8 then 0 else n - 8);
  }

  lemma {:induction false} PositivePow2(k: nat)
    ensures Pow2(k) > 0
  {
    if k > 0 {
      PositivePow2(k - 1);
    }
  }

  function BelowTip(top: nat, k: nat): nat {
    if top > Gone(k) then top - Gone(k) else 0
  }

  lemma {:induction false} HeightsFrom(top: nat, n: nat, i: nat)
    requires StepAfter(n) > 0 && i < |Heights(BelowTip(top, n), StepAfter(n), n)|
    ensures Heights(BelowTip(top, n), StepAfter(n), n)[i] == BelowTip(top, n + i)
    decreases i
  {
    hide Gone, StepAfter;
    var height, hs := BelowTip(top, n), Heights(BelowTip(top, n), StepAfter(n), n);
    if i > 0 {
      GoneSteps(n);
      GoneSteps(n + 1);
      assert hs == [height] + Heights(BelowTip(top, n + 1), StepAfter(n + 1), n + 1);
      HeightsFrom(top, n + 1, i - 1);
    }
  }

  /** The heights on a locator in closed form. */
  lemma HeightsClosedForm(top: nat, i: nat)
    requires i < |Heights(top, 1, 0)|
    ensures Heights(top, 1, 0)[i] == BelowTip(top, i)
  {
    assert BelowTip(top, 0) == top && StepAfter(0) == 1;
    HeightsFrom(top, 0, i);
  }

  lemma {:induction false} DoublingLength(height: nat, step: nat, n: nat)
    requires step > 0 && n >= 9 && |Heights(height, step, n)| >= 2
    ensures height >= step * (Pow2(|Heights(height, step, n)| - 2) - 1) + 1
    decreases height
  {
    var l := |Heights(height, step, n)|;
    if l == 2 {
      assert Pow2(0) == 1;
    } else {
      assert height >= step;
      DoublingLength(height - step, 2 * step, n + 1);
      assert Pow2(l - 2) == 2 * Pow2(l - 3);
      assert 2 * step * (Pow2(l - 3) - 1) == step * (2 * Pow2(l - 3) - 2);
      assert step * (Pow2(l - 2) - 2) + step == step * (Pow2(l - 2) - 1);
    }
  }

  /** The first nine steps go back one block each. */
  lemma {:induction false} SingleSteps(height: nat, n: nat)
    requires n <= 9 && height + n >= 9
    ensures |Heights(height, 1, n)| == 9 - n + |Heights(height - (9 - n), if n == 9 then 1 else 2, 9)|
    decreases 9 - n
  {
    if n < 9 {
      if n == 8 {
        assert Heights(height, 1, 8) == [height] + Heights(height - 1, 2, 9);
      } else {
        SingleSteps(height - 1, n + 1);
      }
    }
  }

  lemma {:induction false} ShortChain(height: nat, n: nat)
    requires height + n <= 9
    ensures |Heights(height, 1, n)| == height + 1
    decreases height
  {
    if height > 0 {
      if n + 1 >= 9 {
        assert height == 1;
      } else {
        ShortChain(height - 1, n + 1);
      }
    }
  }

  /** A locator of more than ten entries is logarithmic: 2^(entries - 10) is at most the height. */
  lemma LocatorLength(height: nat)
    ensures var l := |Heights(height, 1, 0)|; l > 10 ==> Pow2(l - 10) <= height
  {
    var l := |Heights(height, 1, 0)|;
    if height <= 9 {
      ShortChain(height, 0);
    } else {
      SingleSteps(height, 0);
      if l > 10 {
        DoublingLength(height - 9, 2, 9);
        assert Pow2(l - 10) == 2 * Pow2(l - 11);
      }
    }
  }

  // --------------------------------------------------------- answering a locator

  /** The entry a peer starts from: the first height not above the fork. */
  function StartHeight(hs: seq<nat>, fork: nat): nat {
    if hs == [] then 0 else if hs[0] <= fork then hs[0] else StartHeight(hs[1..], fork)
  }

  /** The start is never above the fork, and if it is below, the distance back to it is less than the
      distance from the fork up to the sender's tip: a peer resends less than it has to send anyway. */
  lemma {:induction false} StartNearFork(best: nat, height: nat, step: nat, n: nat, fork: nat)
    requires step > 0 && fork <= best && height <= best && best - height >= step - 1
    requires height <= fork ==> height == fork
    ensures var s := StartHeight(Heights(height, step, n), fork);
            s <= fork && (s == fork || fork - s < best - fork)
    decreases height
  {
    var hs := Heights(height, step, n);
    if height > fork {
      var next := if height < step then 0 else height - step;
      var step' := if n + 1 >= 9 then 2 * step else step;
      assert hs[1..] == Heights(next, step', n + 1);
      if next > fork {
        StartNearFork(best, next, step', n + 1, fork);
      } else {
        assert StartHeight(Heights(next, step', n + 1), fork) == next;
      }
    }
  }

  lemma LocatorNearFork(best: nat, fork: nat)
    requires fork <= best
    ensures var s := StartHeight(Heights(best, 1, 0), fork);
            s <= fork && (s == fork || fork - s < best - fork)
  {
    StartNearFork(best, best, 1, 0, fork);
  }

  /** A block's hash identifies it: what the peer knows under the hash of one of our blocks is our block. */
  predicate SameHashSameBlock(known: map<Hash, BlockNode>, path: seq<BlockNode>) {
    forall i :: 0 <= i < |path| && path[i].hash in known ==> known[path[i].hash] == path[i]
  }

  datatype LocateError = UnknownStop | BadHeight

  method LocateHeaders(index: BlockIndex, locator: seq<Hash>, stopHash: Hash, ghost best: BlockNode)
    returns (r: Result<seq<Header>, LocateError>, start: nat)
    requires WellFormed(best) && index.mainChain == Slots(Path(best))
    requires forall h :: h in index.index ==> WellFormed(index.index[h])
    ensures stopHash !in index.index <==> r == Err(UnknownStop)
    ensures stopHash in index.index ==>
      && start == StartOf(index.index, Path(best), locator)
      && r == Answer(Path(best), start, index.index[stopHash].height)
  {
    if stopHash !in index.index {
      return Err(UnknownStop), 0;
    }
    var stop := index.index[stopHash];
    start := FindStart(index, locator, best);
    var total := (stop.height - start) % TWO_64;
    if total > MAX_HEADERS_PER_MSG {
      total := MAX_HEADERS_PER_MSG;
    }
    r := CollectHeaders(index, start, total, best);
  }

  method FindStart(index: BlockIndex, locator: seq<Hash>, ghost best: BlockNode) returns (start: nat)
    requires WellFormed(best) && index.mainChain == Slots(Path(best))
    requires forall h :: h in index.index ==> WellFormed(index.index[h])
    ensures start == StartOf(index.index, Path(best), locator) < |Path(best)|
  {
    PathByHeight(best);
    var startHeader := index.NodeByHeight(0).value;
    for i := 0 to |locator|
      invariant startHeader == Path(best)[0]
      invariant StartOf(index.index, Path(best), locator) == StartOf(index.index, Path(best), locator[i..])
    {
      assert locator[i..][1..] == locator[i + 1..];
      var main := index.InMainchain(locator[i], best);
      if main {
        return index.index[locator[i]].height;
      }
    }
    return startHeader.height;
  }

  method CollectHeaders(index: BlockIndex, start: nat, total: nat, ghost best: BlockNode)
    returns (r: Result<seq<Header>, LocateError>)
    requires index.mainChain == Slots(Path(best)) && start < |Path(best)|
    ensures r == if start + total < |Path(best)| then Ok(Slice(Path(best), start + 1, start + total + 1))
            else Err(BadHeight)
  {
    var headers := [];
    for i := 1 to total + 1
      invariant start + i <= |Path(best)|
      invariant headers == Slice(Path(best), start + 1, start + i)
    {
      var node := index.NodeByHeight(start + i);
      if node.None? {
        return Err(BadHeight);
      }
      headers := headers + [HeaderOf(node.value)];
    }
    return Ok(headers);
  }

  /** The height of the first locator entry on the answering node's main chain, else the genesis block. */
  function StartOf(known: map<Hash, BlockNode>, path: seq<BlockNode>, locator: seq<Hash>): nat {
    if locator == [] then 0
    else if locator[0] in known && known[locator[0]] in path then known[locator[0]].height
    else StartOf(known, path, locator[1..])
  }

  function Slice(path: seq<BlockNode>, lo: nat, hi: nat): (r: seq<Header>)
    requires lo <= hi <= |path|
    ensures |r| == hi - lo && forall k :: 0 <= k < |r| ==> r[k] == HeaderOf(path[lo + k])
  {
    seq(hi - lo, k requires 0 <= k < hi - lo => HeaderOf(path[lo + k]))
  }

  /** At most 2048 headers after the start, up to the stop; the count is computed modulo 2^64. */
  function Answer(path: seq<BlockNode>, start: nat, stop: nat): Result<seq<Header>, LocateError> {
    var total := (stop - start) % TWO_64;
    var n := if total > MAX_HEADERS_PER_MSG then MAX_HEADERS_PER_MSG else total;
    if start + n < |path| then Ok(Slice(path, start + 1, start + n + 1)) else Err(BadHeight)
  }

  /** For two nodes whose main chains part after height `fork`, the answering node starts where the locator's
      heights first reach the common part. */
  lemma {:induction false} StartIsCommon(known: map<Hash, BlockNode>, ours: BlockNode, theirs: BlockNode, hs: seq<nat>)
    requires WellFormed(ours) && WellFormed(theirs)
    requires SameHashSameBlock(known, Path(ours))
    requires forall i :: 0 <= i < |Path(theirs)| ==> Path(theirs)[i].hash in known
    requires forall i :: 0 <= i < |hs| ==> hs[i] < |Path(ours)|
    requires CommonPrefix(Path(ours), Path(theirs)) > 0
    ensures StartOf(known, Path(theirs), HashesAt(Path(ours), hs)) ==
            StartHeight(hs, CommonPrefix(Path(ours), Path(theirs)) - 1)
  {
    if hs != [] {
      StartIsCommon(known, ours, theirs, hs[1..]);
      assert HashesAt(Path(ours), hs)[1..] == HashesAt(Path(ours), hs[1..]);
      var n := Path(ours)[hs[0]];
      PathByHeight(ours);
      PathByHeight(theirs);
      if hs[0] < |Path(theirs)| {
        CommonPrefixIsMeeting(ours, theirs, hs[0]);
      }
    }
  }

  /** The whole exchange: the start a peer picks for our locator is at most the fork height, and at most the
      fork's distance from our tip below it. */
  lemma ExchangeStart(known: map<Hash, BlockNode>, ours: BlockNode, theirs: BlockNode, locator: seq<Hash>)
    requires WellFormed(ours) && WellFormed(theirs)
    requires SameHashSameBlock(known, Path(ours))
    requires forall i :: 0 <= i < |Path(theirs)| ==> Path(theirs)[i].hash in known
    requires CommonPrefix(Path(ours), Path(theirs)) > 0
    requires forall i :: 0 <= i < |Heights(ours.height, 1, 0)| ==> Heights(ours.height, 1, 0)[i] < |Path(ours)|
    requires locator == HashesAt(Path(ours), Heights(ours.height, 1, 0))
    ensures var fork, s := CommonPrefix(Path(ours), Path(theirs)) - 1, StartOf(known, Path(theirs), locator);
            s <= fork && (s == fork || fork - s < ours.height - fork)
  {
    hide Heights, Path, WellFormed, StartOf;
    PathByHeight(ours);
    StartIsCommon(known, ours, theirs, Heights(ours.height, 1, 0));
    LocatorNearFork(ours.height, CommonPrefix(Path(ours), Path(theirs)) - 1);
  }
}
