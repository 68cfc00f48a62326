// protocol/state/blockindex.go, the index: all nodes by hash and the main chain
// as an array indexed by height.
module BlockIndex {
  import opened Wrappers
  import opened Bc
  import opened BlockTree

  /** The main-chain array of a tip: one slot per height. */
  function Slots(path: seq<BlockNode>): (r: seq<Option<BlockNode>>)
    ensures |r| == |path| && forall k :: 0 <= k < |path| ==> r[k] == Some(path[k])
  {
    seq(|path|, k requires 0 <= k < |path| => Some(path[k]))
  }

  class BlockIndex {
    var index: map<Hash, BlockNode>
    var mainChain: seq<Option<BlockNode>>

    constructor ()
      ensures index == map[] && mainChain == []
    {
      index, mainChain := map[], [];
    }

    method AddNode(node: BlockNode)
      modifies this`index
      ensures index == old(index)[node.hash := node]
    {
      index := index[node.hash := node];
    }

    function NodeByHeight(height: nat): Option<BlockNode>
      reads this
    {
      if height < |mainChain| then mainChain[height] else None
    }

    method InMainchain(hash: Hash, ghost best: BlockNode) returns (r: bool)
      requires WellFormed(best) && mainChain == Slots(Path(best))
      requires hash in index ==> WellFormed(index[hash])
      ensures r <==> hash in index && index[hash] in Path(best)
    {
      if hash !in index {
        return false;
      }
      PathByHeight(best);
      r := NodeByHeight(index[hash].height) == Some(index[hash]);
    }

    /** Whatever tip the array described before (or none), it describes the new tip afterwards: the walk
        may stop at the first slot that already holds the right node. */
    method SetMainChain(node: BlockNode, ghost best: Option<BlockNode>)
      requires WellFormed(node)
      requires best.Some? ==> WellFormed(best.value) && mainChain == Slots(Path(best.value))
      requires best.None? ==> mainChain == []
      modifies this`mainChain
      ensures mainChain == Slots(Path(node))
    {
      PathByHeight(node);
      var slots := Resize(mainChain, node.height + 1);
      ghost var before := slots;
      var iter := Some(node);
      while iter.Some? && slots[iter.value.height] != iter
        invariant Walked(node, before, slots, iter)
        decreases Left(iter)
      {
        WalkStep(node, before, slots, iter.value);
        slots := slots[iter.value.height := iter];
        iter := iter.value.parent;
      }
      if iter.Some? {
        EarlyStop(node, best, before, iter.value.height);
      }
      WalkEnd(node, before, slots, iter);
      mainChain := slots;
    }
  }

  /** How many slots the walk has not decided yet. */
  function Left(iter: Option<BlockNode>): nat {
    if iter.Some? then iter.value.height + 1 else 0
  }

  function Resize(s: seq<Option<BlockNode>>, n: nat): (r: seq<Option<BlockNode>>)
    ensures |r| == n && forall i :: 0 <= i < n ==> r[i] == if i < |s| then s[i] else None
  {
    seq(n, i requires 0 <= i < n => if i < |s| then s[i] else None)
  }

  /** The slots above the walk hold the chain of the new tip, those below are untouched. */
  predicate Walked(node: BlockNode, before: seq<Option<BlockNode>>, slots: seq<Option<BlockNode>>,
                   iter: Option<BlockNode>) {
    && |slots| == |before| == |Path(node)|
    && (iter.Some? ==> iter.value.height < |slots| && Path(node)[iter.value.height] == iter.value)
    && (forall i :: Left(iter) <= i < |slots| ==> slots[i] == Some(Path(node)[i]))
    && (forall i :: 0 <= i < Left(iter) ==> slots[i] == before[i])
  }

  lemma WalkStep(node: BlockNode, before: seq<Option<BlockNode>>, slots: seq<Option<BlockNode>>, n: BlockNode)
    requires WellFormed(node) && Walked(node, before, slots, Some(n))
    ensures Walked(node, before, slots[n.height := Some(n)], n.parent)
    ensures Left(n.parent) < Left(Some(n))
  {
    PathByHeight(node);
    if n.height > 0 {
      PathParents(node, n.height);
    }
  }

  lemma WalkEnd(node: BlockNode, before: seq<Option<BlockNode>>, slots: seq<Option<BlockNode>>, iter: Option<BlockNode>)
    requires Walked(node, before, slots, iter)
    requires forall i :: 0 <= i < Left(iter) ==> before[i] == Some(Path(node)[i])
    ensures slots == Slots(Path(node))
  {
  }

  /** When a slot left over from the old tip already holds the walk's node, so do all slots below. */
  lemma EarlyStop(node: BlockNode, best: Option<BlockNode>, before: seq<Option<BlockNode>>, h: nat)
    requires WellFormed(node) && h < |Path(node)| == |before|
    requires best.Some? ==> before == Resize(Slots(Path(best.value)), |before|)
    requires best.None? ==> before == Resize([], |before|)
    requires before[h] == Some(Path(node)[h])
    ensures forall i :: 0 <= i <= h ==> before[i] == Some(Path(node)[i])
  {
    forall i | 0 <= i <= h
      ensures before[i] == Some(Path(node)[i])
    {
      MeetingGoesDown(best.value, node, h, i);
    }
  }
}
