// protocol/state/blockindex.go, the nodes: every block is a node that points to
// its parent, so a node is the same thing as the chain that ends in it.
module BlockTree {
  import opened Wrappers
  import opened Bc
  import opened Difficulty

  const SEED_PER_RETARGET := 7
  const INITIAL_SEED: Hash := 0x1807071805241807221806101807271806151808111807011218081918070912

  datatype BlockNode = BlockNode(
    parent: Option<BlockNode>,
    hash: Hash,
    seed: Hash,
    workSum: nat,
    version: nat,
    height: nat,
    timestamp: nat,
    bits: nat)

  function CalcNextSeed(node: BlockNode): Hash {
    if node.height == 0 then INITIAL_SEED
    else if node.height % SEED_PER_RETARGET == 0 then node.hash
    else node.seed
  }

  function NewBlockNode(h: Header, parent: Option<BlockNode>): (r: Option<BlockNode>)
    ensures r.None? <==> h.height != 0 && parent.None?
    ensures r.Some? ==> HeaderFields(r.value, h) && r.value.parent == parent
    ensures r.Some? && h.height != 0 ==> r.value.workSum >= parent.value.workSum
  {
    if h.height != 0 && parent.None? then None
    else
      var work := CalcWork(h.bits);
      Some(BlockNode(
        parent,
        h.hash,
        if h.height == 0 then INITIAL_SEED else CalcNextSeed(parent.value),
        if h.height == 0 then work else parent.value.workSum + work,
        h.version, h.height, h.timestamp, h.bits))
  }

  predicate HeaderFields(n: BlockNode, h: Header) {
    n.hash == h.hash && n.version == h.version && n.height == h.height && n.timestamp == h.timestamp && n.bits == h.bits
  }

  /** The header stored in a node. */
  function HeaderOf(node: BlockNode): Header {
    Header(node.hash, if node.parent.Some? then node.parent.value.hash else 0,
           node.version, node.height, node.timestamp, node.bits)
  }

  /** Heights count the steps from the root and work adds up. */
  predicate WellFormed(node: BlockNode) {
    match node.parent
    case None => node.height == 0
    case Some(p) => node.height == p.height + 1 && node.workSum >= p.workSum && WellFormed(p)
  }

  /** The chain from the root to the node: the parent walk, in ascending order. */
  function Path(node: BlockNode): (path: seq<BlockNode>)
    ensures |path| > 0 && path[|path| - 1] == node
  {
    match node.parent
    case None => [node]
    case Some(p) => Path(p) + [node]
  }

  lemma {:induction false} PathByHeight(node: BlockNode)
    requires WellFormed(node)
    ensures |Path(node)| == node.height + 1
    ensures forall k :: 0 <= k < |Path(node)| ==> Path(node)[k].height == k && WellFormed(Path(node)[k])
  {
    if node.parent.Some? {
      PathByHeight(node.parent.value);
    }
  }

  /** A node on a chain carries that chain's beginning. */
  lemma {:induction false} PathPrefix(node: BlockNode, k: nat)
    requires k < |Path(node)|
    ensures Path(node)[..k + 1] == Path(Path(node)[k])
  {
    if node.parent.Some? && k < |Path(node)| - 1 {
      PathPrefix(node.parent.value, k);
      assert Path(node)[..k + 1] == Path(node.parent.value)[..k + 1];
    } else {
      assert Path(node)[..k + 1] == Path(node);
    }
  }

  lemma PathParents(node: BlockNode, k: nat)
    requires 0 < k < |Path(node)|
    ensures Path(node)[k].parent == Some(Path(node)[k - 1])
  {
    PathPrefix(node, k);
    PathPrefix(node, k - 1);
    var n := Path(node)[k];
    assert Path(n)[..k] == Path(node)[..k];
    assert n.parent.Some?;
    assert Path(n)[..k] == Path(n.parent.value);
  }

  // ----------------------------------------------------------- common ancestors

  /** The length of the longest common beginning. */
  function CommonPrefix(p: seq<BlockNode>, q: seq<BlockNode>): (k: nat)
    ensures k <= |p| && k <= |q| && p[..k] == q[..k]
    ensures k < |p| && k < |q| ==> p[k] != q[k]
  {
    if p == [] || q == [] || p[0] != q[0] then 0
    else
      var k := CommonPrefix(p[1..], q[1..]);
      assert p[..k + 1] == [p[0]] + p[1..][..k];
      assert q[..k + 1] == [q[0]] + q[1..][..k];
      k + 1
  }

  /** Chains that meet at some height are equal up to it. */
  lemma MeetingGoesDown(a: BlockNode, b: BlockNode, k: nat, j: nat)
    requires j <= k < |Path(a)| && k < |Path(b)| && Path(a)[k] == Path(b)[k]
    ensures Path(a)[j] == Path(b)[j]
  {
    PathPrefix(a, k);
    PathPrefix(b, k);
    assert Path(a)[..k + 1][j] == Path(b)[..k + 1][j];
  }

  /** The common beginning of two chains ends in
      their lowest common ancestor: every node on both lies on it. */
  lemma CommonPrefixIsMeeting(a: BlockNode, b: BlockNode, k: nat)
    requires k < |Path(a)| && k < |Path(b)|
    ensures Path(a)[k] == Path(b)[k] <==> k < CommonPrefix(Path(a), Path(b))
  {
    var c := CommonPrefix(Path(a), Path(b));
    if k < c {
      assert Path(a)[..c][k] == Path(b)[..c][k];
    } else if Path(a)[k] == Path(b)[k] {
      MeetingGoesDown(a, b, k, c);
    }
  }

  function Reverse<T>(s: seq<T>): (r: seq<T>)
    ensures |r| == |s| && forall k :: 0 <= k < |s| ==> r[k] == s[|s| - 1 - k]
  {
    seq(|s|, k requires 0 <= k < |s| => s[|s| - 1 - k])
  }

  /** The blocks to attach (oldest first) and to detach (newest first) when moving from one tip to another. */
  function AttachNodes(best: BlockNode, node: BlockNode): seq<BlockNode> {
    Path(node)[CommonPrefix(Path(best), Path(node))..]
  }

  function DetachNodes(best: BlockNode, node: BlockNode): seq<BlockNode> {
    Reverse(Path(best)[CommonPrefix(Path(best), Path(node))..])
  }
}
