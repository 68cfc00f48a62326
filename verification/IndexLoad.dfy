// database/leveldb/store.go, LoadBlockIndex: rebuilding the block index from
// the stored headers, which the database lists in key order.
module IndexLoad {
  import opened Wrappers
  import opened Bytes
  import opened Bc
  import opened BlockTree
  import opened ChainModel
  import opened ChainRuns

  const MAX_HEIGHT := 0x1_0000_0000_0000_0000

  /** calcBlockHeaderKey after its prefix: eight big-endian bytes of height, then the hash. */
  function HeaderKey(h: Header): Bytes {
    BigEndian(h.height, 8) + BigEndian(h.hash, 32)
  }

  predicate KeyOrder(hs: seq<Header>) {
    forall i, j :: 0 <= i < j < |hs| ==> LexLess(HeaderKey(hs[i]), HeaderKey(hs[j]))
  }

  lemma PowerEight()
    ensures Power(8) == MAX_HEIGHT
  {
    assert Power(1) == 256 * Power(0) && Power(2) == 256 * Power(1) && Power(3) == 256 * Power(2)
      && Power(4) == 256 * Power(3);
    assert Power(5) == 256 * Power(4) && Power(6) == 256 * Power(5) && Power(7) == 256 * Power(6);
  }

  /** Listing by key lists by height. */
  lemma KeyOrderIsHeightOrder(a: Header, b: Header)
    requires a.height < MAX_HEIGHT && b.height < MAX_HEIGHT
    requires LexLess(HeaderKey(a), HeaderKey(b))
    ensures a.height <= b.height
  {
    if b.height < a.height {
      PowerEight();
      BigEndianOrder(b.height, a.height, 8);
      LexExtend(BigEndian(b.height, 8), BigEndian(a.height, 8), BigEndian(b.hash, 32), BigEndian(a.hash, 32));
      LexAsymmetric(HeaderKey(b), HeaderKey(a));
    }
  }

  /** Tries the node loaded last before looking in the index. */
  method LoadBlockIndex(hs: seq<Header>) returns (index: Option<map<Hash, BlockNode>>)
    ensures index == Loaded(hs)
  {
    var nodes: map<Hash, BlockNode> := map[];
    var lastNode: Option<BlockNode> := None;
    for i := 0 to |hs|
      invariant LoadPrefix(hs[..i]) == Some((nodes, lastNode))
    {
      assert hs[..i + 1][..i] == hs[..i];
      var bh := hs[i];
      var parent;
      if lastNode.None? || lastNode.value.hash == bh.previous {
        parent := lastNode;
      } else {
        parent := if bh.previous in nodes then Some(nodes[bh.previous]) else None;
      }
      var node := NewBlockNode(bh, parent);
      if node.None? {
        LoadFails(hs, i + 1);
        return None;
      }
      nodes := nodes[node.value.hash := node.value];
      lastNode := node;
    }
    assert hs[..|hs|] == hs;
    return Some(nodes);
  }

  type Progress = (map<Hash, BlockNode>, Option<BlockNode>)

  function LoadOne(p: Progress, bh: Header): Option<Progress> {
    var (nodes, last) := p;
    var parent :=
      if last.None? || last.value.hash == bh.previous then last
      else if bh.previous in nodes then Some(nodes[bh.previous]) else None;
    match NewBlockNode(bh, parent)
    case None => None
    case Some(node) => Some((nodes[node.hash := node], Some(node)))
  }

  function LoadPrefix(hs: seq<Header>): Option<Progress> {
    if hs == [] then Some((map[], None))
    else
      match LoadPrefix(hs[..|hs| - 1])
      case None => None
      case Some(p) => LoadOne(p, hs[|hs| - 1])
  }

  function Loaded(hs: seq<Header>): Option<map<Hash, BlockNode>> {
    match LoadPrefix(hs)
    case None => None
    case Some(p) => Some(p.0)
  }

  lemma {:induction false} LoadFails(hs: seq<Header>, m: nat)
    requires m <= |hs| && LoadPrefix(hs[..m]).None?
    ensures LoadPrefix(hs).None?
  {
    if m < |hs| {
      assert hs[..|hs| - 1][..m] == hs[..m];
      LoadFails(hs[..|hs| - 1], m);
    } else {
      assert hs[..m] == hs;
    }
  }

  // --------------------------------------- the live index against the stored one

  /** The stored header of every node determines it, given its parent. */
  predicate Rebuildable(t: Tree, h: Hash)
    requires h in t.index
  {
    && h in t.blocks && t.blocks[h].block.header.hash == h
    && Some(t.index[h]) == NewBlockNode(t.blocks[h].block.header, t.index[h].parent)
    && (t.index[h].parent.Some? ==> t.blocks[h].block.header.previous == t.index[h].parent.value.hash)
  }

  predicate TreeRebuildable(t: Tree) {
    forall h :: h in t.index ==> Rebuildable(t, h)
  }

  /** Heights are 64-bit numbers. */
  predicate HeightsFit(t: Tree) {
    forall h :: h in t.blocks ==> t.blocks[h].block.header.height < MAX_HEIGHT
  }

  lemma AddBlockRebuildable(t: Tree, b: Block, parent: BlockNode, status: TxStatus)
    requires TreeRebuildable(t) && b.header.hash !in t.index
    requires b.header.height == parent.height + 1 && b.header.previous == parent.hash
    ensures TreeRebuildable(AddBlock(t, b, parent, status))
  {
    var u := AddBlock(t, b, parent, status);
    forall h | h in u.index
      ensures Rebuildable(u, h)
    {
      if h != b.header.hash {
        assert Rebuildable(t, h);
      }
    }
  }

  // Every state a run can reach is rebuildable.

  lemma SaveBlockRebuildable(c: ChainState, b: Block, v: Validator)
    requires Shape(c) && Extends(v) && b.header.hash !in c.tree.index && SaveBlock(c, b, v).Some?
    requires TreeRebuildable(c.tree)
    ensures TreeRebuildable(SaveBlock(c, b, v).value.tree)
  {
    var parent := c.tree.index[b.header.previous];
    assert Indexed(c.tree, b.header.previous);
    AddBlockRebuildable(c.tree, b, parent, v(b, parent).value);
  }

  lemma {:induction false} SaveSubBlockRebuildable(c: ChainState, b: Block, v: Validator)
    requires Shape(c) && Extends(v) && Known(c, b) && TreeRebuildable(c.tree)
    ensures TreeRebuildable(SaveSubBlock(c, b, v).0.tree)
    decreases |c.pool.orphans|, 2, 0
  {
    if b.header.hash in c.pool.prevOrphans {
      SaveOrphansRebuildable(c, c.pool.prevOrphans[b.header.hash], b, v);
    }
  }

  lemma {:induction false} SaveOrphansRebuildable(c: ChainState, hashes: seq<Hash>, best: Block, v: Validator)
    requires Shape(c) && Extends(v) && Known(c, best) && TreeRebuildable(c.tree)
    ensures TreeRebuildable(SaveOrphans(c, hashes, best, v).0.tree)
    decreases |c.pool.orphans|, 1, |hashes|
  {
    if hashes != [] {
      SaveOrphanShape(c, hashes[0], best, v);
      SaveOrphanRebuildable(c, hashes[0], best, v);
      var (c', best') := SaveOrphan(c, hashes[0], best, v);
      SubsetSize(c'.pool.orphans.Keys, c.pool.orphans.Keys);
      SaveOrphansRebuildable(c', hashes[1..], best', v);
    }
  }

  lemma {:induction false} SaveOrphanRebuildable(c: ChainState, h: Hash, best: Block, v: Validator)
    requires Shape(c) && Extends(v) && Known(c, best) && TreeRebuildable(c.tree)
    ensures TreeRebuildable(SaveOrphan(c, h, best, v).0.tree)
    decreases |c.pool.orphans|, 0, 0
  {
    if h in c.pool.orphans && SaveBlock(c, c.pool.orphans[h], v).Some? {
      var b := c.pool.orphans[h];
      var c1 := SaveBlock(c, b, v).value;
      SaveBlockShape(c, b, v);
      SaveBlockRebuildable(c, b, v);
      FewerOrphans(c.pool, c1.pool, h);
      SaveSubBlockRebuildable(c1, b, v);
    }
  }

  lemma ProcessBlockRebuildable(c: ChainState, b: Block, v: Validator)
    requires Shape(c) && Extends(v) && TreeRebuildable(c.tree)
    ensures TreeRebuildable(ProcessBlock(c, b, v).0.tree)
  {
    ProcessBlockCases(c, b, v);
    if Proceeds(c, b, v) {
      SaveBlockRebuildable(c, b, v);
      SaveBlockShape(c, b, v);
      SaveSubBlockRebuildable(SaveBlock(c, b, v).value, b, v);
      var (c2, node) := SavedBest(c, b, v);
      UpdateBestShape(c2, node);
    }
  }

  lemma {:induction false} RunRebuildable(c: ChainState, ins: seq<Input>)
    requires Shape(c) && ValidInputs(ins) && TreeRebuildable(c.tree)
    ensures TreeRebuildable(Run(c, ins).tree)
  {
    if ins != [] {
      RunRebuildable(c, ins[..|ins| - 1]);
      ProcessBlockRebuildable(Run(c, ins[..|ins| - 1]), ins[|ins| - 1].block, ins[|ins| - 1].validator);
    }
  }

  /** The headers of exactly the indexed blocks, in key order. */
  predicate Lists(hs: seq<Header>, t: Tree) {
    && KeyOrder(hs) && HeightsFit(t)
    && (forall i :: 0 <= i < |hs| ==>
        hs[i].hash in t.index && hs[i].hash in t.blocks && hs[i] == t.blocks[hs[i].hash].block.header)
    && (forall h :: h in t.index ==> exists i :: 0 <= i < |hs| && hs[i].hash == h)
  }

  function Hashes(hs: seq<Header>): set<Hash> {
    set i | 0 <= i < |hs| :: hs[i].hash
  }

  /** What has been rebuilt after listing some headers. */
  function Part(hs: seq<Header>, t: Tree): map<Hash, BlockNode> {
    map h | h in t.index && h in Hashes(hs) :: t.index[h]
  }

  lemma ParentListedBefore(hs: seq<Header>, t: Tree, i: nat) returns (j: nat)
    requires TreeOk(t) && TreeRebuildable(t) && Lists(hs, t) && i < |hs|
    requires t.index[hs[i].hash].parent.Some?
    ensures j < i && hs[j].hash == hs[i].previous && t.index[hs[j].hash] == t.index[hs[i].hash].parent.value
  {
    var n := t.index[hs[i].hash];
    var p := n.parent.value;
    assert Indexed(t, hs[i].hash) && Rebuildable(t, hs[i].hash);
    assert Indexed(t, p.hash) && Rebuildable(t, p.hash);
    j :| 0 <= j < |hs| && hs[j].hash == p.hash;
    assert hs[j].height < hs[i].height;
    if i < j {
      KeyOrderIsHeightOrder(hs[i], hs[j]);
    }
  }

  lemma FirstIsRoot(hs: seq<Header>, t: Tree, i: nat)
    requires TreeOk(t) && TreeRebuildable(t) && Lists(hs, t) && i < |hs|
    requires t.index[hs[i].hash].parent.None?
    ensures i == 0
  {
    assert Indexed(t, hs[i].hash) && Rebuildable(t, hs[i].hash);
    if i > 0 {
      assert Indexed(t, hs[0].hash) && Rebuildable(t, hs[0].hash);
      KeyOrderIsHeightOrder(hs[0], hs[i]);
      assert Path(t.index[hs[i].hash])[0] == t.index[hs[i].hash];
      assert Path(t.index[hs[0].hash])[0] == t.index[hs[0].hash];
      LexIrreflexive(HeaderKey(hs[0]));
    }
  }

  lemma LexIrreflexive(a: Bytes)
    ensures !LexLess(a, a)
  {
    if a != [] {
      LexIrreflexive(a[1..]);
    }
  }

  lemma HashesSnoc(hs: seq<Header>, i: nat)
    requires i < |hs|
    ensures Hashes(hs[..i + 1]) == Hashes(hs[..i]) + {hs[i].hash}
  {
    var a, b := hs[..i + 1], hs[..i];
    assert a[i] == hs[i];
    assert forall k :: 0 <= k < i ==> a[k] == b[k];
    assert forall h :: h in Hashes(b) ==> h in Hashes(a);
  }

  lemma PartSnoc(hs: seq<Header>, t: Tree, i: nat)
    requires i < |hs| && hs[i].hash in t.index
    ensures Part(hs[..i + 1], t) == Part(hs[..i], t)[hs[i].hash := t.index[hs[i].hash]]
  {
    HashesSnoc(hs, i);
  }

  /** The parent the loader picks for the next header is the node's parent. */
  lemma PicksParent(hs: seq<Header>, t: Tree, i: nat)
    requires TreeOk(t) && TreeRebuildable(t) && Lists(hs, t) && i < |hs|
    ensures var last := if i == 0 then None else Some(t.index[hs[i - 1].hash]);
            var nodes := Part(hs[..i], t);
            t.index[hs[i].hash].parent ==
              if last.None? || last.value.hash == hs[i].previous then last
              else if hs[i].previous in nodes then Some(nodes[hs[i].previous]) else None
  {
    if t.index[hs[i].hash].parent.None? {
      FirstIsRoot(hs, t, i);
    } else {
      var j := ParentListedBefore(hs, t, i);
      assert hs[..i][j].hash in Hashes(hs[..i]);
      assert Indexed(t, hs[i - 1].hash);
    }
  }

  function LastOf(hs: seq<Header>, t: Tree, i: nat): Option<BlockNode>
    requires i <= |hs| && (i > 0 ==> hs[i - 1].hash in t.index)
  {
    if i == 0 then None else Some(t.index[hs[i - 1].hash])
  }

  lemma LoadOneStep(hs: seq<Header>, t: Tree, i: nat)
    requires TreeOk(t) && TreeRebuildable(t) && Lists(hs, t) && i < |hs|
    ensures LoadOne((Part(hs[..i], t), LastOf(hs, t, i)), hs[i]) == Some((Part(hs[..i + 1], t), LastOf(hs, t, i + 1)))
  {
    assert Rebuildable(t, hs[i].hash);
    PicksParent(hs, t, i);
    PartSnoc(hs, t, i);
  }

  lemma {:induction false} LoadPrefixIsPart(hs: seq<Header>, t: Tree, i: nat)
    requires TreeOk(t) && TreeRebuildable(t) && Lists(hs, t) && i <= |hs|
    ensures LoadPrefix(hs[..i]) == Some((Part(hs[..i], t), LastOf(hs, t, i)))
  {
    hide TreeOk, TreeRebuildable, Lists;
    if i == 0 {
      assert Part(hs[..0], t) == map[];
    } else {
      LoadPrefixIsPart(hs, t, i - 1);
      assert hs[..i][..i - 1] == hs[..i - 1];
      LoadOneStep(hs, t, i - 1);
    }
  }

  /** Loading the stored headers of any tree in key order finds every parent and rebuilds exactly the live
      index: the same parents, accumulated work and seeds. */
  lemma LoadRebuildsIndex(hs: seq<Header>, t: Tree)
    requires TreeOk(t) && TreeRebuildable(t) && Lists(hs, t)
    ensures Loaded(hs) == Some(t.index)
  {
    LoadPrefixIsPart(hs, t, |hs|);
    assert hs[..|hs|] == hs;
    assert forall h :: h in t.index ==> h in Hashes(hs);
    assert Part(hs, t) == t.index;
  }
}
