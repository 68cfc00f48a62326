// The order in which blocks arrive: whatever it is, no orphan that could be
// connected is left waiting, and the tree of blocks ends up the same.
module Arrival {
  import opened Wrappers
  import opened Bc
  import opened ViewRuns
  import opened BlockTree
  import opened ChainModel
  import opened ChainRuns
  import opened Adoption

  // ------------------------------------------------------------- the lists of the pool

  /** Every orphan is listed under its parent, and whatever is listed is such an orphan or has become a block. */
  ghost predicate Tidy(c: ChainState) {
    && (forall h :: h in c.pool.orphans ==> Under(c.pool, c.pool.orphans[h].header.previous, h))
    && (forall p, h :: Under(c.pool, p, h) ==>
          h in c.tree.index || (h in c.pool.orphans && c.pool.orphans[h].header.previous == p))
  }

  lemma SaveBlockTidy(c: ChainState, b: Block, v: Validator)
    requires Shape(c) && Tidy(c) && Extends(v) && b.header.hash !in c.tree.index && SaveBlock(c, b, v).Some?
    ensures Tidy(SaveBlock(c, b, v).value)
  {
    hide TreeOk, NewBlockNode;
    var d, h := SaveBlock(c, b, v).value, b.header.hash;
    forall g | g in d.pool.orphans
      ensures Under(d.pool, d.pool.orphans[g].header.previous, g)
    {
      assert Under(c.pool, c.pool.orphans[g].header.previous, g);
      if h in c.pool.orphans {
        assert Under(c.pool, c.pool.orphans[h].header.previous, h);
      }
    }
    forall p, g | Under(d.pool, p, g)
      ensures Under(c.pool, p, g)
    {
    }
  }

  lemma {:induction false} SubBlockTidy(c: ChainState, b: Block, v: Validator)
    requires Shape(c) && Tidy(c) && Extends(v) && Known(c, b)
    ensures Tidy(SaveSubBlock(c, b, v).0)
    decreases |c.pool.orphans|, 2, 0
  {
    hide Tidy;
    if b.header.hash in c.pool.prevOrphans {
      OrphansTidy(c, c.pool.prevOrphans[b.header.hash], b, v);
    }
  }

  lemma {:induction false} OrphansTidy(c: ChainState, hashes: seq<Hash>, best: Block, v: Validator)
    requires Shape(c) && Tidy(c) && Extends(v) && Known(c, best)
    ensures Tidy(SaveOrphans(c, hashes, best, v).0)
    decreases |c.pool.orphans|, 1, |hashes|
  {
    hide Tidy, Shape, Known, SaveOrphan, Extends;
    PoolIsKeyed(c);
    if hashes != [] {
      OrphanTidy(c, hashes[0], best, v);
      SaveOrphanShape(c, hashes[0], best, v);
      var (c', best') := SaveOrphan(c, hashes[0], best, v);
      SubsetSize(c'.pool.orphans.Keys, c.pool.orphans.Keys);
      OrphansTidy(c', hashes[1..], best', v);
    }
  }

  lemma {:induction false} OrphanTidy(c: ChainState, h: Hash, best: Block, v: Validator)
    requires Shape(c) && Tidy(c) && Extends(v) && Known(c, best)
    ensures Tidy(SaveOrphan(c, h, best, v).0)
    decreases |c.pool.orphans|, 0, 0
  {
    hide Tidy, Shape, SaveSubBlock, SaveBlock, Extends;
    PoolIsKeyed(c);
    if h in c.pool.orphans && SaveBlock(c, c.pool.orphans[h], v).Some? {
      var b := c.pool.orphans[h];
      var d := SaveBlock(c, b, v).value;
      SavedOrphan(c, h, v);
      OrphansAreNew(c, h);
      SaveBlockTidy(c, b, v);
      SavedPool(c, h, v);
      FewerOrphans(c.pool, d.pool, h);
      SubBlockTidy(d, b, v);
      SaveOrphanUnfold(c, h, best, v, d);
    }
  }

  lemma ProcessBlockTidy(c: ChainState, b: Block, v: Validator)
    requires Shape(c) && Tidy(c) && Extends(v)
    ensures Tidy(ProcessBlock(c, b, v).0)
  {
    hide Shape, SavedBest, MoveSteps, Attaches, Path, HasBlocks, RunAndSave, SaveBlock;
    if Proceeds(c, b, v) {
      ProcessBlockCases(c, b, v);
      SavedBestTidy(c, b, v);
      var (d, node) := SavedBest(c, b, v);
      assert UpdateBest(d, node).0.tree == d.tree && UpdateBest(d, node).0.pool == d.pool;
    } else {
      ProcessBlockOther(c, b, v);
    }
  }

  lemma SavedBestTidy(c: ChainState, b: Block, v: Validator)
    requires Shape(c) && Tidy(c) && Extends(v) && Proceeds(c, b, v)
    ensures Tidy(SavedBest(c, b, v).0)
  {
    hide Tidy, SaveBlock, SaveSubBlock;
    NewBlockSaved(c, b, v);
    SaveBlockTidy(c, b, v);
    SubBlockTidy(SaveBlock(c, b, v).value, b, v);
  }

  // -------------------------------------------------------- nothing is left waiting

  /** No orphan could be connected: its parent is not known, or the validator refuses it there. */
  ghost predicate Settled(c: ChainState, v: Validator) {
    forall h :: h in c.pool.orphans ==> !Connectable(c, v, h)
  }

  lemma ProcessBlockSettled(c: ChainState, b: Block, v: Validator)
    requires Shape(c) && Tidy(c) && Settled(c, v) && Extends(v)
    ensures Settled(ProcessBlock(c, b, v).0, v)
  {
    hide Shape, SavedBest, MoveSteps, Attaches, Path, HasBlocks, RunAndSave, SaveBlock, ProcessBlock;
    var d := ProcessBlock(c, b, v).0;
    ProcessBlockShape(c, b, v);
    if Proceeds(c, b, v) {
      var node := ProcessBlockAdopts(c, b, v);
      forall h | h in d.pool.orphans
        ensures !Connectable(d, v, h)
      {
        assert !Connectable(c, v, h);
        var p := c.pool.orphans[h].header.previous;
        assert Under(c.pool, p, h);
        assert p in d.tree.index && p !in c.tree.index ==> IsNew(c, d, p);
      }
    } else {
      ProcessBlockOther(c, b, v);
    }
  }

  // ---------------------------------------------------------------- any order of arrival

  /** The blocks of a run in which the validator does not change. */
  function Offered(bs: seq<Block>, v: Validator): (r: seq<Input>)
    ensures |r| == |bs| && forall k :: 0 <= k < |r| ==> r[k] == Input(bs[k], v)
  {
    seq(|bs|, k requires 0 <= k < |bs| => Input(bs[k], v))
  }

  /** Blocks with the same hash are the same. */
  predicate NoCollisions(bs: seq<Block>) {
    forall x, y :: x in bs && y in bs && x.header.hash == y.header.hash ==> x == y
  }

  predicate AcceptedIn(c: ChainState, b: Block, v: Validator) {
    b.header.previous in c.tree.index && v(b, c.tree.index[b.header.previous]).Some?
  }

  /** What a run from c over the blocks bs has brought about: its blocks come from there, an offered block without a
      known parent is kept, and one that is accepted under its parent is in the tree. */
  ghost predicate Reached(c: ChainState, bs: seq<Block>, v: Validator, d: ChainState) {
    && Shape(d) && Tidy(d) && Settled(d, v) && TreeGrows(c.tree, d.tree)
    && (forall h :: h in d.pool.orphans ==> d.pool.orphans[h] in bs)
    && (forall h :: IsNew(c, d, h) ==> exists b :: b in bs && b.header.hash == h && Stored(d, b, v))
    && (forall b :: b in bs && b.header.previous !in d.tree.index ==>
          b.header.hash in d.tree.index || b.header.hash in d.pool.orphans)
    && (forall b :: b in bs && AcceptedIn(d, b, v) ==> b.header.hash in d.tree.index)
  }

  lemma AdoptedStep(c: ChainState, bs: seq<Block>, x: Block, v: Validator, d: ChainState, e: ChainState,
                    node: BlockNode)
    requires Reached(c, bs, v, d) && NoCollisions(bs + [x]) && Extends(v)
    requires AddsExactly(d, x, v, e, node) && TreeGrows(d.tree, e.tree)
    requires Shape(c) && Shape(e) && Tidy(e) && Settled(e, v)
    ensures Reached(c, bs + [x], v, e)
  {
    hide Shape, Settled, Below, Stored, TreeGrows;
    Grown(c, d, e);
    GrownTree(d, e);
    assert x in bs + [x] && forall b :: b in bs ==> b in bs + [x];
    forall h | IsNew(c, e, h)
      ensures exists b :: b in bs + [x] && b.header.hash == h && Stored(e, b, v)
    {
      NewBlockIsOffered(c, bs, x, v, d, e, node, h);
    }
    forall b | b in bs + [x] && AcceptedIn(e, b, v)
      ensures b.header.hash in e.tree.index
    {
      if b != x {
        AcceptedIsAdded(c, bs, x, v, d, e, node, b);
      }
    }
  }

  lemma GrownTree(d: ChainState, e: ChainState)
    requires TreeGrows(d.tree, e.tree)
    ensures forall h :: h in d.tree.index ==> h in e.tree.index && e.tree.index[h] == d.tree.index[h]
  {
  }

  lemma Grown(c: ChainState, d: ChainState, e: ChainState)
    requires Shape(c) && TreeGrows(c.tree, d.tree) && TreeGrows(d.tree, e.tree)
    ensures TreeGrows(c.tree, e.tree)
  {
    TreeGrowsTransitive(c.tree, d.tree, e.tree);
  }

  lemma NewBlockIsOffered(c: ChainState, bs: seq<Block>, x: Block, v: Validator, d: ChainState, e: ChainState,
                          node: BlockNode, h: Hash)
    requires Reached(c, bs, v, d) && AddsExactly(d, x, v, e, node) && TreeGrows(d.tree, e.tree) && IsNew(c, e, h)
    ensures exists b :: b in bs + [x] && b.header.hash == h && Stored(e, b, v)
  {
    hide Stored, Tidy, Settled, Below;
    if IsNew(c, d, h) {
      var b :| b in bs && b.header.hash == h && Stored(d, b, v);
      StoredGrows(d, e, b, v);
      assert b in bs + [x];
    } else {
      assert IsNew(d, e, h);
      if h == x.header.hash {
        assert x in bs + [x];
      } else {
        var b := d.pool.orphans[h];
        assert b in bs + [x] && b.header.hash == h;
      }
    }
  }

  lemma StoredGrows(d: ChainState, e: ChainState, b: Block, v: Validator)
    requires Stored(d, b, v) && TreeGrows(d.tree, e.tree)
    ensures Stored(e, b, v)
  {
  }

  lemma AcceptedIsAdded(c: ChainState, bs: seq<Block>, x: Block, v: Validator, d: ChainState, e: ChainState,
                        node: BlockNode, b: Block)
    requires Reached(c, bs, v, d) && NoCollisions(bs + [x]) && Extends(v) && b in bs && AcceptedIn(e, b, v)
    requires AddsExactly(d, x, v, e, node) && TreeGrows(d.tree, e.tree)
    ensures b.header.hash in e.tree.index
  {
    hide Stored, Settled, Below;
    var p, h := b.header.previous, b.header.hash;
    GrownTree(d, e);
    if p in d.tree.index {
      assert AcceptedIn(d, b, v);
    } else if h !in d.tree.index {
      var o := d.pool.orphans[h];
      assert o in bs + [x] && b in bs + [x] && o.header.hash == h;
      assert IsNew(d, e, p) && Under(d.pool, p, h);
    }
  }

  lemma OtherStep(c: ChainState, bs: seq<Block>, x: Block, v: Validator, d: ChainState)
    requires Reached(c, bs, v, d) && NoCollisions(bs + [x]) && Extends(v) && !Proceeds(d, x, v)
    ensures var e := ProcessBlock(d, x, v).0; Tidy(e) && Settled(e, v) && Shape(e) ==> Reached(c, bs + [x], v, e)
  {
    hide Shape, Tidy, Stored, TreeGrows, ProcessBlock;
    ProcessBlockOther(d, x, v);
    var e := ProcessBlock(d, x, v).0;
    SameTreeGrows(c, d, e);
    PooledIsOffered(bs, x, d);
    assert x in bs + [x] && forall b :: b in bs ==> b in bs + [x];
    forall h | IsNew(c, e, h)
      ensures exists b :: b in bs + [x] && b.header.hash == h && Stored(e, b, v)
    {
      assert IsNew(c, d, h);
      var b :| b in bs && b.header.hash == h && Stored(d, b, v);
      SameStored(d, e, b, v);
    }
    forall b | b in bs + [x] && AcceptedIn(e, b, v)
      ensures b.header.hash in e.tree.index
    {
      if b in bs {
        assert AcceptedIn(d, b, v);
      }
    }
  }

  lemma PooledIsOffered(bs: seq<Block>, x: Block, d: ChainState)
    requires Shape(d) && NoCollisions(bs + [x]) && forall h :: h in d.pool.orphans ==> d.pool.orphans[h] in bs
    ensures x.header.hash in d.pool.orphans ==> x in bs
  {
    if x.header.hash in d.pool.orphans {
      OrphansAreNew(d, x.header.hash);
      var o := d.pool.orphans[x.header.hash];
      assert o in bs + [x] && x in bs + [x];
    }
  }

  lemma SameTreeGrows(c: ChainState, d: ChainState, e: ChainState)
    requires e.tree == d.tree && TreeGrows(c.tree, d.tree)
    ensures TreeGrows(c.tree, e.tree)
  {
  }

  lemma ReachedStep(c: ChainState, bs: seq<Block>, x: Block, v: Validator, d: ChainState)
    requires Shape(c) && Reached(c, bs, v, d) && NoCollisions(bs + [x]) && Extends(v)
    ensures Reached(c, bs + [x], v, ProcessBlock(d, x, v).0)
  {
    hide Shape, Tidy, Settled, ProcessBlock, Reached, AddsExactly, NoCollisions;
    ReachedIs(c, bs, v, d);
    ProcessBlockShape(d, x, v);
    ProcessBlockTidy(d, x, v);
    ProcessBlockSettled(d, x, v);
    if Proceeds(d, x, v) {
      var node := ProcessBlockAdopts(d, x, v);
      AdoptedStep(c, bs, x, v, d, ProcessBlock(d, x, v).0, node);
    } else {
      OtherStep(c, bs, x, v, d);
    }
  }

  lemma ReachedIs(c: ChainState, bs: seq<Block>, v: Validator, d: ChainState)
    requires Reached(c, bs, v, d)
    ensures Shape(d) && Tidy(d) && Settled(d, v)
  {
  }

  /** Whatever blocks arrive, in whatever order: no orphan that the validator would accept under a known parent is left
      waiting, the tree has grown by offered blocks only, and every offered block that is accepted under a parent in
      the tree is in the tree. */
  lemma {:induction false} RunReaches(c: ChainState, bs: seq<Block>, v: Validator)
    requires Shape(c) && c.pool == Pool(map[], map[]) && Extends(v) && NoCollisions(bs)
    ensures Reached(c, bs, v, Run(c, Offered(bs, v)))
  {
    hide ProcessBlock, Reached, Offered;
    if bs == [] {
      ReachedAtFirst(c, v);
    } else {
      var init, x := bs[..|bs| - 1], bs[|bs| - 1];
      assert bs == init + [x];
      assert Offered(bs, v)[..|bs| - 1] == Offered(init, v);
      RunReaches(c, init, v);
      ReachedStep(c, init, x, v, Run(c, Offered(init, v)));
    }
  }

  lemma ReachedAtFirst(c: ChainState, v: Validator)
    requires Shape(c) && c.pool == Pool(map[], map[])
    ensures Reached(c, [], v, c)
  {
  }

  lemma {:induction false} NodeReachedToo(c: ChainState, bs: seq<Block>, cs: seq<Block>, v: Validator, d: ChainState,
                                          e: ChainState, n: BlockNode)
    requires Reached(c, bs, v, d) && Reached(c, cs, v, e) && Holds(d.tree, n)
    requires NoCollisions(cs) && forall b :: b in bs ==> b in cs
    ensures Holds(e.tree, n)
    decreases n
  {
    hide Tidy, Settled, NewBlockNode;
    if n.hash !in c.tree.index {
      assert IsNew(c, d, n.hash);
      var b :| b in bs && b.header.hash == n.hash && Stored(d, b, v);
      var p := d.tree.index[b.header.previous];
      assert Indexed(d.tree, b.header.previous);
      ParentOf(b.header, p, n);
      NodeReachedToo(c, bs, cs, v, d, e, p);
      assert AcceptedIn(e, b, v);
      assert IsNew(c, e, n.hash);
      var b' :| b' in cs && b'.header.hash == n.hash && Stored(e, b', v);
      assert b' == b;
    }
  }

  lemma ParentOf(h: Header, p: BlockNode, n: BlockNode)
    requires NewBlockNode(h, Some(p)) == Some(n)
    ensures n.parent == Some(p)
  {
  }

  /** The tree of blocks does not depend on the order in which they arrive. */
  lemma OrderMakesNoDifference(c: ChainState, bs: seq<Block>, cs: seq<Block>, v: Validator)
    requires Shape(c) && c.pool == Pool(map[], map[]) && Extends(v) && NoCollisions(bs)
    requires forall b :: b in bs <==> b in cs
    ensures Run(c, Offered(bs, v)).tree.index == Run(c, Offered(cs, v)).tree.index
  {
    hide Run, Reached, NoCollisions;
    assert NoCollisions(cs) by {
      SameBlocks(bs, cs);
    }
    RunReaches(c, bs, v);
    RunReaches(c, cs, v);
    var d, e := Run(c, Offered(bs, v)), Run(c, Offered(cs, v));
    forall h | h in d.tree.index
      ensures h in e.tree.index && e.tree.index[h] == d.tree.index[h]
    {
      assert Indexed(d.tree, h);
      NodeReachedToo(c, bs, cs, v, d, e, d.tree.index[h]);
    }
    forall h | h in e.tree.index
      ensures h in d.tree.index
    {
      assert Indexed(e.tree, h);
      NodeReachedToo(c, cs, bs, v, e, d, e.tree.index[h]);
    }
  }

  lemma SameBlocks(bs: seq<Block>, cs: seq<Block>)
    requires NoCollisions(bs) && forall b :: b in bs <==> b in cs
    ensures NoCollisions(cs)
  {
  }

  // ------------------------------------------------------------------ child, then parent

  /** The two blocks fit on the tip one after the other, as nodes n and m, and the stored outputs allow them. */
  ghost predicate InLine(c: ChainState, parent: Block, child: Block, v: Validator, n: BlockNode, m: BlockNode) {
    && parent.header.hash !in c.tree.index && child.header.hash !in c.tree.index
    && parent.header.hash != child.header.hash
    && NewBlockNode(parent.header, Some(c.best)) == Some(n) && v(parent, c.best).Some?
    && NewBlockNode(child.header, Some(n)) == Some(m) && v(child, n).Some?
    && RunAndSave(c.utxos, [Attach(Saved(parent, v(parent, c.best).value)),
                            Attach(Saved(child, v(child, n).value))]).Ok?
  }

  /** A block that arrives before its parent: the parent brings it in, and the chain ends at the child. */
  lemma ChildThenParent(c: ChainState, parent: Block, child: Block, v: Validator, n: BlockNode, m: BlockNode)
    requires Shape(c) && c.pool == Pool(map[], map[]) && Extends(v) && InLine(c, parent, child, v, n, m)
    ensures var (d, first) := ProcessBlock(c, child, v);
            && first == Outcome(true, None) && d.best == c.best && Shape(d)
            && var (e, second) := ProcessBlock(d, parent, v);
               second == Outcome(false, None) && e.best == m && e.pool.orphans == map[]
  {
    hide ProcessBlock, Shape, AddsExactly, RunAndSave, Path, HasBlocks, NewBlockNode, MoveSteps, UpdateBest, SavedBest;
    LineFacts(c, parent, child, v, n, m);
    ProcessBlockOther(c, child, v);
    ProcessBlockShape(c, child, v);
    var d := ProcessBlock(c, child, v).0;
    assert Proceeds(d, parent, v);
    ProcessBlockCases(d, parent, v);
    SavedBestAddsExactly(d, parent, v);
    var (e, node) := SavedBest(d, parent, v);
    BothAdded(c, parent, child, v, n, m, d, e, node);
    MovesToChild(c, parent, child, v, n, m, e);
  }

  lemma LineFacts(c: ChainState, parent: Block, child: Block, v: Validator, n: BlockNode, m: BlockNode)
    requires Shape(c) && Extends(v) && InLine(c, parent, child, v, n, m)
    ensures parent.header.previous == c.best.hash && child.header.previous == parent.header.hash
    ensures c.best.hash in c.tree.index && c.tree.index[c.best.hash] == c.best
    ensures n.parent == Some(c.best) && m.parent == Some(n)
    ensures n.hash == parent.header.hash && m.hash == child.header.hash
    ensures n.height == c.best.height + 1 && m.height == n.height + 1 && m.workSum >= c.best.workSum
  {
  }

  lemma BothAdded(c: ChainState, parent: Block, child: Block, v: Validator, n: BlockNode, m: BlockNode,
                  d: ChainState, e: ChainState, node: BlockNode)
    requires Shape(c) && Extends(v) && InLine(c, parent, child, v, n, m) && TreeGrows(d.tree, e.tree)
    requires d.tree == c.tree && d.pool.orphans == map[child.header.hash := child]
    requires Under(d.pool, parent.header.hash, child.header.hash)
    requires AddsExactly(d, parent, v, e, node)
    ensures node == m && e.pool.orphans == map[]
    ensures n.hash in e.tree.blocks && e.tree.blocks[n.hash] == Saved(parent, v(parent, c.best).value)
    ensures m.hash in e.tree.blocks && e.tree.blocks[m.hash] == Saved(child, v(child, n).value)
  {
    hide Shape, NewBlockNode, RunAndSave;
    LineFacts(c, parent, child, v, n, m);
    var p, h := parent.header.hash, child.header.hash;
    assert e.tree.index[c.best.hash] == c.best;
    assert e.tree.index[p] == n;
    assert IsNew(d, e, p) && h in e.tree.index;
    assert IsNew(d, e, h) && Stored(e, child, v);
    assert e.tree.index[h] == m;
    assert node.hash == p || node.hash == h;
    assert m.height <= node.height;
  }

  lemma MovesToChild(c: ChainState, parent: Block, child: Block, v: Validator, n: BlockNode, m: BlockNode,
                     e: ChainState)
    requires Shape(c) && Extends(v) && InLine(c, parent, child, v, n, m) && e.utxos == c.utxos && e.best == c.best
    requires HasBlocks(e.tree.blocks, Path(m)) && HasBlocks(e.tree.blocks, Path(e.best))
    requires n.hash in e.tree.blocks && e.tree.blocks[n.hash] == Saved(parent, v(parent, c.best).value)
    requires m.hash in e.tree.blocks && e.tree.blocks[m.hash] == Saved(child, v(child, n).value)
    ensures UpdateBest(e, m).0 == e.(best := m, utxos := UpdateBest(e, m).0.utxos) && UpdateBest(e, m).1.None?
  {
    hide Shape, NewBlockNode, RunAndSave;
    LineFacts(c, parent, child, v, n, m);
    var p := Path(c.best);
    assert Path(m) == p + [n, m];
    assert CommonPrefix(p, p + [n, m]) == |p| by {
      assert (p + [n, m])[..|p|] == p[..|p|];
    }
    var blocks := e.tree.blocks;
    assert DetachNodes(c.best, m) == [] && AttachNodes(c.best, m) == [n, m];
    assert MoveSteps(blocks, c.best, m) == [Attach(blocks[n.hash]), Attach(blocks[m.hash])];
  }
}
