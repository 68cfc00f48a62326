// protocol/block.go, saveSubBlock: what happens to the orphans that wait for a
// block when it arrives.  Everything that can be connected is, and nothing else.
module Adoption {
  import opened Wrappers
  import opened Bc
  import opened ViewRuns
  import opened BlockTree
  import opened ChainModel
  import opened ChainRuns

  /** Hash h is listed as waiting for p. */
  predicate Under(o: Pool, p: Hash, h: Hash) {
    p in o.prevOrphans && h in o.prevOrphans[p]
  }

  predicate IsNew(c: ChainState, d: ChainState, h: Hash) {
    h in d.tree.index && h !in c.tree.index
  }

  /** Only orphans become blocks; they leave the pool when they do, and the lists of unknown parents stay. */
  ghost predicate Shrinks(c: ChainState, d: ChainState) {
    && Shape(c) && Shape(d) && Grows(c, d)
    && (forall h :: h in d.pool.orphans <==> h in c.pool.orphans && h !in d.tree.index)
    && (forall h :: h in d.pool.orphans ==> d.pool.orphans[h] == c.pool.orphans[h])
    && (forall h :: IsNew(c, d, h) ==> h in c.pool.orphans)
    && (forall p, h :: p !in d.tree.index ==> (Under(d.pool, p, h) <==> Under(c.pool, p, h)))
  }

  /** Whatever waits for a new block and is accepted under it is a block now. */
  ghost predicate Closed(c: ChainState, d: ChainState, v: Validator) {
    forall p, h :: IsNew(c, d, p) && Under(c.pool, p, h) && h in c.pool.orphans ==>
      v(c.pool.orphans[h], d.tree.index[p]).Some? ==> h in d.tree.index
  }

  /** A block as it is stored under its parent. */
  predicate Stored(d: ChainState, b: Block, v: Validator) {
    var h, p := b.header.hash, b.header.previous;
    && h in d.tree.index && p in d.tree.index && v(b, d.tree.index[p]).Some?
    && NewBlockNode(b.header, Some(d.tree.index[p])) == Some(d.tree.index[h])
    && h in d.tree.blocks && d.tree.blocks[h] == Saved(b, v(b, d.tree.index[p]).value)
  }

  /** Every new block was an orphan that the validator accepts under its parent, and it waited for a new block or was
      among the given hashes. */
  ghost predicate Derived(c: ChainState, d: ChainState, v: Validator, hashes: seq<Hash>) {
    forall h :: IsNew(c, d, h) ==>
      && h in c.pool.orphans && Stored(d, c.pool.orphans[h], v)
      && (h in hashes || exists p :: IsNew(c, d, p) && Under(c.pool, p, h))
  }

  ghost predicate Below(c: ChainState, d: ChainState, top: int) {
    forall h :: IsNew(c, d, h) ==> d.tree.index[h].height <= top
  }

  /** What saving orphans does, starting from the given hashes and a best block so far. */
  ghost predicate Adopts(c: ChainState, v: Validator, hashes: seq<Hash>, best: Block, r: (ChainState, Block)) {
    var (d, top) := r;
    && Shrinks(c, d) && Closed(c, d, v) && Derived(c, d, v, hashes)
    && top.header.height >= best.header.height && Below(c, d, top.header.height)
    && Known(d, top) && (top == best || IsNew(c, d, top.header.hash))
    && forall h :: h in hashes && Connectable(c, v, h) ==> h in d.tree.index
  }

  /** An orphan whose parent is known and under which it is accepted. */
  predicate Connectable(c: ChainState, v: Validator, h: Hash) {
    && h in c.pool.orphans && c.pool.orphans[h].header.previous in c.tree.index
    && v(c.pool.orphans[h], c.tree.index[c.pool.orphans[h].header.previous]).Some?
  }

  // ------------------------------------------------------------------ one after another

  lemma AdoptsNothing(c: ChainState, v: Validator, hashes: seq<Hash>, best: Block)
    requires Shape(c) && Known(c, best) && forall h :: h in hashes ==> !Connectable(c, v, h)
    ensures Adopts(c, v, hashes, best, (c, best))
  {
  }

  lemma ShrinksThen(c: ChainState, d: ChainState, e: ChainState)
    requires Shrinks(c, d) && Shrinks(d, e)
    ensures Shrinks(c, e)
  {
    hide TreeOk, PoolOk;
    GrowsTransitive(c, d, e);
    forall h | IsNew(c, e, h)
      ensures h in c.pool.orphans
    {
      assert IsNew(c, d, h) || IsNew(d, e, h);
    }
  }

  lemma ClosedThen(c: ChainState, d: ChainState, e: ChainState, v: Validator)
    requires Shrinks(c, d) && Shrinks(d, e) && Closed(c, d, v) && Closed(d, e, v)
    ensures Closed(c, e, v)
  {
    forall p, h | IsNew(c, e, p) && Under(c.pool, p, h) && h in c.pool.orphans
                  && v(c.pool.orphans[h], e.tree.index[p]).Some?
      ensures h in e.tree.index
    {
      if p in d.tree.index {
        assert IsNew(c, d, p);
      } else {
        assert IsNew(d, e, p) && Under(d.pool, p, h);
      }
    }
  }

  lemma StoredStays(d: ChainState, e: ChainState, b: Block, v: Validator)
    requires Stored(d, b, v) && Grows(d, e)
    ensures Stored(e, b, v)
  {
  }

  lemma DerivedThen(c: ChainState, d: ChainState, e: ChainState, v: Validator, first: seq<Hash>, rest: seq<Hash>)
    requires Shrinks(c, d) && Shrinks(d, e) && Derived(c, d, v, first) && Derived(d, e, v, rest)
    ensures Derived(c, e, v, first + rest)
  {
    hide Stored, Shape;
    forall h | IsNew(c, e, h)
      ensures h in c.pool.orphans && Stored(e, c.pool.orphans[h], v)
      ensures h in first + rest || exists p :: IsNew(c, e, p) && Under(c.pool, p, h)
    {
      if h in d.tree.index {
        assert IsNew(c, d, h);
        StoredStays(d, e, c.pool.orphans[h], v);
        if h !in first {
          var p :| IsNew(c, d, p) && Under(c.pool, p, h);
          assert IsNew(c, e, p);
        }
      } else {
        assert IsNew(d, e, h);
        if h !in rest {
          var p :| IsNew(d, e, p) && Under(d.pool, p, h);
          assert IsNew(c, e, p) && Under(c.pool, p, h);
        }
      }
    }
  }

  lemma BelowThen(c: ChainState, d: ChainState, e: ChainState, low: int, high: int)
    requires Shrinks(c, d) && Shrinks(d, e) && Below(c, d, low) && Below(d, e, high) && low <= high
    ensures Below(c, e, high)
  {
    hide Shape;
    forall h | IsNew(c, e, h)
      ensures e.tree.index[h].height <= high
    {
      assert IsNew(c, d, h) || IsNew(d, e, h);
    }
  }

  lemma ConnectableStays(c: ChainState, d: ChainState, v: Validator, h: Hash)
    requires Shrinks(c, d) && Connectable(c, v, h)
    ensures h in d.tree.index || Connectable(d, v, h)
  {
    hide Shape;
  }

  lemma AdoptsThen(c: ChainState, d: ChainState, v: Validator, h: Hash, rest: seq<Hash>, best: Block, mid: Block,
                   r: (ChainState, Block))
    requires Adopts(c, v, [h], best, (d, mid)) && Adopts(d, v, rest, mid, r)
    ensures Adopts(c, v, [h] + rest, best, r)
  {
    hide Shape, Shrinks, Closed, Derived, Below, Connectable;
    var e := r.0;
    ShrinksThen(c, d, e);
    ClosedThen(c, d, e, v);
    DerivedThen(c, d, e, v, [h], rest);
    BelowThen(c, d, e, mid.header.height, r.1.header.height);
    IndexGrows(c, d);
    IndexGrows(d, e);
    assert IsNew(c, d, r.1.header.hash) || IsNew(d, e, r.1.header.hash) ==> IsNew(c, e, r.1.header.hash);
    forall g | g in [h] + rest && Connectable(c, v, g)
      ensures g in e.tree.index
    {
      ConnectableStays(c, d, v, g);
      assert g == h || g in rest;
    }
  }

  lemma IndexGrows(c: ChainState, d: ChainState)
    requires Shrinks(c, d)
    ensures c.tree.index.Keys <= d.tree.index.Keys
  {
  }

  // ---------------------------------------------------------------- saving one orphan

  /** The hashes waiting for a block. */
  function WaitingFor(o: Pool, h: Hash): seq<Hash> {
    if h in o.prevOrphans then o.prevOrphans[h] else []
  }

  lemma SavedOrphan(c: ChainState, h: Hash, v: Validator)
    requires Shape(c) && Extends(v) && h in c.pool.orphans && SaveBlock(c, c.pool.orphans[h], v).Some?
    ensures var b := c.pool.orphans[h];
            var d := SaveBlock(c, b, v).value;
            && Shrinks(c, d) && Stored(d, b, v) && Known(d, b) && b.header.hash == h
            && (forall g :: IsNew(c, d, g) <==> g == h)
            && (forall g :: Under(c.pool, h, g) <==> Under(d.pool, h, g))
  {
    hide Shape, Grows, DeleteOrphan;
    var b := c.pool.orphans[h];
    OrphansAreNew(c, h);
    SaveBlockShape(c, b, v);
    var d := SaveBlock(c, b, v).value;
    forall p, g | p !in c.tree.index
      ensures Under(d.pool, p, g) <==> Under(c.pool, p, g)
    {
      DeletedListExactly(c.pool, h, p, g);
    }
  }

  lemma OrphansAreNew(c: ChainState, h: Hash)
    requires Shape(c) && h in c.pool.orphans
    ensures h !in c.tree.index && c.pool.orphans[h].header.hash == h
    ensures forall g :: g in c.pool.orphans ==> g !in c.tree.index
  {
  }

  /** Deleting an orphan clears the list it is on if nothing else is on it, and leaves it as it is otherwise, with the
      hash of the orphan still there. */
  lemma DeletedListExactly(o: Pool, h: Hash, p: Hash, g: Hash)
    requires h in o.orphans
    ensures Under(DeleteOrphan(o, h), p, g) <==>
            Under(o, p, g) && (p == o.orphans[h].header.previous ==> |o.prevOrphans[p]| > 1)
  {
  }

  /** An orphan and then what waits for it. */
  lemma AdoptsOne(c: ChainState, v: Validator, h: Hash, best: Block, r: (ChainState, Block))
    requires Shape(c) && Extends(v) && Known(c, best)
    requires h in c.pool.orphans && SaveBlock(c, c.pool.orphans[h], v).Some?
    requires var b := c.pool.orphans[h];
             var d := SaveBlock(c, b, v).value;
             Adopts(d, v, WaitingFor(d.pool, h), b, r)
    ensures Adopts(c, v, [h], best, (r.0, if r.1.header.height > best.header.height then r.1 else best))
  {
    hide Shape, Shrinks, Closed, Derived, Below, Connectable, SaveBlock;
    var b := c.pool.orphans[h];
    var d, e := SaveBlock(c, b, v).value, r.0;
    SavedOrphan(c, h, v);
    ShrinksThen(c, d, e);
    assert IsNew(c, d, h);
    AdoptsOneClosed(c, d, e, v, h);
    AdoptsOneDerived(c, d, e, v, h);
    var top := if r.1.header.height > best.header.height then r.1 else best;
    AdoptsOneBelow(c, d, e, h, r.1.header.height, top.header.height);
    IndexGrows(c, d);
    IndexGrows(d, e);
    KnownStays(c, e, best);
    assert IsNew(c, e, h);
  }

  lemma KnownStays(c: ChainState, d: ChainState, b: Block)
    requires Shrinks(c, d) && Known(c, b)
    ensures Known(d, b)
  {
  }

  lemma AdoptsOneClosed(c: ChainState, d: ChainState, e: ChainState, v: Validator, h: Hash)
    requires Extends(v) && Shrinks(c, d) && Shrinks(d, e) && Closed(d, e, v)
    requires forall g :: IsNew(c, d, g) <==> g == h
    requires forall g :: Under(c.pool, h, g) <==> Under(d.pool, h, g)
    requires forall g :: g in WaitingFor(d.pool, h) && Connectable(d, v, g) ==> g in e.tree.index
    ensures Closed(c, e, v)
  {
    forall p, g | IsNew(c, e, p) && Under(c.pool, p, g) && g in c.pool.orphans
                  && v(c.pool.orphans[g], e.tree.index[p]).Some?
      ensures g in e.tree.index
    {
      if p == h {
        assert IsNew(c, d, h);
        assert Indexed(d.tree, h);
        assert g in d.pool.orphans ==> Connectable(d, v, g);
        assert Under(d.pool, h, g);
      } else {
        assert !IsNew(c, d, p) && IsNew(d, e, p) && Under(d.pool, p, g);
      }
    }
  }

  lemma AdoptsOneDerived(c: ChainState, d: ChainState, e: ChainState, v: Validator, h: Hash)
    requires Shrinks(c, d) && Shrinks(d, e) && Derived(d, e, v, WaitingFor(d.pool, h))
    requires h in c.pool.orphans && Stored(d, c.pool.orphans[h], v)
    requires forall g :: IsNew(c, d, g) <==> g == h
    requires forall g :: Under(c.pool, h, g) <==> Under(d.pool, h, g)
    ensures Derived(c, e, v, [h])
  {
    hide Stored, Shape;
    forall g | IsNew(c, e, g)
      ensures g in c.pool.orphans && Stored(e, c.pool.orphans[g], v)
      ensures g in [h] || exists p :: IsNew(c, e, p) && Under(c.pool, p, g)
    {
      if g == h {
        StoredStays(d, e, c.pool.orphans[h], v);
      } else {
        assert !IsNew(c, d, g) && IsNew(d, e, g);
        assert IsNew(c, d, h) && IsNew(c, e, h);
        if g in WaitingFor(d.pool, h) {
          assert Under(d.pool, h, g);
        } else {
          var p :| IsNew(d, e, p) && Under(d.pool, p, g);
          assert IsNew(c, e, p) && Under(c.pool, p, g);
        }
      }
    }
  }

  lemma AdoptsOneBelow(c: ChainState, d: ChainState, e: ChainState, h: Hash, sub: int, top: int)
    requires Shrinks(c, d) && Shrinks(d, e) && Below(d, e, sub) && sub <= top
    requires forall g :: IsNew(c, d, g) <==> g == h
    requires h in d.tree.index && d.tree.index[h].height <= top
    ensures Below(c, e, top)
  {
    hide Shape;
    forall g | IsNew(c, e, g)
      ensures e.tree.index[g].height <= top
    {
      assert g != h ==> !IsNew(c, d, g) && IsNew(d, e, g);
    }
  }

  // ------------------------------------------------------------------ the whole descent

  lemma {:induction false} SubBlockAdopts(c: ChainState, b: Block, v: Validator)
    requires Shape(c) && Extends(v) && Known(c, b)
    ensures Adopts(c, v, WaitingFor(c.pool, b.header.hash), b, SaveSubBlock(c, b, v))
    decreases |c.pool.orphans|, 2, 0
  {
    hide Adopts;
    if b.header.hash in c.pool.prevOrphans {
      OrphansAdopt(c, c.pool.prevOrphans[b.header.hash], b, v);
    } else {
      AdoptsNothing(c, v, [], b);
    }
  }

  lemma {:induction false} OrphansAdopt(c: ChainState, hashes: seq<Hash>, best: Block, v: Validator)
    requires Shape(c) && Extends(v) && Known(c, best)
    ensures Adopts(c, v, hashes, best, SaveOrphans(c, hashes, best, v))
    decreases |c.pool.orphans|, 1, |hashes|
  {
    hide Adopts, Shape, Known, SaveOrphan, Extends;
    PoolIsKeyed(c);
    if hashes == [] {
      AdoptsNothing(c, v, [], best);
    } else {
      OrphanAdopts(c, hashes[0], best, v);
      var (c', best') := SaveOrphan(c, hashes[0], best, v);
      AdoptedIs(c, v, [hashes[0]], best, (c', best'));
      SubsetSize(c'.pool.orphans.Keys, c.pool.orphans.Keys);
      OrphansAdopt(c', hashes[1..], best', v);
      AdoptsThen(c, c', v, hashes[0], hashes[1..], best, best', SaveOrphans(c', hashes[1..], best', v));
      assert [hashes[0]] + hashes[1..] == hashes;
    }
  }

  lemma RefusedOrphan(c: ChainState, v: Validator, h: Hash)
    ensures Connectable(c, v, h) <==> h in c.pool.orphans && SaveBlock(c, c.pool.orphans[h], v).Some?
  {
  }

  lemma PoolIsKeyed(c: ChainState)
    requires Shape(c)
    ensures Keyed(c.pool)
  {
  }

  lemma SavedPool(c: ChainState, h: Hash, v: Validator)
    requires Shape(c) && Extends(v) && h in c.pool.orphans && SaveBlock(c, c.pool.orphans[h], v).Some?
    ensures var d := SaveBlock(c, c.pool.orphans[h], v).value;
            Shape(d) && Keyed(d.pool) && d.pool.orphans == c.pool.orphans - {h}
  {
    SaveBlockShape(c, c.pool.orphans[h], v);
  }

  lemma AdoptedIs(c: ChainState, v: Validator, hashes: seq<Hash>, best: Block, r: (ChainState, Block))
    requires Adopts(c, v, hashes, best, r)
    ensures Shape(r.0) && Known(r.0, r.1)
  {
  }

  lemma {:induction false} OrphanAdopts(c: ChainState, h: Hash, best: Block, v: Validator)
    requires Shape(c) && Extends(v) && Known(c, best)
    ensures Adopts(c, v, [h], best, SaveOrphan(c, h, best, v))
    decreases |c.pool.orphans|, 0, 0
  {
    hide Adopts, Shape, Known, SaveSubBlock, SaveBlock, Extends;
    PoolIsKeyed(c);
    if h in c.pool.orphans && SaveBlock(c, c.pool.orphans[h], v).Some? {
      var b := c.pool.orphans[h];
      var d := SaveBlock(c, b, v).value;
      SavedOrphan(c, h, v);
      SavedPool(c, h, v);
      FewerOrphans(c.pool, d.pool, h);
      SubBlockAdopts(d, b, v);
      AdoptsOne(c, v, h, best, SaveSubBlock(d, b, v));
      SaveOrphanUnfold(c, h, best, v, d);
    } else {
      assert !Connectable(c, v, h) by {
        RefusedOrphan(c, v, h);
      }
      AdoptsNothing(c, v, [h], best);
    }
  }

  // -------------------------------------------------------------- processing a block

  lemma NewBlockSaved(c: ChainState, b: Block, v: Validator)
    requires Shape(c) && Extends(v) && Proceeds(c, b, v)
    ensures var d := SaveBlock(c, b, v).value;
            && Shape(d) && Grows(c, d) && d.pool == c.pool && Stored(d, b, v) && Known(d, b)
            && (forall g :: IsNew(c, d, g) <==> g == b.header.hash)
  {
    SaveBlockShape(c, b, v);
    assert Indexed(c.tree, b.header.previous);
  }

  /** A call that goes on adds the block and some orphans.  An orphan that waits for the block, or for an orphan that
      is added, is added too if the validator accepts it, and leaves the pool; no others are added.  The chain is then
      offered a highest one of the added nodes. */
  ghost predicate AddsExactly(c: ChainState, b: Block, v: Validator, d: ChainState, node: BlockNode) {
    && IsNew(c, d, b.header.hash) && Stored(d, b, v)
    && (forall h :: h in d.pool.orphans <==> h in c.pool.orphans && h !in d.tree.index)
    && (forall h :: h in d.pool.orphans ==> d.pool.orphans[h] == c.pool.orphans[h])
    && Closed(c, d, v)
    && (forall h :: IsNew(c, d, h) && h != b.header.hash ==>
          && h in c.pool.orphans && Stored(d, c.pool.orphans[h], v)
          && exists p :: IsNew(c, d, p) && Under(c.pool, p, h))
    && IsNew(c, d, node.hash) && Holds(d.tree, node) && Below(c, d, node.height)
  }

  lemma SavedBestAddsExactly(c: ChainState, b: Block, v: Validator)
    requires Shape(c) && Extends(v) && Proceeds(c, b, v)
    ensures var (d, node) := SavedBest(c, b, v); AddsExactly(c, b, v, d, node)
  {
    hide Shape, SaveBlock, SaveSubBlock, Extends, Below, Derived, Closed, Stored;
    NewBlockSaved(c, b, v);
    var c1 := SaveBlock(c, b, v).value;
    PoolIsKeyed(c1);
    SubBlockAdopts(c1, b, v);
    var r := SaveSubBlock(c1, b, v);
    AddsClosed(c, c1, r.0, b, v);
    AddsDerived(c, c1, r.0, b, v);
    AddsBelow(c, c1, r.0, b, r.1.header.height);
    AddsRest(c, c1, r.0, b, r.1, v);
  }

  lemma AddsClosed(c: ChainState, d: ChainState, e: ChainState, b: Block, v: Validator)
    requires Extends(v) && Grows(c, d) && d.pool == c.pool && Shrinks(d, e) && Closed(d, e, v)
    requires forall g :: IsNew(c, d, g) <==> g == b.header.hash
    requires forall g :: g in WaitingFor(d.pool, b.header.hash) && Connectable(d, v, g) ==> g in e.tree.index
    ensures Closed(c, e, v)
  {
    forall p, g | IsNew(c, e, p) && Under(c.pool, p, g) && g in c.pool.orphans
                  && v(c.pool.orphans[g], e.tree.index[p]).Some?
      ensures g in e.tree.index
    {
      if p == b.header.hash {
        assert IsNew(c, d, p);
        assert Indexed(d.tree, p);
        assert Connectable(d, v, g);
      } else {
        assert !IsNew(c, d, p) && IsNew(d, e, p);
      }
    }
  }

  lemma AddsDerived(c: ChainState, d: ChainState, e: ChainState, b: Block, v: Validator)
    requires Grows(c, d) && d.pool == c.pool && Shrinks(d, e) && Derived(d, e, v, WaitingFor(d.pool, b.header.hash))
    requires forall g :: IsNew(c, d, g) <==> g == b.header.hash
    ensures forall h :: IsNew(c, e, h) && h != b.header.hash ==>
              && h in c.pool.orphans && Stored(e, c.pool.orphans[h], v)
              && exists p :: IsNew(c, e, p) && Under(c.pool, p, h)
  {
    hide Stored, Shape;
    forall h | IsNew(c, e, h) && h != b.header.hash
      ensures h in c.pool.orphans && Stored(e, c.pool.orphans[h], v)
      ensures exists p :: IsNew(c, e, p) && Under(c.pool, p, h)
    {
      assert !IsNew(c, d, h) && IsNew(d, e, h);
      assert IsNew(c, d, b.header.hash) && IsNew(c, e, b.header.hash);
      if h in WaitingFor(d.pool, b.header.hash) {
        assert Under(c.pool, b.header.hash, h);
      } else {
        var p :| IsNew(d, e, p) && Under(d.pool, p, h);
        assert IsNew(c, e, p);
      }
    }
  }

  lemma AddsBelow(c: ChainState, d: ChainState, e: ChainState, b: Block, top: int)
    requires Grows(c, d) && Shrinks(d, e) && Below(d, e, top) && Known(d, b) && b.header.height <= top
    requires forall g :: IsNew(c, d, g) <==> g == b.header.hash
    ensures Below(c, e, top)
  {
    hide Shape;
    forall g | IsNew(c, e, g)
      ensures e.tree.index[g].height <= top
    {
      assert g != b.header.hash ==> !IsNew(c, d, g) && IsNew(d, e, g);
    }
  }

  lemma AddsRest(c: ChainState, d: ChainState, e: ChainState, b: Block, top: Block, v: Validator)
    requires Grows(c, d) && Shrinks(d, e) && d.pool == c.pool && Known(e, top) && Stored(d, b, v)
    requires forall g :: IsNew(c, d, g) <==> g == b.header.hash
    requires top == b || IsNew(d, e, top.header.hash)
    ensures IsNew(c, e, b.header.hash) && IsNew(c, e, top.header.hash) && Stored(e, b, v)
    ensures e.tree.index[top.header.hash].hash == top.header.hash
  {
    assert IsNew(c, d, b.header.hash);
    assert Indexed(e.tree, top.header.hash);
    StoredStays(d, e, b, v);
  }

  /** What a call does with a new block that the validator accepts: it is stored together with every orphan that can
      now be connected, and the chain moves to a highest one of them exactly if that extends the tip, or is higher with
      no less work, and the outputs allow it. */
  lemma ProcessBlockAdopts(c: ChainState, b: Block, v: Validator) returns (node: BlockNode)
    requires Shape(c) && Extends(v) && Proceeds(c, b, v)
    ensures var (d, outcome) := ProcessBlock(c, b, v);
            && AddsExactly(c, b, v, d, node) && !outcome.isOrphan
            && var moves := node.parent == Some(c.best)
                            || (node.height > c.best.height && node.workSum >= c.best.workSum);
               d.best == (if moves && outcome.err.None? then node else c.best) && (!moves ==> outcome.err.None?)
  {
    hide Shape, SavedBest, AddsExactly, MoveSteps, Attaches, Path, HasBlocks, RunAndSave;
    ProcessBlockCases(c, b, v);
    SavedBestAddsExactly(c, b, v);
    var (d, n) := SavedBest(c, b, v);
    node := n;
    SameAdditions(c, b, v, d, UpdateBest(d, n).0, n);
  }

  lemma SameAdditions(c: ChainState, b: Block, v: Validator, d: ChainState, e: ChainState, node: BlockNode)
    requires AddsExactly(c, b, v, d, node) && e.tree == d.tree && e.pool == d.pool
    ensures AddsExactly(c, b, v, e, node)
  {
    hide NewBlockNode, Stored;
    SameStored(d, e, b, v);
    forall h | IsNew(c, e, h) && h != b.header.hash
      ensures h in c.pool.orphans && Stored(e, c.pool.orphans[h], v)
      ensures exists p :: IsNew(c, e, p) && Under(c.pool, p, h)
    {
      assert IsNew(c, d, h);
      SameStored(d, e, c.pool.orphans[h], v);
      var p :| IsNew(c, d, p) && Under(c.pool, p, h);
      assert IsNew(c, e, p);
    }
    forall p | IsNew(c, e, p)
      ensures IsNew(c, d, p)
    {
    }
  }

  lemma SameStored(d: ChainState, e: ChainState, b: Block, v: Validator)
    requires Stored(d, b, v) && e.tree == d.tree
    ensures Stored(e, b, v)
  {
  }

  /** What a call does with any other block: nothing if it is known or refused, and it becomes an orphan, listed under
      its parent, if the parent is not known. */
  lemma ProcessBlockOther(c: ChainState, b: Block, v: Validator)
    requires Shape(c) && Extends(v) && !Proceeds(c, b, v)
    ensures var (d, outcome) := ProcessBlock(c, b, v);
            var h, p := b.header.hash, b.header.previous;
            if h in c.tree.index || h in c.pool.orphans then d == c && outcome == Outcome(h in c.pool.orphans, None)
            else if p in c.tree.index then
              d == c && outcome == Outcome(false, Some(BadBlock)) && v(b, c.tree.index[p]).None?
            else
              && d.tree == c.tree && d.best == c.best && d.utxos == c.utxos && outcome == Outcome(true, None)
              && d.pool.orphans == c.pool.orphans[h := b]
              && forall q, g :: Under(d.pool, q, g) <==> Under(c.pool, q, g) || (q == p && g == h)
  {
  }
}
