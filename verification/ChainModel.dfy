// protocol/block.go as functions on a value: the state of the chain and what
// processing one block does to it.  The class in Chain.dfy is proved against
// these functions; the theorems about whole runs are proved here.
module ChainModel {
  import opened Wrappers
  import opened Bc
  import opened UtxoView
  import opened ViewRuns
  import opened BlockTree

  /** validation.ValidateBlock: the transaction status of an acceptable child of a node, else None. */
  type Validator = (Block, BlockNode) -> Option<TxStatus>

  /** What the header check guarantees: a block extends its parent by one. */
  ghost predicate Extends(v: Validator) {
    forall b, p :: v(b, p).Some? ==> b.header.height == p.height + 1 && b.header.previous == p.hash
  }

  /** All known blocks: the nodes by hash, the stored blocks by hash, and the genesis node. */
  datatype Tree = Tree(root: BlockNode, index: map<Hash, BlockNode>, blocks: map<Hash, Saved>)

  /** Blocks whose parent is unknown, and per unknown parent the hashes waiting for it. */
  datatype Pool = Pool(orphans: map<Hash, Block>, prevOrphans: map<Hash, seq<Hash>>)

  datatype ChainState = ChainState(tree: Tree, best: BlockNode, utxos: Entries, pool: Pool)

  datatype ChainError = BadBlock | BadView(error: ViewError)

  // ---------------------------------------------------------------- orphans

  function AddOrphan(o: Pool, b: Block): Pool {
    var h, p := b.header.hash, b.header.previous;
    if h in o.orphans then o
    else Pool(o.orphans[h := b], o.prevOrphans[p := (if p in o.prevOrphans then o.prevOrphans[p] else []) + [h]])
  }

  /** Deleting an orphan clears its parent's list when it was alone on it; otherwise the list keeps the stale
      hash, because the source compares the addresses of two distinct copies of the hash. */
  function DeleteOrphan(o: Pool, h: Hash): (r: Pool)
    ensures r.orphans == o.orphans - {h}
  {
    if h !in o.orphans then o
    else
      var p := o.orphans[h].header.previous;
      Pool(o.orphans - {h},
           if p in o.prevOrphans && |o.prevOrphans[p]| != 1 then o.prevOrphans else o.prevOrphans - {p})
  }

  predicate Keyed(o: Pool) {
    forall h :: h in o.orphans ==> o.orphans[h].header.hash == h
  }

  // ----------------------------------------------------------- saving blocks

  function AddBlock(t: Tree, b: Block, parent: BlockNode, status: TxStatus): Tree {
    var node := NewBlockNode(b.header, Some(parent)).value;
    t.(index := t.index[b.header.hash := node], blocks := t.blocks[b.header.hash := Saved(b, status)])
  }

  function SaveBlock(c: ChainState, b: Block, v: Validator): Option<ChainState> {
    if b.header.previous !in c.tree.index then None
    else
      var parent := c.tree.index[b.header.previous];
      match v(b, parent)
      case None => None
      case Some(status) =>
        Some(c.(tree := AddBlock(c.tree, b, parent, status), pool := DeleteOrphan(c.pool, b.header.hash)))
  }

  /** Saves the orphans waiting for a saved block, depth first, and returns the highest block reached. */
  function SaveSubBlock(c: ChainState, b: Block, v: Validator): (r: (ChainState, Block))
    requires Keyed(c.pool)
    ensures r.0.pool.orphans.Keys <= c.pool.orphans.Keys && Keyed(r.0.pool)
    decreases |c.pool.orphans|, 2, 0
  {
    if b.header.hash !in c.pool.prevOrphans then (c, b)
    else SaveOrphans(c, c.pool.prevOrphans[b.header.hash], b, v)
  }

  function SaveOrphans(c: ChainState, hashes: seq<Hash>, best: Block, v: Validator): (r: (ChainState, Block))
    requires Keyed(c.pool)
    ensures r.0.pool.orphans.Keys <= c.pool.orphans.Keys && Keyed(r.0.pool)
    decreases |c.pool.orphans|, 1, |hashes|
  {
    if hashes == [] then (c, best)
    else
      var (c', best') := SaveOrphan(c, hashes[0], best, v);
      SubsetSize(c'.pool.orphans.Keys, c.pool.orphans.Keys);
      SaveOrphans(c', hashes[1..], best', v)
  }

  function SaveOrphan(c: ChainState, h: Hash, best: Block, v: Validator): (r: (ChainState, Block))
    requires Keyed(c.pool)
    ensures r.0.pool.orphans.Keys <= c.pool.orphans.Keys && Keyed(r.0.pool)
    decreases |c.pool.orphans|, 0, 0
  {
    if h !in c.pool.orphans then (c, best)
    else
      var b := c.pool.orphans[h];
      match SaveBlock(c, b, v)
      case None => (c, best)
      case Some(c1) =>
        FewerOrphans(c.pool, c1.pool, h);
        var (c2, sub) := SaveSubBlock(c1, b, v);
        (c2, if sub.header.height > best.header.height then sub else best)
  }

  lemma SubsetSize<T>(a: set<T>, b: set<T>)
    requires a <= b
    ensures |a| <= |b|
  {
    if a != {} {
      var x :| x in a;
      SubsetSize(a - {x}, b - {x});
    }
  }

  lemma FewerOrphans(o: Pool, o1: Pool, h: Hash)
    requires h in o.orphans && o1.orphans == o.orphans - {h}
    ensures |o1.orphans| < |o.orphans|
  {
    assert o1.orphans.Keys == o.orphans.Keys - {h};
  }

  // ------------------------------------------------ moving the best block

  predicate HasBlocks(blocks: map<Hash, Saved>, nodes: seq<BlockNode>) {
    forall k :: 0 <= k < |nodes| ==> nodes[k].hash in blocks
  }

  function Attaches(blocks: map<Hash, Saved>, nodes: seq<BlockNode>): (r: seq<Step>)
    requires HasBlocks(blocks, nodes)
    ensures |r| == |nodes| && forall k :: 0 <= k < |nodes| ==> r[k] == Attach(blocks[nodes[k].hash])
  {
    seq(|nodes|, k requires 0 <= k < |nodes| => Attach(blocks[nodes[k].hash]))
  }

  function Detaches(blocks: map<Hash, Saved>, nodes: seq<BlockNode>): (r: seq<Step>)
    requires HasBlocks(blocks, nodes)
    ensures |r| == |nodes| && forall k :: 0 <= k < |nodes| ==> r[k] == Detach(blocks[nodes[k].hash])
  {
    seq(|nodes|, k requires 0 <= k < |nodes| => Detach(blocks[nodes[k].hash]))
  }

  /** Moves to `node` by running the steps on the stored outputs; nothing moves if a step is refused. */
  function MoveTo(c: ChainState, node: BlockNode, steps: seq<Step>): (ChainState, Option<ChainError>) {
    match RunAndSave(c.utxos, steps)
    case Err(e) => (c, Some(BadView(e)))
    case Ok(utxos) => (c.(best := node, utxos := utxos), None)
  }

  lemma PathsHaveBlocks(blocks: map<Hash, Saved>, best: BlockNode, node: BlockNode)
    requires HasBlocks(blocks, Path(node)) && HasBlocks(blocks, Path(best))
    ensures HasBlocks(blocks, DetachNodes(best, node)) && HasBlocks(blocks, AttachNodes(best, node))
  {
  }

  /** Detach down to the common ancestor, then attach up to the new tip. */
  function MoveSteps(blocks: map<Hash, Saved>, best: BlockNode, node: BlockNode): seq<Step>
    requires HasBlocks(blocks, Path(node)) && HasBlocks(blocks, Path(best))
  {
    Detaches(blocks, DetachNodes(best, node)) + Attaches(blocks, AttachNodes(best, node))
  }

  /** The fork choice: extend the tip, or move to a higher branch with at least as much work. */
  function UpdateBest(c: ChainState, node: BlockNode): (ChainState, Option<ChainError>)
    requires HasBlocks(c.tree.blocks, Path(node)) && HasBlocks(c.tree.blocks, Path(c.best))
  {
    if node.parent == Some(c.best) then
      MoveTo(c, node, Attaches(c.tree.blocks, [node]))
    else if node.height > c.best.height && node.workSum >= c.best.workSum then
      MoveTo(c, node, MoveSteps(c.tree.blocks, c.best, node))
    else (c, None)
  }

  datatype Outcome = Outcome(isOrphan: bool, err: Option<ChainError>)

  function ProcessBlock(c: ChainState, b: Block, v: Validator): (ChainState, Outcome)
    requires Shape(c) && Extends(v)
  {
    var h := b.header.hash;
    if h in c.tree.index || h in c.pool.orphans then (c, Outcome(h in c.pool.orphans, None))
    else if b.header.previous !in c.tree.index then (c.(pool := AddOrphan(c.pool, b)), Outcome(true, None))
    else
      match SaveBlock(c, b, v)
      case None => (c, Outcome(false, Some(BadBlock)))
      case Some(c1) =>
        var (c2, node) := SavedBest(c, b, v);
        var (c3, err) := UpdateBest(c2, node);
        (c3, Outcome(false, err))
  }

  /** The state after a new valid block and the orphans waiting for it are saved, and the node to move to. */
  function SavedBest(c: ChainState, b: Block, v: Validator): (r: (ChainState, BlockNode))
    requires Shape(c) && Extends(v) && b.header.hash !in c.tree.index && SaveBlock(c, b, v).Some?
    ensures Shape(r.0) && Grows(c, r.0) && Holds(r.0.tree, r.1)
    ensures HasBlocks(r.0.tree.blocks, Path(r.1)) && HasBlocks(r.0.tree.blocks, Path(r.0.best))
  {
    var c1 := SaveBlock(c, b, v).value;
    SaveBlockShape(c, b, v);
    SaveSubBlockShape(c1, b, v);
    var (c2, bestBlock) := SaveSubBlock(c1, b, v);
    var node := c2.tree.index[bestBlock.header.hash];
    assert Indexed(c2.tree, bestBlock.header.hash);
    PathIndexed(c2.tree, node);
    PathIndexed(c2.tree, c2.best);
    (c2, node)
  }

  // --------------------------------------------- the shape of every state

  /** The index maps the node's hash to the node. */
  predicate Holds(t: Tree, n: BlockNode) {
    n.hash in t.index && t.index[n.hash] == n
  }

  /** A node of the index, with its parent in the index and its block stored. */
  predicate Indexed(t: Tree, h: Hash)
    requires h in t.index
  {
    var n := t.index[h];
    && n.hash == h && WellFormed(n) && Path(n)[0] == t.root
    && (n.parent.Some? ==> Holds(t, n.parent.value))
    && h in t.blocks && t.blocks[h].block.header.hash == h && t.blocks[h].block.header.height == n.height
  }

  predicate TreeOk(t: Tree) {
    forall h :: h in t.index ==> Indexed(t, h)
  }

  predicate PoolOk(o: Pool, known: set<Hash>) {
    && Keyed(o)
    && o.orphans.Keys !! known
  }

  predicate Shape(c: ChainState) {
    TreeOk(c.tree) && Holds(c.tree, c.best) && PoolOk(c.pool, c.tree.index.Keys)
  }

  lemma {:induction false} PathIndexed(t: Tree, n: BlockNode)
    requires TreeOk(t) && Holds(t, n)
    ensures HasBlocks(t.blocks, Path(n))
    ensures forall k :: 0 <= k < |Path(n)| ==> Holds(t, Path(n)[k])
    decreases n
  {
    assert Indexed(t, n.hash);
    if n.parent.Some? {
      PathIndexed(t, n.parent.value);
    }
  }

  /** The second tree knows everything the first one knew. */
  predicate TreeGrows(t: Tree, u: Tree) {
    && u.root == t.root
    && (forall h :: h in t.index ==> h in u.index && u.index[h] == t.index[h])
    && (forall h :: h in t.index && h in t.blocks ==> h in u.blocks && u.blocks[h] == t.blocks[h])
  }

  predicate Grows(c: ChainState, d: ChainState) {
    d.best == c.best && d.utxos == c.utxos && TreeGrows(c.tree, d.tree)
  }

  lemma AddBlockOk(t: Tree, b: Block, parent: BlockNode, status: TxStatus)
    requires TreeOk(t) && Holds(t, parent) && b.header.hash !in t.index
    requires b.header.height == parent.height + 1
    ensures TreeOk(AddBlock(t, b, parent, status)) && TreeGrows(t, AddBlock(t, b, parent, status))
    ensures AddBlock(t, b, parent, status).index[b.header.hash].height == b.header.height
  {
    var u, n := AddBlock(t, b, parent, status), NewBlockNode(b.header, Some(parent)).value;
    assert Indexed(t, parent.hash);
    assert Path(n) == Path(parent) + [n];
    forall h | h in u.index
      ensures Indexed(u, h)
    {
      if h != b.header.hash {
        assert Indexed(t, h);
      }
    }
  }

  lemma SaveBlockShape(c: ChainState, b: Block, v: Validator)
    requires Shape(c) && Extends(v) && b.header.hash !in c.tree.index && SaveBlock(c, b, v).Some?
    ensures var d := SaveBlock(c, b, v).value;
            && Shape(d) && Grows(c, d)
            && Known(d, b)
            && d.pool.orphans == c.pool.orphans - {b.header.hash}
  {
    var d, parent := SaveBlock(c, b, v).value, c.tree.index[b.header.previous];
    assert Indexed(c.tree, b.header.previous);
    AddBlockOk(c.tree, b, parent, v(b, parent).value);
    assert d.tree.index.Keys == c.tree.index.Keys + {b.header.hash};
  }

  /** What saving keeps: the shape, everything known, and a best block that is in the index at its height. */
  predicate SavesTo(c: ChainState, floor: nat, d: ChainState, best: Block) {
    var shaped, grown := Shape(d), Grows(c, d);
    shaped && grown && Known(d, best) && best.header.height >= floor
  }

  predicate Known(c: ChainState, b: Block) {
    b.header.hash in c.tree.index && c.tree.index[b.header.hash].height == b.header.height
  }

  lemma {:induction false} SaveSubBlockShape(c: ChainState, b: Block, v: Validator)
    requires Shape(c) && Extends(v) && Known(c, b)
    ensures SavesTo(c, b.header.height, SaveSubBlock(c, b, v).0, SaveSubBlock(c, b, v).1)
    decreases |c.pool.orphans|, 2, 0
  {
    if b.header.hash in c.pool.prevOrphans {
      SaveOrphansShape(c, c.pool.prevOrphans[b.header.hash], b, v);
    }
  }

  lemma {:induction false} SaveOrphansShape(c: ChainState, hashes: seq<Hash>, best: Block, v: Validator)
    requires Shape(c) && Extends(v) && Known(c, best)
    ensures SavesTo(c, best.header.height, SaveOrphans(c, hashes, best, v).0, SaveOrphans(c, hashes, best, v).1)
    decreases |c.pool.orphans|, 1, |hashes|
  {
    if hashes != [] {
      SaveOrphanShape(c, hashes[0], best, v);
      var (c', best') := SaveOrphan(c, hashes[0], best, v);
      SubsetSize(c'.pool.orphans.Keys, c.pool.orphans.Keys);
      SaveOrphansShape(c', hashes[1..], best', v);
      GrowsTransitive(c, c', SaveOrphans(c', hashes[1..], best', v).0);
    }
  }

  lemma GrowsTransitive(c: ChainState, d: ChainState, e: ChainState)
    requires Grows(c, d) && TreeOk(c.tree) && Grows(d, e)
    ensures Grows(c, e)
  {
    forall h | h in c.tree.index
      ensures h in e.tree.index && e.tree.index[h] == c.tree.index[h]
      ensures h in c.tree.blocks ==> h in e.tree.blocks && e.tree.blocks[h] == c.tree.blocks[h]
    {
      assert d.tree.index[h] == c.tree.index[h];
      assert Indexed(c.tree, h);
    }
  }

  lemma {:induction false} SaveOrphanShape(c: ChainState, h: Hash, best: Block, v: Validator)
    requires Shape(c) && Extends(v) && Known(c, best)
    ensures SavesTo(c, best.header.height, SaveOrphan(c, h, best, v).0, SaveOrphan(c, h, best, v).1)
    decreases |c.pool.orphans|, 0, 0
  {
    if h in c.pool.orphans && SaveBlock(c, c.pool.orphans[h], v).Some? {
      var b := c.pool.orphans[h];
      var c1 := SaveBlock(c, b, v).value;
      SaveBlockShape(c, b, v);
      FewerOrphans(c.pool, c1.pool, h);
      SaveSubBlockShape(c1, b, v);
      SavesToThen(c, c1, SaveSubBlock(c1, b, v).0, b, SaveSubBlock(c1, b, v).1, best);
    }
  }

  lemma SavesToThen(c: ChainState, c1: ChainState, c2: ChainState, b: Block, sub: Block, best: Block)
    requires TreeOk(c.tree) && Grows(c, c1) && Known(c, best)
    requires SavesTo(c1, b.header.height, c2, sub)
    ensures SavesTo(c, best.header.height, c2, if sub.header.height > best.header.height then sub else best)
  {
    GrowsTransitive(c, c1, c2);
  }

  lemma SaveOrphanUnfold(c: ChainState, h: Hash, best: Block, v: Validator, c1: ChainState)
    requires Keyed(c.pool) && h in c.pool.orphans && SaveBlock(c, c.pool.orphans[h], v) == Some(c1) && Keyed(c1.pool)
    ensures var (c2, sub) := SaveSubBlock(c1, c.pool.orphans[h], v);
            SaveOrphan(c, h, best, v) == (c2, if sub.header.height > best.header.height then sub else best)
  {
  }
}
