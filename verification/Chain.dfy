// protocol/block.go and protocol/protocol.go: the chain object.  Its methods
// update the index, the store, the orphan pool and the best node in place, and
// are proved against the functions of ChainModel.
module Chain {
  import opened Wrappers
  import opened Bc
  import opened UtxoView
  import opened UtxoStore
  import opened ViewRuns
  import opened BlockTree
  import opened BlockIndex
  import opened ChainModel
  import opened ChainRuns
  import opened IndexLoad

  /** database/leveldb/store.go: stored blocks, stored outputs and the recorded tip. */
  class Store {
    var blocks: map<Hash, Saved>
    var utxos: Entries
    var status: Option<Hash>

    constructor ()
      ensures blocks == map[] && utxos == map[] && status == None
    {
      blocks, utxos, status := map[], map[], None;
    }

    method SaveBlock(block: Block, txStatus: TxStatus)
      modifies this`blocks
      ensures blocks == old(blocks)[block.header.hash := Saved(block, txStatus)]
    {
      blocks := blocks[block.header.hash := Saved(block, txStatus)];
    }

    method SaveChainStatus(node: BlockNode, view: UtxoViewpoint)
      modifies this`utxos, this`status
      ensures utxos == Save(old(utxos), view.entries) && status == Some(node.hash)
    {
      utxos := SaveUtxoView(utxos, view.entries);
      status := Some(node.hash);
    }
  }

  /** protocol/orphan_manage.go without its expiry timer. */
  class OrphanManage {
    var pool: Pool

    constructor ()
      ensures pool == Pool(map[], map[])
    {
      pool := Pool(map[], map[]);
    }

    method Add(block: Block)
      modifies this
      ensures pool == AddOrphan(old(pool), block)
    {
      var h, p := block.header.hash, block.header.previous;
      if h in pool.orphans {
        return;
      }
      var list := if p in pool.prevOrphans then pool.prevOrphans[p] else [];
      pool := Pool(pool.orphans[h := block], pool.prevOrphans[p := list + [h]]);
    }

    method Delete(hash: Hash)
      modifies this
      ensures pool == DeleteOrphan(old(pool), hash)
    {
      if hash !in pool.orphans {
        return;
      }
      var p := pool.orphans[hash].header.previous;
      var lists := pool.prevOrphans;
      if p !in lists || |lists[p]| == 1 {
        lists := lists - {p};
      }
      pool := Pool(pool.orphans - {hash}, lists);
    }
  }

  lemma InitialUtxos(s: Saved)
    requires ApplyBlock(map[], s.block, s.status).Ok?
    ensures RunAndSave(map[], [Attach(s)]) == Ok(Save(map[], ApplyBlock(map[], s.block, s.status).value))
  {
    assert Load(map[], map[], s.block.transactions) == map[];
    RunOne(map[], Attach(s));
  }

  class Chain {
    const index: BlockIndex
    const store: Store
    const orphanManage: OrphanManage
    var bestNode: BlockNode
    ghost const root: BlockNode

    /** A new chain on an empty store: saves and applies the genesis block. */
    constructor (genesis: Block, txStatus: TxStatus)
      requires genesis.header.height == 0
      requires ApplyBlock(map[], genesis, txStatus).Ok?
      ensures Valid() && Initial(State(), Saved(genesis, txStatus))
      ensures fresh(index) && fresh(store) && fresh(orphanManage)
    {
      var node := NewBlockNode(genesis.header, None).value;
      index := new BlockIndex();
      store := new Store();
      orphanManage := new OrphanManage();
      bestNode := node;
      root := node;
      new;
      store.SaveBlock(genesis, txStatus);
      var view := new UtxoViewpoint();
      var err := view.Apply(genesis, txStatus);
      store.SaveChainStatus(node, view);
      index.AddNode(node);
      index.SetMainChain(node, None);
      InitialUtxos(Saved(genesis, txStatus));
      InitialIsGood(State(), Saved(genesis, txStatus));
    }

    /** Opening a chain on the store another chain left behind: the index is loaded from the stored headers in
        key order, and everything but the orphans is as it was. */
    constructor Open(existing: Store, headers: seq<Header>, ghost was: ChainState)
      requires Shape(was) && TreeRebuildable(was.tree) && Lists(headers, was.tree)
      requires existing.blocks == was.tree.blocks && existing.utxos == was.utxos
      requires existing.status == Some(was.best.hash)
      ensures Valid() && store == existing && fresh(index) && fresh(orphanManage)
      ensures State() == was.(pool := Pool(map[], map[]))
    {
      LoadRebuildsIndex(headers, was.tree);
      var loaded := LoadBlockIndex(headers);
      index := new BlockIndex();
      store := existing;
      orphanManage := new OrphanManage();
      bestNode := loaded.value[existing.status.value];
      root := was.tree.root;
      new;
      index.index := loaded.value;
      assert Indexed(was.tree, bestNode.hash);
      index.SetMainChain(bestNode, None);
    }

    ghost function State(): ChainState
      reads this, index, store, orphanManage
    {
      ChainState(Tree(root, index.index, store.blocks), bestNode, store.utxos, orphanManage.pool)
    }

    /** The main-chain array is the parent walk from the best node, and the recorded tip is the best node. */
    ghost predicate Valid()
      reads this, index, store, orphanManage
    {
      Shape(State()) && index.mainChain == Slots(Path(bestNode)) && store.status == Some(bestNode.hash)
    }

    lemma BestIsWellFormed()
      requires Valid()
      ensures WellFormed(bestNode)
    {
      assert Indexed(State().tree, bestNode.hash);
    }

    /** The two paths to the lowest common ancestor: up to the node, and down from the best node. */
    method CalcReorganizeNodes(node: BlockNode) returns (attachNodes: seq<BlockNode>, detachNodes: seq<BlockNode>)
      requires WellFormed(bestNode) && index.mainChain == Slots(Path(bestNode))
      requires WellFormed(node) && Path(node)[0] == Path(bestNode)[0]
      ensures attachNodes == AttachNodes(bestNode, node)
      ensures detachNodes == DetachNodes(bestNode, node)
    {
      ClimbStart(bestNode, node);
      attachNodes, detachNodes := [], [];
      var attachNode := node;
      while index.NodeByHeight(attachNode.height) != Some(attachNode)
        invariant Climbed(bestNode, node, attachNode, attachNodes)
        decreases attachNode.height
      {
        ClimbStep(bestNode, node, attachNode, attachNodes);
        attachNodes := [attachNode] + attachNodes;
        attachNode := attachNode.parent.value;
      }
      ClimbEnd(bestNode, node, attachNode, attachNodes);

      var detachNode := bestNode;
      while detachNode != attachNode
        invariant Descended(bestNode, detachNode, attachNode, detachNodes)
        decreases detachNode.height
      {
        DescendStep(bestNode, detachNode, attachNode, detachNodes);
        detachNodes := detachNodes + [detachNode];
        detachNode := detachNode.parent.value;
      }
    }

    /** Writes the view and moves the tip (setState). */
    method SetState(node: BlockNode, view: UtxoViewpoint)
      requires Valid() && Holds(State().tree, node)
      modifies this`bestNode, index`mainChain, store`utxos, store`status
      ensures Valid()
      ensures State() == old(State()).(best := node, utxos := Save(old(store.utxos), view.entries))
    {
      BestIsWellFormed();
      assert Indexed(State().tree, node.hash);
      store.SaveChainStatus(node, view);
      index.SetMainChain(node, Some(bestNode));
      bestNode := node;
    }

    method ConnectBlock(block: Block) returns (err: Option<ChainError>)
      requires Valid() && block.header.hash in index.index
      requires store.blocks[block.header.hash].block == block
      modifies this`bestNode, index`mainChain, store`utxos, store`status
      ensures Valid()
      ensures var node := old(index.index)[block.header.hash];
              node.hash in old(store.blocks)
              && MoveTo(old(State()), node, Attaches(old(store.blocks), [node])) == (State(), err)
    {
      ghost var saved := store.blocks[block.header.hash];
      var node := index.index[block.header.hash];
      assert Indexed(State().tree, block.header.hash);
      var txStatus := store.blocks[block.header.hash].status;
      var view := new UtxoViewpoint();
      GetTransactionsUtxo(store.utxos, view, block.transactions);
      ghost var loaded := view.entries;
      var failed := view.Apply(block, txStatus);
      RunOne(store.utxos, Attach(saved));
      assert Attaches(store.blocks, [node]) == [Attach(saved)];
      if failed.Some? {
        return Some(BadView(failed.value));
      }
      SetState(node, view);
      return None;
    }

    method DetachAll(nodes: seq<BlockNode>, view: UtxoViewpoint) returns (err: Option<ViewError>)
      requires HasBlocks(store.blocks, nodes)
      modifies view
      ensures OneView(store.utxos, old(view.entries), Detaches(store.blocks, nodes)) ==
              if err.None? then Ok(view.entries) else Err(err.value)
    {
      ghost var steps := Detaches(store.blocks, nodes);
      for i := 0 to |nodes|
        invariant OneView(store.utxos, old(view.entries), steps[..i]) == Ok(view.entries)
      {
        var b := store.blocks[nodes[i].hash];
        OneViewSnoc(store.utxos, old(view.entries), steps, i);
        GetTransactionsUtxo(store.utxos, view, b.block.transactions);
        err := view.Detach(b.block, b.status);
        if err.Some? {
          OneViewFails(store.utxos, old(view.entries), steps, i + 1);
          return;
        }
      }
      assert steps[..|nodes|] == steps;
      return None;
    }

    method AttachAll(nodes: seq<BlockNode>, view: UtxoViewpoint) returns (err: Option<ViewError>)
      requires HasBlocks(store.blocks, nodes)
      modifies view
      ensures OneView(store.utxos, old(view.entries), Attaches(store.blocks, nodes)) ==
              if err.None? then Ok(view.entries) else Err(err.value)
    {
      ghost var steps := Attaches(store.blocks, nodes);
      for i := 0 to |nodes|
        invariant OneView(store.utxos, old(view.entries), steps[..i]) == Ok(view.entries)
      {
        var b := store.blocks[nodes[i].hash];
        OneViewSnoc(store.utxos, old(view.entries), steps, i);
        GetTransactionsUtxo(store.utxos, view, b.block.transactions);
        err := view.Apply(b.block, b.status);
        if err.Some? {
          OneViewFails(store.utxos, old(view.entries), steps, i + 1);
          return;
        }
      }
      assert steps[..|nodes|] == steps;
      return None;
    }

    /** Detaches and attaches through one view, then saves it once. */
    method ReorganizeChain(node: BlockNode) returns (err: Option<ChainError>)
      requires Valid() && Holds(State().tree, node)
      requires HasBlocks(store.blocks, Path(node)) && HasBlocks(store.blocks, Path(bestNode))
      modifies this`bestNode, index`mainChain, store`utxos, store`status
      ensures Valid()
      ensures MoveTo(old(State()), node, MoveSteps(old(store.blocks), old(bestNode), node)) == (State(), err)
    {
      assert Indexed(State().tree, node.hash) && Indexed(State().tree, bestNode.hash);
      ghost var start, steps := State(), MoveSteps(store.blocks, bestNode, node);
      PathsHaveBlocks(store.blocks, bestNode, node);
      var attachNodes, detachNodes := CalcReorganizeNodes(node);
      var view := new UtxoViewpoint();
      var failed := SwitchView(attachNodes, detachNodes, view);
      assert RunAndSave(store.utxos, steps) == if failed.None? then Ok(Save(store.utxos, view.entries))
        else Err(failed.value);
      if failed.Some? {
        return Some(BadView(failed.value));
      }
      SetState(node, view);
      return None;
    }

    method SwitchView(attachNodes: seq<BlockNode>, detachNodes: seq<BlockNode>, view: UtxoViewpoint)
      returns (err: Option<ViewError>)
      requires HasBlocks(store.blocks, attachNodes) && HasBlocks(store.blocks, detachNodes)
      modifies view
      ensures OneView(store.utxos, old(view.entries),
                      Detaches(store.blocks, detachNodes) + Attaches(store.blocks, attachNodes))
              == if err.None? then Ok(view.entries) else Err(err.value)
    {
      OneViewConcat(store.utxos, view.entries, Detaches(store.blocks, detachNodes),
                    Attaches(store.blocks, attachNodes));
      err := DetachAll(detachNodes, view);
      if err.None? {
        err := AttachAll(attachNodes, view);
      }
    }

    method SaveBlock(block: Block, v: Validator) returns (ok: bool)
      requires Valid() && Extends(v) && block.header.hash !in index.index
      modifies index`index, store`blocks, orphanManage
      ensures Valid()
      ensures ChainModel.SaveBlock(old(State()), block, v) == if ok then Some(State()) else None
      ensures !ok ==> State() == old(State())
    {
      if block.header.previous !in index.index {
        return false;
      }
      var parent := index.index[block.header.previous];
      var status := v(block, parent);
      if status.None? {
        return false;
      }
      SaveBlockShape(State(), block, v);
      store.SaveBlock(block, status.value);
      orphanManage.Delete(block.header.hash);
      var node := NewBlockNode(block.header, Some(parent)).value;
      index.AddNode(node);
      return true;
    }

    method SaveSubBlock(block: Block, v: Validator) returns (bestBlock: Block)
      requires Valid() && Extends(v) && Known(State(), block)
      modifies index`index, store`blocks, orphanManage
      ensures Valid()
      ensures ChainModel.SaveSubBlock(old(State()), block, v) == (State(), bestBlock)
      decreases |orphanManage.pool.orphans|, 1
    {
      bestBlock := block;
      if block.header.hash !in orphanManage.pool.prevOrphans {
        return;
      }
      var hashes := orphanManage.pool.prevOrphans[block.header.hash];
      ghost var start := State();
      for i := 0 to |hashes|
        invariant Valid() && Known(State(), bestBlock)
        invariant |orphanManage.pool.orphans| <= |start.pool.orphans|
        invariant SaveOrphans(start, hashes, block, v) == SaveOrphans(State(), hashes[i..], bestBlock, v)
      {
        assert hashes[i..][0] == hashes[i] && hashes[i..][1..] == hashes[i + 1..];
        bestBlock := SaveOrphan(hashes[i], bestBlock, v);
      }
    }

    method SaveOrphan(hash: Hash, best: Block, v: Validator) returns (bestBlock: Block)
      requires Valid() && Extends(v) && Known(State(), best)
      modifies index`index, store`blocks, orphanManage
      ensures Valid() && Known(State(), bestBlock)
      ensures ChainModel.SaveOrphan(old(State()), hash, best, v) == (State(), bestBlock)
      ensures |orphanManage.pool.orphans| <= |old(orphanManage.pool.orphans)|
      decreases |orphanManage.pool.orphans|, 0
    {
      ghost var start := State();
      if hash !in orphanManage.pool.orphans {
        return best;
      }
      var orphan := orphanManage.pool.orphans[hash];
      var ok := SaveBlock(orphan, v);
      if !ok {
        return best;
      }
      SaveBlockShape(start, orphan, v);
      ghost var saved := State();
      FewerOrphans(start.pool, saved.pool, hash);
      var sub := SaveSubBlock(orphan, v);
      SaveSubBlockShape(saved, orphan, v);
      SubsetSize(State().pool.orphans.Keys, saved.pool.orphans.Keys);
      SavesToThen(start, saved, State(), orphan, sub, best);
      SaveOrphanUnfold(start, hash, best, v, saved);
      bestBlock := if sub.header.height > best.header.height then sub else best;
    }

    /** The fork choice after saving (the end of processBlock). */
    method UpdateBest(node: BlockNode) returns (err: Option<ChainError>)
      requires Valid() && Holds(State().tree, node)
      requires HasBlocks(store.blocks, Path(node)) && HasBlocks(store.blocks, Path(bestNode))
      modifies this`bestNode, index`mainChain, store`utxos, store`status
      ensures Valid()
      ensures ChainModel.UpdateBest(old(State()), node) == (State(), err)
    {
      if node.parent == Some(bestNode) {
        err := ConnectBlock(store.blocks[node.hash].block);
        return;
      }
      if node.height > bestNode.height && node.workSum >= bestNode.workSum {
        err := ReorganizeChain(node);
        return;
      }
      return None;
    }

    method ProcessBlock(block: Block, v: Validator) returns (isOrphan: bool, err: Option<ChainError>)
      requires Valid() && Extends(v)
      modifies this`bestNode, index, store, orphanManage
      ensures Valid()
      ensures ChainModel.ProcessBlock(old(State()), block, v) == (State(), Outcome(isOrphan, err))
    {
      var h := block.header.hash;
      if h in index.index || h in orphanManage.pool.orphans {
        return h in orphanManage.pool.orphans, None;
      }
      if block.header.previous !in index.index {
        orphanManage.Add(block);
        return true, None;
      }
      ghost var start := State();
      var ok := SaveBlock(block, v);
      if !ok {
        return false, Some(BadBlock);
      }
      SaveBlockShape(start, block, v);
      ghost var saved := State();
      var bestBlock := SaveSubBlock(block, v);
      SaveSubBlockShape(saved, block, v);
      ProcessBlockCases(start, block, v);
      var node := index.index[bestBlock.header.hash];
      assert SavedBest(start, block, v) == (State(), node);
      err := UpdateBest(node);
      return false, err;
    }
  }

  // ------------------------------------------------ the two walks to the fork

  /** Going up from `node`, `acc` holds the nodes passed; none of them is on the main chain. */
  predicate Climbed(best: BlockNode, node: BlockNode, n: BlockNode, acc: seq<BlockNode>) {
    && n.height < |Path(node)| && Path(node)[n.height] == n
    && 1 <= CommonPrefix(Path(best), Path(node)) <= n.height + 1
    && acc == Path(node)[n.height + 1..]
  }

  lemma ClimbStart(best: BlockNode, node: BlockNode)
    requires WellFormed(node) && Path(node)[0] == Path(best)[0]
    ensures Climbed(best, node, node, [])
  {
    PathByHeight(node);
    CommonPrefixIsMeeting(best, node, 0);
  }

  lemma ClimbStep(best: BlockNode, node: BlockNode, n: BlockNode, acc: seq<BlockNode>)
    requires WellFormed(node) && Climbed(best, node, n, acc)
    requires n.height < |Path(best)| ==> Path(best)[n.height] != n
    ensures n.parent.Some? && n.parent.value.height < n.height
    ensures Climbed(best, node, n.parent.value, [n] + acc)
  {
    hide Path, WellFormed, CommonPrefix;
    var h := n.height;
    if h < |Path(best)| {
      CommonPrefixIsMeeting(best, node, h);
    }
    PathByHeight(node);
    PathParents(node, h);
    FirstOfRest(Path(node), h);
  }

  lemma FirstOfRest(s: seq<BlockNode>, h: nat)
    requires h < |s|
    ensures s[h..] == [s[h]] + s[h + 1..]
  {
  }

  lemma ClimbEnd(best: BlockNode, node: BlockNode, n: BlockNode, acc: seq<BlockNode>)
    requires WellFormed(best) && Climbed(best, node, n, acc)
    requires n.height < |Path(best)| && Path(best)[n.height] == n
    ensures CommonPrefix(Path(best), Path(node)) == n.height + 1
    ensures acc == AttachNodes(best, node)
    ensures Descended(best, best, n, [])
  {
    CommonPrefixIsMeeting(best, node, n.height);
    PathByHeight(best);
  }

  /** Going down from `best` towards `stop`, `acc` holds the nodes passed. */
  predicate Descended(best: BlockNode, n: BlockNode, stop: BlockNode, acc: seq<BlockNode>) {
    && stop.height < |Path(best)| && Path(best)[stop.height] == stop
    && stop.height <= n.height < |Path(best)| && Path(best)[n.height] == n
    && acc == Reverse(Path(best)[n.height + 1..])
  }

  lemma DescendStep(best: BlockNode, n: BlockNode, stop: BlockNode, acc: seq<BlockNode>)
    requires WellFormed(best) && Descended(best, n, stop, acc) && n != stop
    ensures n.parent.Some? && n.parent.value.height < n.height
    ensures Descended(best, n.parent.value, stop, acc + [n])
  {
    hide Path, WellFormed, Reverse;
    var h := n.height;
    PathByHeight(best);
    PathParents(best, h);
    assert n.parent.value == Path(best)[h - 1] && n.parent.value.height == h - 1;
    ReverseSlice(Path(best), h);
  }

  lemma ReverseSlice(p: seq<BlockNode>, h: nat)
    requires h < |p|
    ensures Reverse(p[h..]) == Reverse(p[h + 1..]) + [p[h]]
  {
  }

  // ------------------------------------------------------- runs of one view

  lemma RunOne(stored: Entries, step: Step)
    ensures RunAndSave(stored, [step]) ==
      match RunStep(Load(stored, map[], step.saved.block.transactions), step)
      case Ok(es) => Ok(Save(stored, es))
      case Err(e) => Err(e)
  {
    assert [step][..0] == [];
    assert OneView(stored, map[], [step][..0]) == Ok(map[]);
  }

  lemma OneViewSnoc(stored: Entries, es: Entries, steps: seq<Step>, i: nat)
    requires i < |steps| && OneView(stored, es, steps[..i]).Ok?
    ensures OneView(stored, es, steps[..i + 1]) ==
            RunStep(Load(stored, OneView(stored, es, steps[..i]).value, steps[i].saved.block.transactions), steps[i])
  {
    assert steps[..i + 1][..i] == steps[..i];
  }

  lemma {:induction false} OneViewFails(stored: Entries, es: Entries, steps: seq<Step>, m: nat)
    requires m <= |steps| && OneView(stored, es, steps[..m]).Err?
    ensures OneView(stored, es, steps) == OneView(stored, es, steps[..m])
  {
    if m < |steps| {
      var init := steps[..|steps| - 1];
      assert init[..m] == steps[..m];
      OneViewFails(stored, es, init, m);
    } else {
      assert steps[..m] == steps;
    }
  }

  lemma {:induction false} OneViewConcat(stored: Entries, es: Entries, a: seq<Step>, b: seq<Step>)
    ensures OneView(stored, es, a + b) ==
      match OneView(stored, es, a) case Err(e) => Err(e) case Ok(mid) => OneView(stored, mid, b)
  {
    if b == [] {
      assert a + b == a;
    } else {
      OneViewConcat(stored, es, a, b[..|b| - 1]);
      assert (a + b)[..|a + b| - 1] == a + b[..|b| - 1];
    }
  }
}
