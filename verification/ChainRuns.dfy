// Theorems about whole runs of processBlock: exactly when the stored outputs mean
// the same as replaying the main chain from nothing, that the tip only moves up,
// and that the index never forgets a block.
module ChainRuns {
  import opened Wrappers
  import opened Bc
  import opened UtxoView
  import opened Ledger
  import opened UtxoStore
  import opened ViewRuns
  import opened BlockTree
  import opened ChainModel
  import opened Rewind

  /** All spends and creations on a chain of stored blocks. */
  function History(blocks: map<Hash, Saved>, nodes: seq<BlockNode>): Option<seq<Action>>
    requires HasBlocks(blocks, nodes)
  {
    StepsActions(Attaches(blocks, nodes))
  }

  /** Replaying a chain from nothing gives exactly these coins. */
  predicate Replays(blocks: map<Hash, Saved>, nodes: seq<BlockNode>, coins: Coins)
    requires HasBlocks(blocks, nodes)
  {
    History(blocks, nodes).Some? && DoAll(map[], History(blocks, nodes).value) == Some(coins)
  }

  /** No output id is created twice along the chain. */
  predicate UniqueIds(blocks: map<Hash, Saved>, nodes: seq<BlockNode>)
    requires HasBlocks(blocks, nodes)
  {
    History(blocks, nodes).Some? ==> CreatedOnce(History(blocks, nodes).value)
  }

  /** The invariant of the stored outputs. */
  predicate Faithful(c: ChainState)
    requires HasBlocks(c.tree.blocks, Path(c.best))
  {
    Replays(c.tree.blocks, Path(c.best), Meaning(c.utxos))
  }

  predicate UniqueAt(t: Tree, n: BlockNode) {
    HasBlocks(t.blocks, Path(n)) && UniqueIds(t.blocks, Path(n))
  }

  // ----------------------------------------------------- facts about histories

  lemma {:induction false} SpendActionsShape(height: nat, tx: Tx, statusFail: bool, ids: seq<Hash>)
    requires SpendActions(height, tx, statusFail, ids).Some?
    ensures OnlySpendsAndCreates(SpendActions(height, tx, statusFail, ids).value)
  {
    if ids != [] {
      SpendActionsShape(height, tx, statusFail, ids[..|ids| - 1]);
    }
  }

  lemma {:induction false} CreateActionsShape(coin: Coin, tx: Tx, statusFail: bool, ids: seq<Hash>)
    ensures OnlySpendsAndCreates(CreateActions(coin, tx, statusFail, ids))
  {
    if ids != [] {
      CreateActionsShape(coin, tx, statusFail, ids[..|ids| - 1]);
    }
  }

  lemma {:induction false} TxsActionsShape(block: Block, status: TxStatus, n: nat)
    requires n <= |block.transactions| && TxsActions(block, status, n).Some?
    ensures OnlySpendsAndCreates(TxsActions(block, status, n).value)
  {
    if n > 0 {
      TxsActionsShape(block, status, n - 1);
      var tx, fail := block.transactions[n - 1], status[n - 1];
      SpendActionsShape(block.header.height, tx, fail, tx.spentOutputIds);
      CreateActionsShape(OutputCoin(block, tx), tx, fail, tx.resultIds);
    }
  }

  lemma JoinAssociative(x: Option<seq<Action>>, y: Option<seq<Action>>, z: Option<seq<Action>>)
    ensures Join(Join(x, y), z) == Join(x, Join(y, z))
  {
    if x.Some? && y.Some? && z.Some? {
      assert (x.value + y.value) + z.value == x.value + (y.value + z.value);
    }
  }

  lemma {:induction false} StepsActionsConcat(a: seq<Step>, b: seq<Step>)
    ensures StepsActions(a + b) == Join(StepsActions(a), StepsActions(b))
  {
    if b == [] {
      assert a + b == a;
      if StepsActions(a).Some? {
        assert StepsActions(a).value + [] == StepsActions(a).value;
      }
    } else {
      StepsActionsConcat(a, b[..|b| - 1]);
      assert (a + b)[..|a + b| - 1] == a + b[..|b| - 1];
      JoinAssociative(StepsActions(a), StepsActions(b[..|b| - 1]), StepActions(b[|b| - 1]));
    }
  }

  lemma HistoryConcat(blocks: map<Hash, Saved>, a: seq<BlockNode>, b: seq<BlockNode>)
    requires HasBlocks(blocks, a) && HasBlocks(blocks, b)
    ensures HasBlocks(blocks, a + b)
    ensures History(blocks, a + b) == Join(History(blocks, a), History(blocks, b))
  {
    assert Attaches(blocks, a + b) == Attaches(blocks, a) + Attaches(blocks, b);
    StepsActionsConcat(Attaches(blocks, a), Attaches(blocks, b));
  }

  lemma HistoryOne(blocks: map<Hash, Saved>, n: BlockNode)
    requires n.hash in blocks
    ensures History(blocks, [n]) == StepActions(Attach(blocks[n.hash]))
  {
    var step := Attach(blocks[n.hash]);
    assert Attaches(blocks, [n]) == [step];
    assert [step][..0] == [];
    assert StepsActions([step][..0]) == Some([]);
    if StepActions(step).Some? {
      assert [] + StepActions(step).value == StepActions(step).value;
    }
  }

  lemma {:induction false} HistoryShape(blocks: map<Hash, Saved>, nodes: seq<BlockNode>)
    requires HasBlocks(blocks, nodes) && History(blocks, nodes).Some?
    ensures OnlySpendsAndCreates(History(blocks, nodes).value)
  {
    if nodes != [] {
      var init, n := nodes[..|nodes| - 1], nodes[|nodes| - 1];
      assert nodes == init + [n];
      HistoryConcat(blocks, init, [n]);
      HistoryOne(blocks, n);
      HistoryShape(blocks, init);
      var s := blocks[n.hash];
      TxsActionsShape(s.block, s.status, |s.block.transactions|);
    }
  }

  lemma BlockShape(s: Saved)
    requires StepActions(Attach(s)).Some?
    ensures OnlySpendsAndCreates(StepActions(Attach(s)).value)
  {
    TxsActionsShape(s.block, s.status, |s.block.transactions|);
  }

  // ------------------------------------------------------- histories block by block

  /** The actions of the blocks of a chain, block by block. */
  function BlockActs(blocks: map<Hash, Saved>, nodes: seq<BlockNode>): (r: seq<seq<Action>>)
    requires HasBlocks(blocks, nodes)
    ensures |r| == |nodes|
  {
    seq(|nodes|, k requires 0 <= k < |nodes| =>
      var acts := StepActions(Attach(blocks[nodes[k].hash])); if acts.Some? then acts.value else [])
  }

  lemma {:induction false} HistoryIsFlat(blocks: map<Hash, Saved>, nodes: seq<BlockNode>)
    requires HasBlocks(blocks, nodes) && History(blocks, nodes).Some?
    ensures History(blocks, nodes).value == Flat(BlockActs(blocks, nodes))
  {
    hide History, StepActions, BlockActs;
    if nodes == [] {
      NothingIsFlat(blocks);
    } else {
      var init, n := nodes[..|nodes| - 1], nodes[|nodes| - 1];
      assert nodes == init + [n];
      HistoryConcat(blocks, init, [n]);
      HistoryOne(blocks, n);
      HistoryIsFlat(blocks, init);
      BlockActsSnoc(blocks, nodes);
    }
  }

  lemma NothingIsFlat(blocks: map<Hash, Saved>)
    ensures History(blocks, []) == Some([]) && BlockActs(blocks, []) == []
  {
  }

  lemma ReverseSnoc(nodes: seq<BlockNode>)
    requires nodes != []
    ensures Reverse(nodes) == [nodes[|nodes| - 1]] + Reverse(nodes[..|nodes| - 1])
  {
  }

  lemma {:induction false} DetachesAreUndo(blocks: map<Hash, Saved>, nodes: seq<BlockNode>)
    requires HasBlocks(blocks, nodes) && History(blocks, nodes).Some? && HasBlocks(blocks, Reverse(nodes))
    ensures StepsActions(Detaches(blocks, Reverse(nodes))) == Some(Undo(BlockActs(blocks, nodes)))
  {
    if nodes != [] {
      var init, n := nodes[..|nodes| - 1], nodes[|nodes| - 1];
      assert nodes == init + [n];
      HistoryConcat(blocks, init, [n]);
      HistoryOne(blocks, n);
      ReverseSnoc(nodes);
      var back := Reverse(init);
      assert forall k :: 0 <= k < |back| ==> back[k] == Reverse(nodes)[k + 1];
      DetachesAreUndo(blocks, init);
      UndoSnoc(blocks, nodes, back);
    }
  }

  lemma UndoSnoc(blocks: map<Hash, Saved>, nodes: seq<BlockNode>, back: seq<BlockNode>)
    requires nodes != [] && HasBlocks(blocks, nodes) && HasBlocks(blocks, back)
    requires HasBlocks(blocks, [nodes[|nodes| - 1]] + back) && HasBlocks(blocks, nodes[..|nodes| - 1])
    requires StepActions(Attach(blocks[nodes[|nodes| - 1].hash])).Some?
    requires StepsActions(Detaches(blocks, back)) == Some(Undo(BlockActs(blocks, nodes[..|nodes| - 1])))
    ensures StepsActions(Detaches(blocks, [nodes[|nodes| - 1]] + back)) == Some(Undo(BlockActs(blocks, nodes)))
  {
    hide StepsActions, StepActions;
    var init, n := nodes[..|nodes| - 1], nodes[|nodes| - 1];
    var step := Detach(blocks[n.hash]);
    DetachesCons(blocks, n, back);
    StepsActionsConcat([step], Detaches(blocks, back));
    OneStep(step);
    DetachInverts(blocks[n.hash]);
    BlockActsSnoc(blocks, nodes);
  }

  lemma DetachesCons(blocks: map<Hash, Saved>, n: BlockNode, back: seq<BlockNode>)
    requires n.hash in blocks && HasBlocks(blocks, back) && HasBlocks(blocks, [n] + back)
    ensures Detaches(blocks, [n] + back) == [Detach(blocks[n.hash])] + Detaches(blocks, back)
  {
  }

  lemma DetachInverts(s: Saved)
    requires StepActions(Attach(s)).Some?
    ensures StepActions(Detach(s)) == Some(InvertAll(StepActions(Attach(s)).value))
  {
  }

  lemma BlockActsSnoc(blocks: map<Hash, Saved>, nodes: seq<BlockNode>)
    requires nodes != [] && HasBlocks(blocks, nodes) && HasBlocks(blocks, nodes[..|nodes| - 1])
    requires StepActions(Attach(blocks[nodes[|nodes| - 1].hash])).Some?
    ensures BlockActs(blocks, nodes)[..|nodes| - 1] == BlockActs(blocks, nodes[..|nodes| - 1])
    ensures BlockActs(blocks, nodes)[|nodes| - 1] == StepActions(Attach(blocks[nodes[|nodes| - 1].hash])).value
  {
  }

  /** The history of a chain cut at height k. */
  lemma CutHistory(blocks: map<Hash, Saved>, nodes: seq<BlockNode>, k: nat)
    requires k <= |nodes| && HasBlocks(blocks, nodes) && History(blocks, nodes).Some?
    ensures HasBlocks(blocks, nodes[..k]) && HasBlocks(blocks, nodes[k..])
    ensures History(blocks, nodes[..k]).Some? && History(blocks, nodes[k..]).Some?
    ensures History(blocks, nodes).value ==
            History(blocks, nodes[..k]).value + Flat(BlockActs(blocks, nodes[k..]))
  {
    assert nodes == nodes[..k] + nodes[k..];
    HistoryConcat(blocks, nodes[..k], nodes[k..]);
    HistoryIsFlat(blocks, nodes[k..]);
  }

  /** An output that a block of the chain creates and spends. */
  predicate Passes(blocks: map<Hash, Saved>, nodes: seq<BlockNode>, id: Hash)
    requires HasBlocks(blocks, nodes)
  {
    PassesThroughSome(BlockActs(blocks, nodes), id)
  }

  /** Detaching a main chain block by block down to any height leaves the replay of what remains exactly if no detached
      block spends an output that it creates. */
  lemma UnwindExactly(blocks: map<Hash, Saved>, nodes: seq<BlockNode>, coins: Coins, k: nat)
    requires k <= |nodes| && HasBlocks(blocks, nodes) && UniqueIds(blocks, nodes) && Replays(blocks, nodes, coins)
    requires HasBlocks(blocks, nodes[k..]) && HasBlocks(blocks, Reverse(nodes[k..]))
    ensures var acts := StepsActions(Detaches(blocks, Reverse(nodes[k..])));
            && acts.Some? && DoAll(coins, acts.value).Some?
            && (Replays(blocks, nodes[..k], DoAll(coins, acts.value).value) <==>
                forall id :: !Passes(blocks, nodes[k..], id))
  {
    hide History, HasBlocks, StepsActions, Detaches, DoAll, OnlySpendsAndCreates, CreatedOnce, Undo, Flat, BlockActs;
    CutHistory(blocks, nodes, k);
    DetachesAreUndo(blocks, nodes[k..]);
    HistoryShape(blocks, nodes);
    RewindExactly(History(blocks, nodes[..k]).value, BlockActs(blocks, nodes[k..]), coins);
    assert forall id :: Passes(blocks, nodes[k..], id) <==> PassesThroughSome(BlockActs(blocks, nodes[k..]), id);
  }

  /** Every output that a block of the first chain creates and spends is created by the second chain, and not spent
      before that. */
  ghost predicate Restored(blocks: map<Hash, Saved>, down: seq<BlockNode>, up: seq<BlockNode>)
    requires HasBlocks(blocks, down) && HasBlocks(blocks, up)
  {
    History(blocks, up).Some? ==>
      forall id :: Passes(blocks, down, id) ==> CreatesFirst(History(blocks, up).value, id)
  }

  // --------------------------------------------------- one step keeps the invariant

  lemma ConnectKeepsFaithful(c: ChainState, node: BlockNode)
    requires HasBlocks(c.tree.blocks, Path(c.best)) && Faithful(c)
    requires HasBlocks(c.tree.blocks, Path(node)) && node.parent == Some(c.best)
    ensures Faithful(MoveTo(c, node, Attaches(c.tree.blocks, [node])).0)
  {
    var blocks, coins, steps := c.tree.blocks, Meaning(c.utxos), Attaches(c.tree.blocks, [node]);
    RunAndSaveSimulates(c.utxos, steps);
    if RunAndSave(c.utxos, steps).Ok? {
      HistoryConcat(blocks, Path(c.best), [node]);
      DoAllConcat(map[], History(blocks, Path(c.best)).value, History(blocks, [node]).value);
    }
  }

  /** Detaching one chain down to a common beginning and attaching the rest of another, if it is not refused, leads from
      a replay of the first to a replay of the second exactly if what passes through a detached block is restored. */
  lemma SwitchChainsExactly(blocks: map<Hash, Saved>, p: seq<BlockNode>, q: seq<BlockNode>, k: nat, coins: Coins,
                            end: Coins)
    requires k <= |p| && k <= |q| && p[..k] == q[..k]
    requires HasBlocks(blocks, p) && HasBlocks(blocks, q)
    requires HasBlocks(blocks, p[k..]) && HasBlocks(blocks, Reverse(p[k..])) && HasBlocks(blocks, q[k..])
    requires UniqueIds(blocks, p) && Replays(blocks, p, coins)
    requires var acts := StepsActions(Detaches(blocks, Reverse(p[k..])) + Attaches(blocks, q[k..]));
             acts.Some? && DoAll(coins, acts.value) == Some(end)
    ensures Replays(blocks, q, end) <==> Restored(blocks, p[k..], q[k..])
  {
    CutHistory(blocks, p, k);
    DetachesAreUndo(blocks, p[k..]);
    StepsActionsConcat(Detaches(blocks, Reverse(p[k..])), Attaches(blocks, q[k..]));
    HistoryShape(blocks, p);
    HistoryShape(blocks, q[k..]);
    assert q == p[..k] + q[k..];
    HistoryConcat(blocks, p[..k], q[k..]);
    SwitchExactly(History(blocks, p[..k]).value, BlockActs(blocks, p[k..]), History(blocks, q[k..]).value, coins, end);
  }

  lemma SlicesHaveBlocks(blocks: map<Hash, Saved>, p: seq<BlockNode>, k: nat)
    requires k <= |p| && HasBlocks(blocks, p)
    ensures HasBlocks(blocks, p[k..]) && HasBlocks(blocks, Reverse(p[k..]))
  {
  }

  /** The blocks that moving from best to node detaches are made up for by those it attaches. */
  ghost predicate Restorable(blocks: map<Hash, Saved>, best: BlockNode, node: BlockNode)
    requires HasBlocks(blocks, Path(node)) && HasBlocks(blocks, Path(best))
  {
    var k := CommonPrefix(Path(best), Path(node));
    SlicesHaveBlocks(blocks, Path(best), k);
    SlicesHaveBlocks(blocks, Path(node), k);
    Restored(blocks, Path(best)[k..], Path(node)[k..])
  }

  lemma ReorganizeFaithfulExactly(c: ChainState, node: BlockNode)
    requires HasBlocks(c.tree.blocks, Path(c.best)) && Faithful(c) && UniqueAt(c.tree, c.best)
    requires HasBlocks(c.tree.blocks, Path(node))
    requires MoveTo(c, node, MoveSteps(c.tree.blocks, c.best, node)).1.None?
    ensures Faithful(MoveTo(c, node, MoveSteps(c.tree.blocks, c.best, node)).0) <==>
            Restorable(c.tree.blocks, c.best, node)
  {
    hide Replays, Restored, History, UniqueIds;
    var blocks, p, q := c.tree.blocks, Path(c.best), Path(node);
    var k := CommonPrefix(p, q);
    SlicesHaveBlocks(blocks, p, k);
    SlicesHaveBlocks(blocks, q, k);
    var steps := Detaches(blocks, Reverse(p[k..])) + Attaches(blocks, q[k..]);
    assert MoveSteps(blocks, c.best, node) == steps;
    RunAndSaveSimulates(c.utxos, steps);
    var after := RunAndSave(c.utxos, steps).value;
    SwitchChainsExactly(blocks, p, q, k, Meaning(c.utxos), Meaning(after));
  }

  lemma SameBlocksSameHistory(t: Tree, u: Tree, n: BlockNode)
    requires TreeOk(t) && Holds(t, n) && TreeGrows(t, u)
    ensures HasBlocks(t.blocks, Path(n)) && HasBlocks(u.blocks, Path(n))
    ensures Attaches(t.blocks, Path(n)) == Attaches(u.blocks, Path(n))
  {
    PathIndexed(t, n);
  }

  /** A state whose stored outputs mean the replay of its main chain. */
  predicate Good(c: ChainState) {
    Shape(c) && HasBlocks(c.tree.blocks, Path(c.best)) && Faithful(c)
  }

  /** The block is new, its parent is known and it is valid. */
  predicate Proceeds(c: ChainState, b: Block, v: Validator) {
    b.header.hash !in c.tree.index && b.header.hash !in c.pool.orphans && SaveBlock(c, b, v).Some?
  }

  /** The block is new and its parent is not known. */
  predicate BecomesOrphan(c: ChainState, b: Block) {
    b.header.hash !in c.tree.index && b.header.hash !in c.pool.orphans && b.header.previous !in c.tree.index
  }

  lemma ProcessBlockCases(c: ChainState, b: Block, v: Validator)
    requires Shape(c) && Extends(v)
    ensures Proceeds(c, b, v) ==>
              var (c2, node) := SavedBest(c, b, v);
              ProcessBlock(c, b, v) == (UpdateBest(c2, node).0, Outcome(false, UpdateBest(c2, node).1))
    ensures BecomesOrphan(c, b) ==> ProcessBlock(c, b, v).0 == c.(pool := AddOrphan(c.pool, b))
    ensures BecomesOrphan(c, b) ==> ProcessBlock(c, b, v).1.err.None?
    ensures !Proceeds(c, b, v) && !BecomesOrphan(c, b) ==> ProcessBlock(c, b, v).0 == c
  {
  }

  lemma UpdateBestShape(c: ChainState, node: BlockNode)
    requires Shape(c) && Holds(c.tree, node)
    requires HasBlocks(c.tree.blocks, Path(node)) && HasBlocks(c.tree.blocks, Path(c.best))
    ensures Shape(UpdateBest(c, node).0) && UpdateBest(c, node).0.tree == c.tree
  {
    hide TreeOk, PoolOk, HasBlocks, Path, SavedBest;
  }

  /** Processing any block keeps the shape of the state, and only adds to the tree. */
  lemma ProcessBlockShape(c: ChainState, b: Block, v: Validator)
    requires Shape(c) && Extends(v)
    ensures Shape(ProcessBlock(c, b, v).0) && TreeGrows(c.tree, ProcessBlock(c, b, v).0.tree)
  {
    ProcessBlockCases(c, b, v);
    if Proceeds(c, b, v) {
      var (c2, node) := SavedBest(c, b, v);
      UpdateBestShape(c2, node);
    }
  }

  /** The fork choice leaves the main chain for another branch, and the move is not refused. */
  predicate Reorganises(c: ChainState, node: BlockNode)
    requires HasBlocks(c.tree.blocks, Path(node)) && HasBlocks(c.tree.blocks, Path(c.best))
  {
    && node.parent != Some(c.best) && node.height > c.best.height && node.workSum >= c.best.workSum
    && UpdateBest(c, node).1.None?
  }

  lemma UpdateBestFaithfulExactly(c: ChainState, node: BlockNode)
    requires HasBlocks(c.tree.blocks, Path(node)) && HasBlocks(c.tree.blocks, Path(c.best))
    requires Faithful(c) && (Reorganises(c, node) ==> UniqueAt(c.tree, c.best))
    ensures HasBlocks(c.tree.blocks, Path(UpdateBest(c, node).0.best))
    ensures Faithful(UpdateBest(c, node).0) <==> (Reorganises(c, node) ==> Restorable(c.tree.blocks, c.best, node))
  {
    hide Faithful, Restorable, UniqueAt, MoveSteps;
    if node.parent == Some(c.best) {
      ConnectKeepsFaithful(c, node);
    } else if Reorganises(c, node) {
      ReorganizeFaithfulExactly(c, node);
    }
  }

  /** Processing the block makes the chain reorganise. */
  ghost predicate CausesReorganisation(c: ChainState, b: Block, v: Validator)
    requires Shape(c) && Extends(v)
  {
    Proceeds(c, b, v) && var (c2, node) := SavedBest(c, b, v); Reorganises(c2, node)
  }

  /** If processing the block makes the chain reorganise, whatever passes through a block that is detached is created
      first by the blocks that are attached. */
  ghost predicate Restores(c: ChainState, b: Block, v: Validator)
    requires Shape(c) && Extends(v)
  {
    CausesReorganisation(c, b, v) ==>
      var (c2, node) := SavedBest(c, b, v); Restorable(c2.tree.blocks, c2.best, node)
  }

  /** A call keeps the stored outputs faithful if it connects the block, keeps it for later or refuses it; if it
      reorganises the chain it does so exactly if nothing is left behind. */
  lemma ProcessBlockGoodExactly(c: ChainState, b: Block, v: Validator)
    requires Good(c) && Extends(v) && (CausesReorganisation(c, b, v) ==> UniqueAt(c.tree, c.best))
    ensures Good(ProcessBlock(c, b, v).0) <==> Restores(c, b, v)
  {
    hide Restorable, UniqueIds, History;
    ProcessBlockCases(c, b, v);
    ProcessBlockShape(c, b, v);
    if Proceeds(c, b, v) {
      var (c2, node) := SavedBest(c, b, v);
      UpdateBestShape(c2, node);
      SameBlocksSameHistory(c.tree, c2.tree, c.best);
      SameHistory(c.tree.blocks, c2.tree.blocks, Path(c.best));
      UpdateBestFaithfulExactly(c2, node);
    }
  }

  lemma SameHistory(blocks: map<Hash, Saved>, more: map<Hash, Saved>, nodes: seq<BlockNode>)
    requires HasBlocks(blocks, nodes) && HasBlocks(more, nodes) && Attaches(blocks, nodes) == Attaches(more, nodes)
    ensures History(blocks, nodes) == History(more, nodes) && (UniqueIds(blocks, nodes) <==> UniqueIds(more, nodes))
  {
  }

  // ------------------------------------------------------------- whole runs

  /** The blocks handed to processBlock, each with the validator of that moment. */
  datatype Input = Input(block: Block, validator: Validator)

  ghost predicate ValidInputs(ins: seq<Input>) {
    forall k :: 0 <= k < |ins| ==> Extends(ins[k].validator)
  }

  ghost function Run(c: ChainState, ins: seq<Input>): (d: ChainState)
    requires Shape(c) && ValidInputs(ins)
    ensures Shape(d)
  {
    if ins == [] then c
    else
      var c' := Run(c, ins[..|ins| - 1]);
      ProcessBlockShape(c', ins[|ins| - 1].block, ins[|ins| - 1].validator);
      ProcessBlock(c', ins[|ins| - 1].block, ins[|ins| - 1].validator).0
  }

  /** The state after the first n blocks. */
  ghost function After(c: ChainState, ins: seq<Input>, n: nat): (d: ChainState)
    requires Shape(c) && ValidInputs(ins) && n <= |ins|
    ensures Shape(d)
  {
    Run(c, ins[..n])
  }

  lemma AfterNext(c: ChainState, ins: seq<Input>, n: nat)
    requires Shape(c) && ValidInputs(ins) && n < |ins|
    ensures After(c, ins, n + 1) == ProcessBlock(After(c, ins, n), ins[n].block, ins[n].validator).0
  {
    assert ins[..n + 1][..n] == ins[..n];
  }

  /** The n-th call of the run makes up for what it detaches. */
  ghost predicate RestoresAt(c: ChainState, ins: seq<Input>, n: nat)
    requires Shape(c) && ValidInputs(ins) && n < |ins|
  {
    Restores(After(c, ins, n), ins[n].block, ins[n].validator)
  }

  /** If the n-th call reorganises, no output id is created twice on the chain that it leaves. */
  ghost predicate LeavesUnique(c: ChainState, ins: seq<Input>, n: nat)
    requires Shape(c) && ValidInputs(ins) && n < |ins|
  {
    var d := After(c, ins, n);
    CausesReorganisation(d, ins[n].block, ins[n].validator) ==> UniqueAt(d.tree, d.best)
  }

  /** Along any run, of appends, refused connects and reorganisations in any order, the stored outputs always mean
      exactly the replay of the main chain from nothing, if and only if every reorganisation makes up for the outputs
      that pass through the blocks it detaches. */
  lemma {:induction false} RunGoodExactly(c: ChainState, ins: seq<Input>, n: nat)
    requires Good(c) && ValidInputs(ins) && n <= |ins|
    requires forall k :: 0 <= k < n ==> LeavesUnique(c, ins, k)
    ensures (forall k :: 0 <= k <= n ==> Good(After(c, ins, k))) <==> forall k :: 0 <= k < n ==> RestoresAt(c, ins, k)
  {
    hide Faithful, Shape, LeavesUnique, RestoresAt, After, HasBlocks;
    AfterNone(c, ins);
    if n > 0 {
      RunGoodExactly(c, ins, n - 1);
      if Good(After(c, ins, n - 1)) {
        StepGoodExactly(c, ins, n - 1);
      }
    }
  }

  lemma AfterNone(c: ChainState, ins: seq<Input>)
    requires Shape(c) && ValidInputs(ins)
    ensures After(c, ins, 0) == c
  {
  }

  lemma StepGoodExactly(c: ChainState, ins: seq<Input>, n: nat)
    requires Shape(c) && ValidInputs(ins) && n < |ins| && Good(After(c, ins, n)) && LeavesUnique(c, ins, n)
    ensures Good(After(c, ins, n + 1)) <==> RestoresAt(c, ins, n)
  {
    hide Faithful, Shape, Restores, UniqueAt, CausesReorganisation, HasBlocks, Run;
    AfterNext(c, ins, n);
    ProcessBlockGoodExactly(After(c, ins, n), ins[n].block, ins[n].validator);
  }

  lemma {:induction false} RunGrows(c: ChainState, ins: seq<Input>)
    requires Shape(c) && ValidInputs(ins)
    ensures TreeGrows(c.tree, Run(c, ins).tree)
  {
    if ins != [] {
      var init, last := ins[..|ins| - 1], ins[|ins| - 1];
      ProcessBlockShape(Run(c, init), last.block, last.validator);
      RunGrows(c, init);
      TreeGrowsTransitive(c.tree, Run(c, init).tree, Run(c, ins).tree);
    }
  }

  lemma TreeGrowsTransitive(t: Tree, u: Tree, w: Tree)
    requires TreeOk(t) && TreeGrows(t, u) && TreeGrows(u, w)
    ensures TreeGrows(t, w)
  {
    forall h | h in t.index
      ensures h in w.index && w.index[h] == t.index[h]
      ensures h in t.blocks ==> h in w.blocks && w.blocks[h] == t.blocks[h]
    {
      assert u.index[h] == t.index[h];
      assert Indexed(t, h);
    }
  }

  /** Either nothing observable moved, or the tip rose; work never falls. */
  predicate TipRises(c: ChainState, d: ChainState) {
    && ((d.best == c.best && d.utxos == c.utxos) || d.best.height > c.best.height)
    && d.best.workSum >= c.best.workSum
  }

  lemma UpdateBestTip(c: ChainState, node: BlockNode)
    requires WellFormed(node)
    requires HasBlocks(c.tree.blocks, Path(node)) && HasBlocks(c.tree.blocks, Path(c.best))
    ensures TipRises(c, UpdateBest(c, node).0)
    ensures UpdateBest(c, node).1.Some? ==> UpdateBest(c, node).0 == c
  {
  }

  /** One call never lowers the tip: it either leaves tip and stored outputs alone, or moves to a strictly
      higher tip with at least as much work; when it reports an error it moved nothing. */
  lemma ProcessBlockTip(c: ChainState, b: Block, v: Validator)
    requires Shape(c) && Extends(v)
    ensures TipRises(c, ProcessBlock(c, b, v).0)
    ensures ProcessBlock(c, b, v).1.err.Some? ==>
              ProcessBlock(c, b, v).0.best == c.best && ProcessBlock(c, b, v).0.utxos == c.utxos
  {
    ProcessBlockCases(c, b, v);
    if Proceeds(c, b, v) {
      var (c2, node) := SavedBest(c, b, v);
      assert Indexed(c2.tree, node.hash);
      UpdateBestTip(c2, node);
    }
  }

  lemma {:induction false} RunTip(c: ChainState, ins: seq<Input>)
    requires Shape(c) && ValidInputs(ins)
    ensures TipRises(c, Run(c, ins))
  {
    if ins != [] {
      RunTip(c, ins[..|ins| - 1]);
      ProcessBlockTip(Run(c, ins[..|ins| - 1]), ins[|ins| - 1].block, ins[|ins| - 1].validator);
    }
  }

  // ------------------------------------------- what the stored outputs promise

  predicate Spendable(es: Entries, id: Hash) {
    id in es && !es[id].spent
  }

  /** The state of an initialised chain: only the genesis block, applied to an empty store. */
  predicate Initial(c: ChainState, genesis: Saved) {
    && genesis.block.header.height == 0
    && Some(c.best) == NewBlockNode(genesis.block.header, None)
    && c.tree == Tree(c.best, map[c.best.hash := c.best], map[c.best.hash := genesis])
    && RunAndSave(map[], [Attach(genesis)]) == Ok(c.utxos)
    && c.pool == Pool(map[], map[])
  }

  lemma InitialIsGood(c: ChainState, genesis: Saved)
    requires Initial(c, genesis)
    ensures Good(c)
  {
    RunAndSaveSimulates(map[], [Attach(genesis)]);
    assert Attaches(c.tree.blocks, [c.best]) == [Attach(genesis)];
    assert Path(c.best) == [c.best];
    assert Indexed(c.tree, c.best.hash);
    assert Meaning(map[]) == map[];
  }

  lemma SameActionIds(acts: seq<Action>, id: Hash)
    ensures forall i :: 0 <= i < |On(acts, id)| ==> On(acts, id)[i].id == id && On(acts, id)[i] in acts
  {
    OnIds(acts, id);
    assert forall i :: 0 <= i < |On(acts, id)| ==> On(acts, id)[i] in On(acts, id);
  }

  lemma MeaningSpendable(es: Entries, id: Hash)
    ensures Spendable(es, id) <==>
            var s := Get(Meaning(es), id); s == Some(Plain) || (s.Some? && s.value.Coinbase? && !s.value.spent)
  {
  }

  /** In a good state, an output can be spent now exactly when the main chain created it and never spent it. */
  lemma SpendableExactly(c: ChainState, id: Hash)
    requires Good(c) && UniqueAt(c.tree, c.best)
    ensures var acts := History(c.tree.blocks, Path(c.best)).value;
            Spendable(c.utxos, id) <==> Creates(acts, id) && !Spends(acts, id)
  {
    var acts := History(c.tree.blocks, Path(c.best)).value;
    var own := On(acts, id);
    HistoryShape(c.tree.blocks, Path(c.best));
    DoAllPointwise(map[], acts);
    OnIds(acts, id);
    OnCreatedOnce(acts, id);
    SameActionIds(acts, id);
    CreatedUnspent(c.tree.blocks, Path(c.best));
    LivesOfAnOutput(own);
    MeaningSpendable(c.utxos, id);
    assert Creates(acts, id) <==> own != [] by {
      if own != [] {
        assert own[0] in own;
      }
    }
    assert Spends(acts, id) <==> |own| == 2 by {
      if |own| == 2 {
        assert own[1] in own;
      }
    }
  }

  /** A freshly created output is unspent. */
  predicate FreshCoins(acts: seq<Action>) {
    forall a :: a in acts && a.Create? && a.coin.Coinbase? ==> !a.coin.spent
  }

  lemma {:induction false} CreateActionsFresh(coin: Coin, tx: Tx, statusFail: bool, ids: seq<Hash>)
    requires coin.Coinbase? ==> !coin.spent
    ensures FreshCoins(CreateActions(coin, tx, statusFail, ids))
  {
    if ids != [] {
      CreateActionsFresh(coin, tx, statusFail, ids[..|ids| - 1]);
    }
  }

  lemma {:induction false} SpendActionsFresh(height: nat, tx: Tx, statusFail: bool, ids: seq<Hash>)
    requires SpendActions(height, tx, statusFail, ids).Some?
    ensures FreshCoins(SpendActions(height, tx, statusFail, ids).value)
  {
    if ids != [] {
      SpendActionsFresh(height, tx, statusFail, ids[..|ids| - 1]);
    }
  }

  lemma {:induction false} TxsActionsFresh(block: Block, status: TxStatus, n: nat)
    requires n <= |block.transactions| && TxsActions(block, status, n).Some?
    ensures FreshCoins(TxsActions(block, status, n).value)
  {
    if n > 0 {
      TxsActionsFresh(block, status, n - 1);
      var tx, fail := block.transactions[n - 1], status[n - 1];
      SpendActionsFresh(block.header.height, tx, fail, tx.spentOutputIds);
      CreateActionsFresh(OutputCoin(block, tx), tx, fail, tx.resultIds);
    }
  }

  lemma {:induction false} CreatedUnspent(blocks: map<Hash, Saved>, nodes: seq<BlockNode>)
    requires HasBlocks(blocks, nodes) && History(blocks, nodes).Some?
    ensures FreshCoins(History(blocks, nodes).value)
  {
    if nodes != [] {
      var init, n := nodes[..|nodes| - 1], nodes[|nodes| - 1];
      assert nodes == init + [n];
      HistoryConcat(blocks, init, [n]);
      HistoryOne(blocks, n);
      CreatedUnspent(blocks, init);
      var s := blocks[n.hash];
      TxsActionsFresh(s.block, s.status, |s.block.transactions|);
    }
  }

  /** Position i of a list is position k of the sublist for its id. */
  lemma {:induction false} OnPosition(acts: seq<Action>, i: nat) returns (k: nat)
    requires i < |acts|
    ensures k < |On(acts, acts[i].id)| && On(acts, acts[i].id)[k] == acts[i]
    ensures k == |On(acts[..i], acts[i].id)|
  {
    var id := acts[i].id;
    assert acts == acts[..i] + acts[i..];
    OnConcat(acts[..i], acts[i..], id);
    OnConcat([acts[i]], acts[i + 1..], id);
    assert acts[i..] == [acts[i]] + acts[i + 1..];
    assert [acts[i]][..0] == [];
    assert On([acts[i]], id) == [acts[i]];
    k := |On(acts[..i], id)|;
  }

  /** No output is spent twice on an accepted clean chain. */
  lemma NoDoubleSpend(acts: seq<Action>, i: nat, j: nat)
    requires OnlySpendsAndCreates(acts) && CreatedOnce(acts) && DoAll(map[], acts).Some?
    requires i < j < |acts| && acts[i].Spend? && acts[j].Spend?
    ensures acts[i].id != acts[j].id
  {
    var id := acts[i].id;
    if acts[j].id == id {
      var k := OnPosition(acts, i);
      var l := OnPosition(acts, j);
      assert acts[..j] == acts[..i] + acts[i..j];
      OnConcat(acts[..i], acts[i..j], id);
      OnIds(acts[i..j], id);
      assert acts[i] == acts[i..j][0];
      assert k < l;
      LifeOnChain(acts, id);
    }
  }

  lemma LifeOnChain(acts: seq<Action>, id: Hash)
    requires OnlySpendsAndCreates(acts) && CreatedOnce(acts) && DoAll(map[], acts).Some?
    ensures var own := On(acts, id);
            && |own| <= 2 && (|own| >= 1 ==> own[0].Create?)
            && (|own| == 2 ==> own[1].Spend? && Act(Some(own[0].coin), own[1]).Some?)
  {
    DoAllPointwise(map[], acts);
    OnIds(acts, id);
    OnCreatedOnce(acts, id);
    SameActionIds(acts, id);
    LivesOfAnOutput(On(acts, id));
  }

  /** Every spend on an accepted clean chain spends an output created before it, and if that is a coinbase
      output, at least ten blocks before. */
  lemma SpendsAreMature(acts: seq<Action>, j: nat) returns (i: nat)
    requires OnlySpendsAndCreates(acts) && CreatedOnce(acts) && DoAll(map[], acts).Some?
    requires j < |acts| && acts[j].Spend?
    ensures i < j && acts[i].Create? && acts[i].id == acts[j].id
    ensures acts[i].coin.Coinbase? ==> acts[i].coin.height + COINBASE_PENDING_BLOCK_NUMBER <= acts[j].height
  {
    var id := acts[j].id;
    var l := OnPosition(acts, j);
    LifeOnChain(acts, id);
    assert l == 1;
    var first := On(acts[..j], id);
    assert acts == acts[..j] + acts[j..];
    OnConcat(acts[..j], acts[j..], id);
    assert first[0] == On(acts, id)[0];
    SameActionIds(acts[..j], id);
    i :| 0 <= i < j && acts[..j][i] == first[0];
  }

  /** The two together, for the main chain of a good state. */
  lemma MainChainSpends(c: ChainState, i: nat, j: nat)
    requires Good(c) && UniqueAt(c.tree, c.best)
    requires var acts := History(c.tree.blocks, Path(c.best)).value;
             i < j < |acts| && acts[i].Spend? && acts[j].Spend?
    ensures var acts := History(c.tree.blocks, Path(c.best)).value; acts[i].id != acts[j].id
  {
    HistoryShape(c.tree.blocks, Path(c.best));
    NoDoubleSpend(History(c.tree.blocks, Path(c.best)).value, i, j);
  }

  lemma MainChainMaturity(c: ChainState, j: nat) returns (i: nat)
    requires Good(c) && UniqueAt(c.tree, c.best)
    requires var acts := History(c.tree.blocks, Path(c.best)).value; j < |acts| && acts[j].Spend?
    ensures var acts := History(c.tree.blocks, Path(c.best)).value;
            && i < j && acts[i].Create? && acts[i].id == acts[j].id
            && (acts[i].coin.Coinbase? ==> acts[i].coin.height + COINBASE_PENDING_BLOCK_NUMBER <= acts[j].height)
  {
    HistoryShape(c.tree.blocks, Path(c.best));
    i := SpendsAreMature(History(c.tree.blocks, Path(c.best)).value, j);
  }

  // ------------------------------------------- when detaching undoes attaching

  /** Attaching a block and then detaching it, each with its own view and save, restores the meaning of the
      stored outputs if and only if the block spends none of the outputs it creates. */
  lemma DetachUndoesAttachExactly(stored: Entries, s: Saved)
    requires RunAndSave(stored, [Attach(s)]).Ok? && BlockActions(s.block, s.status).Some?
    requires var acts := BlockActions(s.block, s.status).value;
             CreatesFresh(Meaning(stored), acts) && CreatedOnce(acts)
    ensures var back := RunAndSave(RunAndSave(stored, [Attach(s)]).value, [Detach(s)]);
            (back.Ok? && Meaning(back.value) == Meaning(stored))
            <==> NoInternalSpend(BlockActions(s.block, s.status).value)
  {
    var acts := BlockActions(s.block, s.status).value;
    var after := RunAndSave(stored, [Attach(s)]).value;
    RunAndSaveSimulates(stored, [Attach(s)]);
    RunAndSaveSimulates(after, [Detach(s)]);
    OneStep(Attach(s));
    OneStep(Detach(s));
    BlockShape(s);
    UndoExactly(Meaning(stored), acts);
  }

  lemma OneStep(step: Step)
    ensures StepsActions([step]) == StepActions(step)
  {
    assert [step][..0] == [];
    assert StepsActions([step][..0]) == Some([]);
    if StepActions(step).Some? {
      assert [] + StepActions(step).value == StepActions(step).value;
    }
  }

  /** A block whose second transaction spends what the first one made, on an empty store. */
  const CHAINED_BLOCK := Block(
    Header(7, 6, 1, 1, 0, 0),
    [Tx(100, map[], [], []),
     Tx(101, map[1 := Output(true)], [], [1]),
     Tx(102, map[1 := Output(true)], [1], [])])

  /** Detaching such a block leaves an output that no chain ever had: it can be spent. */
  lemma ChainedBlockLeavesPhantom()
    ensures var s := Saved(CHAINED_BLOCK, [false, false, false]);
            && RunAndSave(map[], [Attach(s)]).Ok?
            && var after := RunAndSave(map[], [Attach(s)]).value;
            && RunAndSave(after, [Detach(s)]).Ok?
            && !Spendable(after, 1)
            && Spendable(RunAndSave(after, [Detach(s)]).value, 1)
  {
    hide BlockActions, DoAll, Meaning;
    var s := Saved(CHAINED_BLOCK, [false, false, false]);
    ChainedBlockActions();
    OneStep(Attach(s));
    OneStep(Detach(s));
    NoEntries();
    CreateSpendUndo();
    RunAndSaveSimulates(map[], [Attach(s)]);
    var after := RunAndSave(map[], [Attach(s)]).value;
    RunAndSaveSimulates(after, [Detach(s)]);
    MeaningSpendable(after, 1);
    MeaningSpendable(RunAndSave(after, [Detach(s)]).value, 1);
  }

  lemma NoEntries()
    ensures Meaning(map[]) == map[]
  {
  }

  lemma CreateSpendUndo()
    ensures DoAll(map[], [Create(1, Plain), Spend(1, 1)]) == Some(map[])
    ensures DoAll(map[], InvertAll([Create(1, Plain), Spend(1, 1)])) == Some(map[1 := Plain])
  {
    var acts := [Create(1, Plain), Spend(1, 1)];
    assert acts[..1] == [Create(1, Plain)] && acts[..1][..0] == [];
    assert DoAll(map[], acts[..1]) == Some(map[1 := Plain]);
    assert map[1 := Plain] - {1} == map[];
    var undo := InvertAll(acts);
    assert undo == [Remove(1), Unspend(1)];
    assert undo[..1] == [Remove(1)] && undo[..1][..0] == [];
    assert DoAll(map[], undo[..1]) == Some(map[] - {1});
    assert (map[] - {1})[1 := Plain] == map[1 := Plain];
  }

  lemma ChainedTxActions(b: Block)
    requires b == CHAINED_BLOCK
    ensures TxActions(b, b.transactions[0], false) == Some([])
    ensures TxActions(b, b.transactions[1], false) == Some([Create(1, Plain)])
    ensures TxActions(b, b.transactions[2], false) == Some([Spend(1, 1)])
  {
    var t1, t2 := b.transactions[1], b.transactions[2];
    assert [1][..0] == [];
    assert SpendActions(1, t2, false, [1]) == Some([] + [Spend(1, 1)]);
    assert CreateActions(Plain, t1, false, [1]) == [] + [Create(1, Plain)];
    assert [Spend(1, 1)] + [] == [] + [Spend(1, 1)] == [Spend(1, 1)];
    assert [] + [Create(1, Plain)] == [Create(1, Plain)];
    var none: seq<Action> := [];
    assert none + none == none;
  }

  lemma ChainedBlockActions()
    ensures BlockActions(CHAINED_BLOCK, [false, false, false]) == Some([Create(1, Plain), Spend(1, 1)])
  {
    var b, status := CHAINED_BLOCK, [false, false, false];
    ChainedTxActions(b);
    assert TxsActions(b, status, 1) == Some([] + []);
    assert TxsActions(b, status, 2) == Some([] + [Create(1, Plain)]);
    assert [] + [Create(1, Plain)] == [Create(1, Plain)];
    assert TxsActions(b, status, 3) == Some([Create(1, Plain)] + [Spend(1, 1)]);
    assert [Create(1, Plain)] + [Spend(1, 1)] == [Create(1, Plain), Spend(1, 1)];
  }
}
