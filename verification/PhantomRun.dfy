// A run of processBlock (protocol/block.go) in which a reorganisation detaches a
// block that spends one of its own outputs: the output that stays behind can be
// spent although the main chain never created it, and once it is spent it can
// still be created and spent again.
module PhantomRun {
  import opened Wrappers
  import opened Bc
  import opened Ledger
  import opened UtxoStore
  import opened ViewRuns
  import opened BlockTree
  import opened ChainModel
  import opened ChainRuns

  const GENESIS := Block(Header(6, 0, 1, 0, 0, 0), [])

  /** Two blocks beside CHAINED_BLOCK, one on top of them that spends its output 1, and one that creates and spends it
      again. */
  const SIDE_BLOCK := Block(Header(8, 6, 1, 1, 0, 0), [])
  const TOP_BLOCK := Block(Header(9, 8, 1, 2, 0, 0), [])
  const SPENDING_BLOCK := Block(
    Header(10, 9, 1, 3, 0, 0),
    [Tx(103, map[], [], []),
     Tx(104, map[1 := Output(true)], [1], [])])
  const AGAIN_BLOCK := Block(Header(11, 10, 1, 4, 0, 0), CHAINED_BLOCK.transactions)

  function Unfailed(b: Block): TxStatus {
    seq(|b.transactions|, i => false)
  }

  function Checked(b: Block, parent: BlockNode): Option<TxStatus> {
    if b.header.height == parent.height + 1 && b.header.previous == parent.hash then Some(Unfailed(b)) else None
  }

  const V: Validator := (b, p) => Checked(b, p)

  lemma Checks()
    ensures Extends(V)
  {
  }

  // ------------------------------------------------------------- what the blocks do

  lemma NothingDone(b: Block)
    requires b.transactions == []
    ensures BlockActions(b, Unfailed(b)) == Some([])
  {
  }

  lemma SpendingTx(b: Block)
    requires b == SPENDING_BLOCK
    ensures TxActions(b, b.transactions[0], false) == Some([])
    ensures TxActions(b, b.transactions[1], false) == Some([Spend(1, 3)])
  {
    var t := b.transactions[1];
    assert [1][..0] == [];
    assert SpendActions(3, t, false, [1]) == Some([] + [Spend(1, 3)]);
    assert [Spend(1, 3)] + [] == [] + [Spend(1, 3)] == [Spend(1, 3)];
    var none: seq<Action> := [];
    assert none + none == none;
  }

  lemma SpendingDone()
    ensures BlockActions(SPENDING_BLOCK, Unfailed(SPENDING_BLOCK)) == Some([Spend(1, 3)])
  {
    var b, status := SPENDING_BLOCK, Unfailed(SPENDING_BLOCK);
    SpendingTx(b);
    assert TxsActions(b, status, 1) == Some([] + []);
    assert TxsActions(b, status, 2) == Some([] + [Spend(1, 3)]);
    assert [] + [Spend(1, 3)] == [Spend(1, 3)];
  }

  lemma AgainTx(b: Block)
    requires b == AGAIN_BLOCK
    ensures TxActions(b, b.transactions[0], false) == Some([])
    ensures TxActions(b, b.transactions[1], false) == Some([Create(1, Plain)])
    ensures TxActions(b, b.transactions[2], false) == Some([Spend(1, 4)])
  {
    var t1, t2 := b.transactions[1], b.transactions[2];
    assert [1][..0] == [];
    assert SpendActions(4, t2, false, [1]) == Some([] + [Spend(1, 4)]);
    assert CreateActions(Plain, t1, false, [1]) == [] + [Create(1, Plain)];
    assert [Spend(1, 4)] + [] == [] + [Spend(1, 4)] == [Spend(1, 4)];
    assert [] + [Create(1, Plain)] == [Create(1, Plain)];
    var none: seq<Action> := [];
    assert none + none == none;
  }

  lemma AgainDone()
    ensures BlockActions(AGAIN_BLOCK, Unfailed(AGAIN_BLOCK)) == Some([Create(1, Plain), Spend(1, 4)])
  {
    var b, status := AGAIN_BLOCK, Unfailed(AGAIN_BLOCK);
    AgainTx(b);
    assert TxsActions(b, status, 1) == Some([] + []);
    assert TxsActions(b, status, 2) == Some([] + [Create(1, Plain)]);
    assert [] + [Create(1, Plain)] == [Create(1, Plain)];
    assert TxsActions(b, status, 3) == Some([Create(1, Plain)] + [Spend(1, 4)]);
    assert [Create(1, Plain)] + [Spend(1, 4)] == [Create(1, Plain), Spend(1, 4)];
  }

  lemma ChainedDone()
    ensures BlockActions(CHAINED_BLOCK, Unfailed(CHAINED_BLOCK)) == Some([Create(1, Plain), Spend(1, 1)])
  {
    ChainedBlockActions();
    assert Unfailed(CHAINED_BLOCK) == [false, false, false];
  }

  // -------------------------------------------------------------------- single calls

  /** Nobody waits for a parent, and the index holds the parent of the block but not the block. */
  predicate Welcome(c: ChainState, b: Block, parent: BlockNode) {
    && Shape(c) && c.pool == Pool(map[], map[]) && Holds(c.tree, parent) && b.header.hash !in c.tree.index
    && b.header.height == parent.height + 1 && b.header.previous == parent.hash
  }

  function Node(b: Block, parent: BlockNode): BlockNode {
    NewBlockNode(b.header, Some(parent)).value
  }

  function WithBlock(c: ChainState, b: Block, parent: BlockNode): ChainState {
    c.(tree := AddBlock(c.tree, b, parent, Unfailed(b)))
  }

  lemma SavedAlone(c: ChainState, b: Block, parent: BlockNode)
    requires Welcome(c, b, parent) && Extends(V)
    ensures Proceeds(c, b, V) && SavedBest(c, b, V) == (WithBlock(c, b, parent), Node(b, parent))
  {
    hide TreeOk, Path, Unfailed;
    var d := WithBlock(c, b, parent);
    assert SaveBlock(c, b, V) == Some(d);
    assert SaveSubBlock(d, b, V) == (d, b);
  }

  /** The state after a call that moves to the new block, or leaves the best block where it is. */
  predicate Reaches(d: ChainState, tree: Tree, best: BlockNode, coins: Coins) {
    Shape(d) && d.tree == tree && d.best == best && Meaning(d.utxos) == coins && d.pool == Pool(map[], map[])
  }

  lemma Connects(c: ChainState, b: Block, acts: seq<Action>, coins: Coins)
    requires Welcome(c, b, c.best) && Extends(V) && BlockActions(b, Unfailed(b)) == Some(acts)
    requires DoAll(Meaning(c.utxos), acts) == Some(coins)
    ensures Reaches(ProcessBlock(c, b, V).0, WithBlock(c, b, c.best).tree, Node(b, c.best), coins)
  {
    hide TreeOk, Path, Unfailed, BlockActions, DoAll, Meaning;
    var d, node := WithBlock(c, b, c.best), Node(b, c.best);
    SavedAlone(c, b, c.best);
    ProcessBlockCases(c, b, V);
    ProcessBlockShape(c, b, V);
    var steps := Attaches(d.tree.blocks, [node]);
    var step := Attach(Saved(b, Unfailed(b)));
    assert steps == [step];
    OneStep(step);
    RunAndSaveSimulates(c.utxos, steps);
  }

  lemma StaysAside(c: ChainState, b: Block, parent: BlockNode)
    requires Welcome(c, b, parent) && Extends(V) && parent != c.best && b.header.height <= c.best.height
    ensures Reaches(ProcessBlock(c, b, V).0, WithBlock(c, b, parent).tree, c.best, Meaning(c.utxos))
  {
    hide TreeOk, Path, Unfailed, Meaning;
    SavedAlone(c, b, parent);
    ProcessBlockCases(c, b, V);
    ProcessBlockShape(c, b, V);
  }

  lemma Moves(c: ChainState, b: Block, parent: BlockNode, steps: seq<Step>, acts: seq<Action>, coins: Coins)
    requires Welcome(c, b, parent) && Extends(V) && parent != c.best && b.header.height > c.best.height
    requires Node(b, parent).workSum >= c.best.workSum
    requires var d := WithBlock(c, b, parent);
             && HasBlocks(d.tree.blocks, Path(Node(b, parent))) && HasBlocks(d.tree.blocks, Path(c.best))
             && MoveSteps(d.tree.blocks, c.best, Node(b, parent)) == steps
    requires StepsActions(steps) == Some(acts) && DoAll(Meaning(c.utxos), acts) == Some(coins)
    ensures Reaches(ProcessBlock(c, b, V).0, WithBlock(c, b, parent).tree, Node(b, parent), coins)
  {
    hide TreeOk, Path, Unfailed, StepsActions, DoAll, Meaning, MoveSteps, HasBlocks;
    SavedAlone(c, b, parent);
    ProcessBlockCases(c, b, V);
    ProcessBlockShape(c, b, V);
    RunAndSaveSimulates(c.utxos, steps);
  }

  // ------------------------------------------------------------------------- the run

  /** The nodes of the six blocks, given that of the genesis block. */
  datatype Nodes = Nodes(g: BlockNode, n7: BlockNode, n8: BlockNode, n9: BlockNode, n10: BlockNode, n11: BlockNode)

  function NodesOn(g: BlockNode): Nodes {
    var n8 := Node(SIDE_BLOCK, g);
    var n9 := Node(TOP_BLOCK, n8);
    var n10 := Node(SPENDING_BLOCK, n9);
    Nodes(g, Node(CHAINED_BLOCK, g), n8, n9, n10, Node(AGAIN_BLOCK, n10))
  }

  lemma Paths(g: BlockNode)
    requires Some(g) == NewBlockNode(GENESIS.header, None)
    ensures var ns := NodesOn(g);
            && Path(g) == [g] && Path(ns.n7) == [g, ns.n7] && Path(ns.n9) == [g, ns.n8, ns.n9]
            && Path(ns.n10) == [g, ns.n8, ns.n9, ns.n10] && Path(ns.n11) == [g, ns.n8, ns.n9, ns.n10, ns.n11]
  {
    hide NewBlockNode;
    var ns := NodesOn(g);
    assert Path(ns.n7) == Path(g) + [ns.n7];
    assert Path(ns.n8) == Path(g) + [ns.n8];
    assert Path(ns.n9) == Path(ns.n8) + [ns.n9];
    assert Path(ns.n10) == Path(ns.n9) + [ns.n10];
    assert Path(ns.n11) == Path(ns.n10) + [ns.n11];
  }

  lemma Reorganisation(blocks: map<Hash, Saved>, g: BlockNode)
    requires Some(g) == NewBlockNode(GENESIS.header, None)
    requires 6 in blocks && 7 in blocks && 8 in blocks && 9 in blocks
    requires blocks[7] == Saved(CHAINED_BLOCK, Unfailed(CHAINED_BLOCK))
    requires blocks[8] == Saved(SIDE_BLOCK, Unfailed(SIDE_BLOCK))
    requires blocks[9] == Saved(TOP_BLOCK, Unfailed(TOP_BLOCK))
    ensures var ns := NodesOn(g);
            && HasBlocks(blocks, Path(ns.n9)) && HasBlocks(blocks, Path(ns.n7))
            && StepsActions(MoveSteps(blocks, ns.n7, ns.n9)) == Some([Remove(1), Unspend(1)])
  {
    hide Unfailed;
    var ns := NodesOn(g);
    Paths(g);
    var p, q := Path(ns.n7), Path(ns.n9);
    CommonOne(p, q);
    assert p[1..] == [ns.n7] && q[1..] == [ns.n8, ns.n9];
    assert Reverse([ns.n7]) == [ns.n7];
    var steps := [Detach(blocks[7]), Attach(blocks[8]), Attach(blocks[9])];
    assert MoveSteps(blocks, ns.n7, ns.n9) == steps;
    ThreeSteps(blocks[7], blocks[8], blocks[9]);
  }

  lemma CommonOne(p: seq<BlockNode>, q: seq<BlockNode>)
    requires |p| > 1 && |q| > 1 && p[0] == q[0] && p[1] != q[1]
    ensures CommonPrefix(p, q) == 1
  {
  }

  lemma ThreeSteps(a: Saved, b: Saved, c: Saved)
    requires a == Saved(CHAINED_BLOCK, Unfailed(CHAINED_BLOCK))
    requires b == Saved(SIDE_BLOCK, Unfailed(SIDE_BLOCK)) && c == Saved(TOP_BLOCK, Unfailed(TOP_BLOCK))
    ensures StepsActions([Detach(a), Attach(b), Attach(c)]) == Some([Remove(1), Unspend(1)])
  {
    hide BlockActions, Unfailed;
    ChainedDone();
    NothingDone(SIDE_BLOCK);
    NothingDone(TOP_BLOCK);
    var undo := [Remove(1), Unspend(1)];
    assert InvertAll([Create(1, Plain), Spend(1, 1)]) == undo;
    OneStep(Detach(a));
    var steps := [Detach(a), Attach(b), Attach(c)];
    assert steps[..2] == [Detach(a), Attach(b)] && steps[..2][..1] == [Detach(a)];
    assert undo + [] == undo;
  }

  lemma Outcomes()
    ensures DoAll(map[], [Create(1, Plain), Spend(1, 1)]) == Some(map[])
    ensures DoAll(map[], [Remove(1), Unspend(1)]) == Some(map[1 := Plain])
    ensures DoAll(map[1 := Plain], [Spend(1, 3)]) == Some(map[])
    ensures DoAll(map[], [Create(1, Plain), Spend(1, 4)]) == Some(map[])
  {
    CreatedAndSpent(1);
    CreatedAndSpent(4);
    var undo := [Remove(1), Unspend(1)];
    assert undo[..1] == [Remove(1)] && undo[..1][..0] == [];
    assert DoAll(map[], undo[..1]) == Some(map[] - {1});
    assert (map[] - {1})[1 := Plain] == map[1 := Plain];
    var spend := [Spend(1, 3)];
    assert spend[..0] == [];
    assert map[1 := Plain] - {1} == map[];
  }

  lemma CreatedAndSpent(h: nat)
    ensures DoAll(map[], [Create(1, Plain), Spend(1, h)]) == Some(map[])
  {
    var acts := [Create(1, Plain), Spend(1, h)];
    assert acts[..1] == [Create(1, Plain)] && acts[..1][..0] == [];
    assert DoAll(map[], acts[..1]) == Some(map[1 := Plain]);
    assert map[1 := Plain] - {1} == map[];
  }

  function Inputs(): seq<Input> {
    [Input(CHAINED_BLOCK, V), Input(SIDE_BLOCK, V), Input(TOP_BLOCK, V), Input(SPENDING_BLOCK, V),
     Input(AGAIN_BLOCK, V)]
  }

  lemma InputsValid()
    ensures Extends(V) && ValidInputs(Inputs())
  {
    Checks();
  }

  /** The tree with the blocks of the first n calls. */
  function TreeAfter(t: Tree, ns: Nodes, n: nat): Tree
    requires n <= 5
  {
    if n == 0 then t
    else
      var parent := [ns.g, ns.g, ns.n8, ns.n9, ns.n10][n - 1];
      var b := Inputs()[n - 1].block;
      AddBlock(TreeAfter(t, ns, n - 1), b, parent, Unfailed(b))
  }

  function BestAfter(ns: Nodes, n: nat): BlockNode
    requires n <= 5
  {
    [ns.g, ns.n7, ns.n7, ns.n9, ns.n10, ns.n11][n]
  }

  function CoinsAfter(n: nat): Coins {
    if n == 3 then map[1 := Plain] else map[]
  }

  /** Where the run stands after n calls. */
  predicate StandsAt(c: ChainState, d: ChainState, n: nat)
    requires n <= 5
  {
    var ns := NodesOn(c.best);
    Reaches(d, TreeAfter(c.tree, ns, n), BestAfter(ns, n), CoinsAfter(n))
  }

  lemma Started(c: ChainState)
    requires Initial(c, Saved(GENESIS, []))
    ensures StandsAt(c, c, 0) && c.best.hash == 6 && c.best.height == 0
  {
    InitialIsGood(c, Saved(GENESIS, []));
    NothingDone(GENESIS);
    assert Unfailed(GENESIS) == [];
    OneStep(Attach(Saved(GENESIS, [])));
    RunAndSaveSimulates(map[], [Attach(Saved(GENESIS, []))]);
    assert Meaning(map[]) == map[];
  }

  /** What the tree holds before call n + 1. */
  lemma TreeHolds(c: ChainState, n: nat)
    requires Initial(c, Saved(GENESIS, [])) && n <= 5
    ensures var ns, t := NodesOn(c.best), TreeAfter(c.tree, NodesOn(c.best), n);
            && (forall h :: h in t.index ==> h <= 6 + n) && Holds(t, ns.g)
            && 6 in t.blocks && t.blocks[6] == Saved(GENESIS, [])
            && (n >= 1 ==> 7 in t.blocks && t.blocks[7] == Saved(CHAINED_BLOCK, Unfailed(CHAINED_BLOCK)))
            && (n >= 2 ==> Holds(t, ns.n8) && 8 in t.blocks && t.blocks[8] == Saved(SIDE_BLOCK, Unfailed(SIDE_BLOCK)))
            && (n >= 3 ==> Holds(t, ns.n9) && 9 in t.blocks && t.blocks[9] == Saved(TOP_BLOCK, Unfailed(TOP_BLOCK)))
            && (n >= 4 ==> Holds(t, ns.n10) && 10 in t.blocks
                           && t.blocks[10] == Saved(SPENDING_BLOCK, Unfailed(SPENDING_BLOCK)))
            && (n >= 5 ==> 11 in t.blocks && t.blocks[11] == Saved(AGAIN_BLOCK, Unfailed(AGAIN_BLOCK)))
  {
    hide Unfailed;
    if n > 0 {
      TreeHolds(c, n - 1);
    }
  }

  lemma Call1(c: ChainState, d: ChainState)
    requires Initial(c, Saved(GENESIS, [])) && Extends(V) && StandsAt(c, d, 0)
    ensures StandsAt(c, ProcessBlock(d, CHAINED_BLOCK, V).0, 1)
  {
    hide Shape, Unfailed, BlockActions, Meaning, DoAll;
    TreeHolds(c, 0);
    ChainedDone();
    Outcomes();
    Connects(d, CHAINED_BLOCK, [Create(1, Plain), Spend(1, 1)], map[]);
  }

  lemma Call2(c: ChainState, d: ChainState)
    requires Initial(c, Saved(GENESIS, [])) && Extends(V) && StandsAt(c, d, 1)
    ensures StandsAt(c, ProcessBlock(d, SIDE_BLOCK, V).0, 2)
  {
    hide Shape, Unfailed, Meaning;
    TreeHolds(c, 1);
    StaysAside(d, SIDE_BLOCK, c.best);
  }

  lemma Call3(c: ChainState, d: ChainState)
    requires Initial(c, Saved(GENESIS, [])) && Extends(V) && StandsAt(c, d, 2)
    ensures StandsAt(c, ProcessBlock(d, TOP_BLOCK, V).0, 3)
  {
    hide Shape, Unfailed, Meaning, DoAll, StepsActions, MoveSteps, HasBlocks, Path;
    var ns := NodesOn(c.best);
    TreeHolds(c, 2);
    TreeHolds(c, 3);
    var blocks := WithBlock(d, TOP_BLOCK, ns.n8).tree.blocks;
    assert blocks == TreeAfter(c.tree, ns, 3).blocks;
    Reorganisation(blocks, c.best);
    Outcomes();
    Moves(d, TOP_BLOCK, ns.n8, MoveSteps(blocks, ns.n7, ns.n9), [Remove(1), Unspend(1)], map[1 := Plain]);
  }

  lemma Call4(c: ChainState, d: ChainState)
    requires Initial(c, Saved(GENESIS, [])) && Extends(V) && StandsAt(c, d, 3)
    ensures StandsAt(c, ProcessBlock(d, SPENDING_BLOCK, V).0, 4)
  {
    hide Shape, Unfailed, BlockActions, Meaning, DoAll;
    TreeHolds(c, 3);
    SpendingDone();
    Outcomes();
    Connects(d, SPENDING_BLOCK, [Spend(1, 3)], map[]);
  }

  lemma Call5(c: ChainState, d: ChainState)
    requires Initial(c, Saved(GENESIS, [])) && Extends(V) && StandsAt(c, d, 4)
    ensures StandsAt(c, ProcessBlock(d, AGAIN_BLOCK, V).0, 5)
  {
    hide Shape, Unfailed, BlockActions, Meaning, DoAll;
    TreeHolds(c, 4);
    AgainDone();
    Outcomes();
    Connects(d, AGAIN_BLOCK, [Create(1, Plain), Spend(1, 4)], map[]);
  }

  lemma AllCalls(c: ChainState)
    requires Initial(c, Saved(GENESIS, [])) && Shape(c) && ValidInputs(Inputs()) && Extends(V)
    ensures StandsAt(c, After(c, Inputs(), 3), 3) && StandsAt(c, After(c, Inputs(), 5), 5)
  {
    hide StandsAt, Shape, Initial, Run;
    var ins := Inputs();
    AfterNone(c, ins);
    Started(c);
    AfterNext(c, ins, 0);
    Call1(c, After(c, ins, 0));
    AfterNext(c, ins, 1);
    Call2(c, After(c, ins, 1));
    AfterNext(c, ins, 2);
    Call3(c, After(c, ins, 2));
    AfterNext(c, ins, 3);
    Call4(c, After(c, ins, 3));
    AfterNext(c, ins, 4);
    Call5(c, After(c, ins, 4));
  }

  lemma OneBlockMore(blocks: map<Hash, Saved>, nodes: seq<BlockNode>, n: BlockNode, b: Block, x: seq<Action>,
                     y: seq<Action>)
    requires HasBlocks(blocks, nodes) && History(blocks, nodes) == Some(x)
    requires n.hash in blocks && blocks[n.hash] == Saved(b, Unfailed(b)) && BlockActions(b, Unfailed(b)) == Some(y)
    ensures HasBlocks(blocks, nodes + [n]) && History(blocks, nodes + [n]) == Some(x + y)
  {
    hide History, BlockActions, Unfailed;
    HistoryConcat(blocks, nodes, [n]);
    HistoryOne(blocks, n);
  }

  /** The main chain after the third call has no actions. */
  lemma HistoryAtTop(blocks: map<Hash, Saved>, g: BlockNode)
    requires Some(g) == NewBlockNode(GENESIS.header, None)
    requires 6 in blocks && 8 in blocks && 9 in blocks && blocks[6] == Saved(GENESIS, [])
    requires blocks[8] == Saved(SIDE_BLOCK, Unfailed(SIDE_BLOCK)) && blocks[9] == Saved(TOP_BLOCK, Unfailed(TOP_BLOCK))
    ensures HasBlocks(blocks, Path(NodesOn(g).n9)) && History(blocks, Path(NodesOn(g).n9)) == Some([])
  {
    hide History, BlockActions;
    var ns := NodesOn(g);
    Paths(g);
    NothingDone(GENESIS);
    NothingDone(SIDE_BLOCK);
    NothingDone(TOP_BLOCK);
    assert Unfailed(GENESIS) == [];
    HistoryOne(blocks, g);
    var none: seq<Action> := [];
    assert none + none == none;
    OneBlockMore(blocks, [g], ns.n8, SIDE_BLOCK, [], []);
    assert [g] + [ns.n8] == [g, ns.n8];
    OneBlockMore(blocks, [g, ns.n8], ns.n9, TOP_BLOCK, [], []);
    assert [g, ns.n8] + [ns.n9] == [g, ns.n8, ns.n9];
  }

  /** After the fifth call it spends output 1, creates it and spends it again. */
  lemma HistoryAtEnd(blocks: map<Hash, Saved>, g: BlockNode)
    requires Some(g) == NewBlockNode(GENESIS.header, None)
    requires 10 in blocks && 11 in blocks && blocks[10] == Saved(SPENDING_BLOCK, Unfailed(SPENDING_BLOCK))
    requires blocks[11] == Saved(AGAIN_BLOCK, Unfailed(AGAIN_BLOCK))
    requires HasBlocks(blocks, Path(NodesOn(g).n9)) && History(blocks, Path(NodesOn(g).n9)) == Some([])
    ensures HasBlocks(blocks, Path(NodesOn(g).n11))
    ensures History(blocks, Path(NodesOn(g).n11)) == Some([Spend(1, 3), Create(1, Plain), Spend(1, 4)])
  {
    hide History, BlockActions, Unfailed;
    var ns := NodesOn(g);
    Paths(g);
    SpendingDone();
    AgainDone();
    OneBlockMore(blocks, Path(ns.n9), ns.n10, SPENDING_BLOCK, [], [Spend(1, 3)]);
    assert Path(ns.n9) + [ns.n10] == Path(ns.n10) && [] + [Spend(1, 3)] == [Spend(1, 3)];
    OneBlockMore(blocks, Path(ns.n10), ns.n11, AGAIN_BLOCK, [Spend(1, 3)], [Create(1, Plain), Spend(1, 4)]);
    assert Path(ns.n10) + [ns.n11] == Path(ns.n11);
    assert [Spend(1, 3)] + [Create(1, Plain), Spend(1, 4)] == [Spend(1, 3), Create(1, Plain), Spend(1, 4)];
  }

  /** From any new chain on this genesis block, the run leads to a main chain on which an output can be spent that no
      block of it created; and then to one that spends an output before it creates it, and twice. */
  lemma PhantomIsSpent(c: ChainState)
    requires Initial(c, Saved(GENESIS, []))
    ensures Shape(c) && ValidInputs(Inputs())
    ensures var d := After(c, Inputs(), 3);
            && HasBlocks(d.tree.blocks, Path(d.best)) && History(d.tree.blocks, Path(d.best)) == Some([])
            && Spendable(d.utxos, 1) && !Good(d)
    ensures var d := After(c, Inputs(), 5);
            && HasBlocks(d.tree.blocks, Path(d.best))
            && History(d.tree.blocks, Path(d.best)) == Some([Spend(1, 3), Create(1, Plain), Spend(1, 4)])
            && UniqueAt(d.tree, d.best)
  {
    hide TreeAfter, History, Path, NodesOn, Run, Unfailed, HasBlocks;
    InputsValid();
    Started(c);
    AllCalls(c);
    TreeHolds(c, 3);
    TreeHolds(c, 5);
    var ns := NodesOn(c.best);
    HistoryAtTop(TreeAfter(c.tree, ns, 3).blocks, c.best);
    HistoryAtTop(TreeAfter(c.tree, ns, 5).blocks, c.best);
    HistoryAtEnd(TreeAfter(c.tree, ns, 5).blocks, c.best);
    var d := After(c, Inputs(), 3);
    MeaningSpendable(d.utxos, 1);
    FirstNode(c.best);
  }

  lemma FirstNode(g: BlockNode)
    ensures NodesOn(g).g == g
  {
  }
}
