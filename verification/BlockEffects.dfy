// What the blocks of the main chain do to outputs, read off their transactions: who
// spends and creates what, which outputs are rewards, and in which order.
module BlockEffects {
  import opened Wrappers
  import opened Bc
  import opened Ledger
  import opened UtxoStore
  import opened ViewEffects
  import opened ViewRuns
  import opened BlockTree
  import opened ChainModel
  import opened ChainRuns

  // ---------------------------------------------------------------------- one block

  /** Transaction k of the block spends the output. */
  predicate SpendsAt(s: Saved, k: nat, id: Hash) {
    && k < |s.block.transactions| && k < |s.status| && id in s.block.transactions[k].spentOutputIds
    && Affects(s.block.transactions[k], s.status[k], id)
  }

  predicate CreatesAt(s: Saved, k: nat, id: Hash) {
    && k < |s.block.transactions| && k < |s.status| && id in s.block.transactions[k].resultIds
    && Affects(s.block.transactions[k], s.status[k], id)
  }

  /** The rewards of a block are the outputs of its first transaction. */
  function NewCoin(s: Saved, k: nat): Coin
    requires k < |s.block.transactions|
  {
    if s.block.transactions[k].id == s.block.transactions[0].id then Coinbase(s.block.header.height, false) else Plain
  }

  /** Transaction k of the block performs the action. */
  predicate Performs(s: Saved, k: nat, a: Action) {
    match a
    case Spend(id, height) => SpendsAt(s, k, id) && height == s.block.header.height
    case Create(id, coin) => CreatesAt(s, k, id) && coin == NewCoin(s, k)
    case _ => false
  }

  /** Every output that the first n transactions spend is among their entries. */
  predicate Readable(s: Saved, n: nat)
    requires n <= |s.block.transactions|
  {
    n <= |s.status| &&
    forall k, id :: 0 <= k < n && id in s.block.transactions[k].spentOutputIds ==>
      Affects(s.block.transactions[k], false, id)
  }

  lemma {:induction false} SpendsReadable(height: nat, tx: Tx, gasOnly: bool, ids: seq<Hash>)
    ensures SpendActions(height, tx, gasOnly, ids).Some? <==> forall id :: id in ids ==> Affects(tx, false, id)
  {
    if ids != [] {
      var init, last := ids[..|ids| - 1], ids[|ids| - 1];
      SpendsReadable(height, tx, gasOnly, init);
      assert forall id :: id in ids <==> id in init || id == last;
      assert tx.FindOutput(last).Some? <==> Affects(tx, false, last);
    }
  }

  lemma {:induction false} SpendsRead(height: nat, tx: Tx, gasOnly: bool, ids: seq<Hash>, a: Action)
    requires SpendActions(height, tx, gasOnly, ids).Some?
    ensures a in SpendActions(height, tx, gasOnly, ids).value <==>
            a.Spend? && a.height == height && a.id in ids && Affects(tx, gasOnly, a.id)
  {
    if ids != [] {
      SpendsRead(height, tx, gasOnly, ids[..|ids| - 1], a);
      assert ids == ids[..|ids| - 1] + [ids[|ids| - 1]];
    }
  }

  lemma {:induction false} CreatesRead(coin: Coin, tx: Tx, gasOnly: bool, ids: seq<Hash>)
    ensures forall a :: a in CreateActions(coin, tx, gasOnly, ids) <==>
              a.Create? && a.coin == coin && a.id in ids && Affects(tx, gasOnly, a.id)
  {
    if ids != [] {
      CreatesRead(coin, tx, gasOnly, ids[..|ids| - 1]);
      assert ids == ids[..|ids| - 1] + [ids[|ids| - 1]];
    }
  }

  lemma TxRead(s: Saved, k: nat)
    requires k < |s.block.transactions| && k < |s.status|
    ensures var tx := s.block.transactions[k];
            var acts := TxActions(s.block, tx, s.status[k]);
            && (acts.Some? <==> forall id :: id in tx.spentOutputIds ==> Affects(tx, false, id))
            && (acts.Some? ==> forall a :: a in acts.value <==> Performs(s, k, a))
  {
    hide SpendActions, CreateActions, Affects;
    var tx := s.block.transactions[k];
    SpendsReadable(s.block.header.height, tx, s.status[k], tx.spentOutputIds);
    if TxActions(s.block, tx, s.status[k]).Some? {
      forall a {
        SpendsRead(s.block.header.height, tx, s.status[k], tx.spentOutputIds, a);
      }
    }
    CreatesRead(OutputCoin(s.block, tx), tx, s.status[k], tx.resultIds);
  }

  /** The actions of the first n transactions are exactly what one of them performs. */
  lemma {:induction false} TxsRead(s: Saved, n: nat)
    requires n <= |s.block.transactions|
    ensures var acts := TxsActions(s.block, s.status, n);
            && (acts.Some? <==> Readable(s, n))
            && (acts.Some? ==> forall a :: a in acts.value <==> exists k :: 0 <= k < n && Performs(s, k, a))
  {
    hide Performs, TxActions;
    if n > 0 {
      TxsRead(s, n - 1);
      if n <= |s.status| {
        TxRead(s, n - 1);
      }
    }
  }

  /** The actions of a block are exactly what its transactions perform, and they can be listed exactly if every spent
      output is among the entries of its transaction.  If no two transactions have the same id, the outputs of the
      first one, and of no other, are rewards. */
  lemma BlockReadsExactly(s: Saved)
    ensures var acts, n := BlockActions(s.block, s.status), |s.block.transactions|;
            && (acts.Some? <==> Readable(s, n))
            && (acts.Some? ==> forall a :: a in acts.value <==> exists k :: 0 <= k < n && Performs(s, k, a))
    ensures (forall i, j :: 0 <= i < j < |s.block.transactions| ==>
               s.block.transactions[i].id != s.block.transactions[j].id) ==>
            forall k :: 0 <= k < |s.block.transactions| ==>
              NewCoin(s, k) == if k == 0 then Coinbase(s.block.header.height, false) else Plain
  {
    TxsRead(s, |s.block.transactions|);
  }

  // ---------------------------------------------------------------------- the chain

  function SavedAt(blocks: map<Hash, Saved>, nodes: seq<BlockNode>, h: nat): Saved
    requires HasBlocks(blocks, nodes) && h < |nodes|
  {
    blocks[nodes[h].hash]
  }

  lemma HistorySplit(blocks: map<Hash, Saved>, nodes: seq<BlockNode>, h: nat)
    requires HasBlocks(blocks, nodes) && History(blocks, nodes).Some? && h < |nodes|
    ensures HasBlocks(blocks, nodes[..h]) && HasBlocks(blocks, nodes[h + 1..])
    ensures var s := SavedAt(blocks, nodes, h);
            && History(blocks, nodes[..h]).Some? && History(blocks, nodes[h + 1..]).Some?
            && BlockActions(s.block, s.status).Some?
            && History(blocks, nodes).value == History(blocks, nodes[..h]).value +
               (BlockActions(s.block, s.status).value + History(blocks, nodes[h + 1..]).value)
  {
    hide BlockActions, History;
    var rest := nodes[h..];
    assert nodes == nodes[..h] + rest && rest == [nodes[h]] + nodes[h + 1..];
    HistoryConcat(blocks, nodes[..h], rest);
    HistoryConcat(blocks, [nodes[h]], nodes[h + 1..]);
    HistoryOne(blocks, nodes[h]);
  }

  /** The history of a chain is exactly what the transactions of its blocks perform. */
  lemma {:induction false} HistoryRead(blocks: map<Hash, Saved>, nodes: seq<BlockNode>, a: Action)
    requires HasBlocks(blocks, nodes) && History(blocks, nodes).Some?
    ensures a in History(blocks, nodes).value <==>
            exists h, k :: 0 <= h < |nodes| && 0 <= k && Performs(SavedAt(blocks, nodes, h), k, a)
  {
    hide History, Performs, BlockActions;
    if nodes == [] {
      NoHistory(blocks);
    } else {
      var m := |nodes| - 1;
      var s := SavedAt(blocks, nodes, m);
      HistorySplit(blocks, nodes, m);
      assert nodes[m + 1..] == [];
      NoHistory(blocks);
      HistoryRead(blocks, nodes[..m], a);
      BlockReadsExactly(s);
      PerformersExist(s, a);
      if h, k :| 0 <= h < m && 0 <= k && Performs(SavedAt(blocks, nodes[..m], h), k, a) {
        assert Performs(SavedAt(blocks, nodes, h), k, a);
      }
      if h, k :| 0 <= h <= m && 0 <= k && Performs(SavedAt(blocks, nodes, h), k, a) {
        assert h < m ==> Performs(SavedAt(blocks, nodes[..m], h), k, a);
      }
    }
  }

  lemma NoHistory(blocks: map<Hash, Saved>)
    ensures History(blocks, []) == Some([])
  {
  }

  lemma PerformersExist(s: Saved, a: Action)
    ensures forall k :: 0 <= k && Performs(s, k, a) ==> k < |s.block.transactions|
  {
  }

  lemma {:induction false} TxsPrefix(s: Saved, k: nat, n: nat)
    requires k <= n <= |s.block.transactions| && TxsActions(s.block, s.status, n).Some?
    ensures TxsActions(s.block, s.status, k).Some?
    ensures TxsActions(s.block, s.status, k).value <= TxsActions(s.block, s.status, n).value
  {
    hide TxActions;
    if k < n {
      TxsPrefix(s, k, n - 1);
    }
  }

  /** All that is done before transaction k of the block at height h. */
  function Before(blocks: map<Hash, Saved>, nodes: seq<BlockNode>, h: nat, k: nat): seq<Action>
    requires HasBlocks(blocks, nodes) && History(blocks, nodes).Some? && h < |nodes|
    requires k <= |SavedAt(blocks, nodes, h).block.transactions|
  {
    var s := SavedAt(blocks, nodes, h);
    HistorySplit(blocks, nodes, h);
    TxsPrefix(s, k, |s.block.transactions|);
    History(blocks, nodes[..h]).value + TxsActions(s.block, s.status, k).value
  }

  predicate Earlier(h: nat, k: nat, h': nat, k': nat) {
    h < h' || (h == h' && k < k')
  }

  lemma BeforeRead(blocks: map<Hash, Saved>, nodes: seq<BlockNode>, h: nat, k: nat, a: Action)
    requires HasBlocks(blocks, nodes) && History(blocks, nodes).Some? && h < |nodes|
    requires k <= |SavedAt(blocks, nodes, h).block.transactions|
    ensures a in Before(blocks, nodes, h, k) <==>
            exists h', k' :: 0 <= h' < |nodes| && 0 <= k' && Earlier(h', k', h, k)
                             && Performs(SavedAt(blocks, nodes, h'), k', a)
  {
    hide History, Performs, TxsActions;
    var s := SavedAt(blocks, nodes, h);
    HistorySplit(blocks, nodes, h);
    TxsPrefix(s, k, |s.block.transactions|);
    HistoryRead(blocks, nodes[..h], a);
    TxsRead(s, k);
    if h', k' :| 0 <= h' < h && 0 <= k' && Performs(SavedAt(blocks, nodes[..h], h'), k', a) {
      assert Performs(SavedAt(blocks, nodes, h'), k', a);
    }
    if h', k' :| 0 <= h' < |nodes| && 0 <= k' && Earlier(h', k', h, k) && Performs(SavedAt(blocks, nodes, h'), k', a) {
      assert h' < h ==> Performs(SavedAt(blocks, nodes[..h], h'), k', a);
    }
  }

  /** A spend stands after all that is done before its transaction, with only spends in between. */
  lemma SpendPosition(blocks: map<Hash, Saved>, nodes: seq<BlockNode>, h: nat, k: nat, id: Hash) returns (j: nat)
    requires HasBlocks(blocks, nodes) && History(blocks, nodes).Some? && h < |nodes|
    requires SpendsAt(SavedAt(blocks, nodes, h), k, id)
    ensures var acts, before := History(blocks, nodes).value, Before(blocks, nodes, h, k);
            && j < |acts| && acts[j] == Spend(id, SavedAt(blocks, nodes, h).block.header.height)
            && before <= acts && |before| <= j && forall i :: |before| <= i < j ==> acts[i].Spend?
  {
    hide History, SpendActions, CreateActions, Affects;
    var s := SavedAt(blocks, nodes, h);
    var height, tx, n := s.block.header.height, s.block.transactions[k], |s.block.transactions|;
    HistorySplit(blocks, nodes, h);
    TxsPrefix(s, k, n);
    TxsPrefix(s, k + 1, n);
    var spends := SpendActions(height, tx, s.status[k], tx.spentOutputIds).value;
    SpendsRead(height, tx, s.status[k], tx.spentOutputIds, Spend(id, height));
    var m :| 0 <= m < |spends| && spends[m] == Spend(id, height);
    var before, acts := Before(blocks, nodes, h, k), History(blocks, nodes).value;
    assert before + spends <= acts;
    j := |before| + m;
    forall i | |before| <= i < j
      ensures acts[i].Spend?
    {
      assert acts[i] == spends[i - |before|];
      SpendsRead(height, tx, s.status[k], tx.spentOutputIds, acts[i]);
    }
  }

  /** Everything a transaction on the main chain of a good state spends was created by an earlier transaction of that
      chain. */
  lemma SpendsWhatWasCreated(c: ChainState, h: nat, k: nat, id: Hash) returns (h': nat, k': nat)
    requires Good(c) && UniqueAt(c.tree, c.best) && h < |Path(c.best)|
    requires SpendsAt(SavedAt(c.tree.blocks, Path(c.best), h), k, id)
    ensures h' <= h && Earlier(h', k', h, k) && CreatesAt(SavedAt(c.tree.blocks, Path(c.best), h'), k', id)
  {
    hide Path, History, DoAll, Shape;
    var blocks, nodes := c.tree.blocks, Path(c.best);
    var acts := History(blocks, nodes).value;
    var j := SpendPosition(blocks, nodes, h, k, id);
    var i := MainChainMaturity(c, j);
    BeforeRead(blocks, nodes, h, k, acts[i]);
    var before := Before(blocks, nodes, h, k);
    assert before[i] == acts[i];
    h', k' :| 0 <= h' < |nodes| && 0 <= k' && Earlier(h', k', h, k)
              && Performs(SavedAt(blocks, nodes, h'), k', acts[i]);
  }

  lemma HeightOnMain(c: ChainState, h: nat)
    requires Shape(c) && h < |Path(c.best)| && HasBlocks(c.tree.blocks, Path(c.best))
    ensures SavedAt(c.tree.blocks, Path(c.best), h).block.header.height == h
  {
    PathIndexed(c.tree, c.best);
    assert Indexed(c.tree, c.best.hash);
    PathByHeight(c.best);
    assert Holds(c.tree, Path(c.best)[h]);
    assert Indexed(c.tree, Path(c.best)[h].hash);
  }

  /** A reward of the block at height g, spent at height h of the main chain of a good state, is ten blocks old: the
      outputs of the first transaction of a block cannot be spent earlier. */
  lemma RewardsMature(c: ChainState, h: nat, k: nat, g: nat, id: Hash)
    requires Good(c) && UniqueAt(c.tree, c.best) && h < |Path(c.best)| && g < |Path(c.best)|
    requires SpendsAt(SavedAt(c.tree.blocks, Path(c.best), h), k, id)
    requires CreatesAt(SavedAt(c.tree.blocks, Path(c.best), g), 0, id)
    ensures g + 10 <= h
  {
    hide Path, History, DoAll, Shape;
    var blocks, nodes := c.tree.blocks, Path(c.best);
    var acts := History(blocks, nodes).value;
    HeightOnMain(c, h);
    HeightOnMain(c, g);
    var j := SpendPosition(blocks, nodes, h, k, id);
    var i := MainChainMaturity(c, j);
    var reward := Create(id, Coinbase(g, false));
    assert Performs(SavedAt(blocks, nodes, g), 0, reward);
    HistoryRead(blocks, nodes, reward);
    var m :| 0 <= m < |acts| && acts[m] == reward;
    assert m == i;
  }

  /** No output is spent by two transactions of the main chain of a good state. */
  lemma SpentByOne(c: ChainState, h: nat, k: nat, h': nat, k': nat, id: Hash)
    requires Good(c) && UniqueAt(c.tree, c.best) && h < |Path(c.best)| && h' < |Path(c.best)|
    requires SpendsAt(SavedAt(c.tree.blocks, Path(c.best), h), k, id)
    requires SpendsAt(SavedAt(c.tree.blocks, Path(c.best), h'), k', id)
    ensures h == h' && k == k'
  {
    if Earlier(h', k', h, k) {
      NotSpentBefore(c, h, k, h', k', id);
    } else if Earlier(h, k, h', k') {
      NotSpentBefore(c, h', k', h, k, id);
    }
  }

  lemma NotSpentBefore(c: ChainState, h: nat, k: nat, h': nat, k': nat, id: Hash)
    requires Good(c) && UniqueAt(c.tree, c.best) && h < |Path(c.best)| && h' < |Path(c.best)|
    requires SpendsAt(SavedAt(c.tree.blocks, Path(c.best), h), k, id) && Earlier(h', k', h, k)
    ensures !SpendsAt(SavedAt(c.tree.blocks, Path(c.best), h'), k', id)
  {
    hide Path, History, DoAll, Shape;
    var blocks, nodes := c.tree.blocks, Path(c.best);
    var before := SavedAt(blocks, nodes, h');
    if SpendsAt(before, k', id) {
      var j := SpendPosition(blocks, nodes, h, k, id);
      var a := Spend(id, before.block.header.height);
      assert Performs(before, k', a);
      BeforeRead(blocks, nodes, h, k, a);
      var i :| 0 <= i < |Before(blocks, nodes, h, k)| && Before(blocks, nodes, h, k)[i] == a;
      MainChainSpends(c, i, j);
    }
  }

  /** In a good state an output can be spent exactly if some transaction of the main chain created it and none has
      spent it. */
  lemma SpendableOnMain(c: ChainState, id: Hash)
    requires Good(c) && UniqueAt(c.tree, c.best)
    ensures var blocks, nodes := c.tree.blocks, Path(c.best);
            Spendable(c.utxos, id) <==>
            && (exists h, k :: 0 <= h < |nodes| && 0 <= k && CreatesAt(SavedAt(blocks, nodes, h), k, id))
            && !(exists h, k :: 0 <= h < |nodes| && 0 <= k && SpendsAt(SavedAt(blocks, nodes, h), k, id))
  {
    hide Path, History, DoAll, Shape;
    var blocks, nodes := c.tree.blocks, Path(c.best);
    SpendableExactly(c, id);
    forall a {
      HistoryRead(blocks, nodes, a);
    }
    if h, k :| 0 <= h < |nodes| && 0 <= k && CreatesAt(SavedAt(blocks, nodes, h), k, id) {
      var s := SavedAt(blocks, nodes, h);
      assert Performs(s, k, Create(id, NewCoin(s, k)));
    }
    if h, k :| 0 <= h < |nodes| && 0 <= k && SpendsAt(SavedAt(blocks, nodes, h), k, id) {
      var s := SavedAt(blocks, nodes, h);
      assert Performs(s, k, Spend(id, s.block.header.height));
    }
  }
}
