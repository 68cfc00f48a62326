// database/leveldb/utxo_view.go: filling a view from the stored outputs and
// writing it back.  A stored output may be missing from the view until some
// transaction needs it, and a spent output is deleted unless it is a coinbase.
module UtxoStore {
  import opened Wrappers
  import opened Bc
  import opened UtxoView
  import opened Ledger

  function Elements(ids: seq<Hash>): set<Hash> {
    set id | id in ids
  }

  function SpentIds(txs: seq<Tx>): (r: set<Hash>)
    ensures forall id :: id in r <==> exists k :: 0 <= k < |txs| && id in txs[k].spentOutputIds
  {
    set k, id | 0 <= k < |txs| && id in txs[k].spentOutputIds :: id
  }

  /** The view after loading the stored outputs among `ids` that it does not have yet. */
  function LoadIds(stored: Entries, es: Entries, ids: set<Hash>): Entries {
    map id | id in es.Keys + (ids * stored.Keys) :: if id in es then es[id] else stored[id]
  }

  /** The view after loading every stored output that the transactions spend. */
  function Load(stored: Entries, es: Entries, txs: seq<Tx>): Entries {
    LoadIds(stored, es, SpentIds(txs))
  }

  /** Only a spent plain output is deleted. */
  predicate Kept(e: UtxoEntry) {
    e.spent ==> e.isCoinbase
  }

  /** The stored outputs after saving the view. */
  function Save(stored: Entries, es: Entries): Entries {
    map id | id in stored.Keys + es.Keys && (id in es ==> Kept(es[id])) :: if id in es then es[id] else stored[id]
  }

  lemma SpentIdsSnoc(txs: seq<Tx>, k: nat)
    requires k < |txs|
    ensures SpentIds(txs[..k + 1]) == SpentIds(txs[..k]) + Elements(txs[k].spentOutputIds)
  {
    var longer, shorter := txs[..k + 1], txs[..k];
    assert forall j :: 0 <= j < k ==> longer[j] == shorter[j];
    assert longer[k] == txs[k];
  }

  lemma LoadOneMore(stored: Entries, es: Entries, ids: set<Hash>, id: Hash)
    ensures LoadIds(stored, es, ids + {id}) ==
            var r := LoadIds(stored, es, ids); if id !in r && id in stored then r[id := stored[id]] else r
  {
  }

  lemma LoadMore(stored: Entries, es: Entries, ids: set<Hash>, more: set<Hash>)
    ensures LoadIds(stored, LoadIds(stored, es, ids), more) == LoadIds(stored, es, ids + more)
  {
  }

  method LoadTransaction(stored: Entries, es: Entries, tx: Tx) returns (r: Entries)
    ensures r == LoadIds(stored, es, Elements(tx.spentOutputIds))
  {
    r := es;
    var ids := tx.spentOutputIds;
    for i := 0 to |ids|
      invariant r == LoadIds(stored, es, Elements(ids[..i]))
    {
      LoadOneMore(stored, es, Elements(ids[..i]), ids[i]);
      assert Elements(ids[..i + 1]) == Elements(ids[..i]) + {ids[i]};
      if ids[i] !in r && ids[i] in stored {
        r := r[ids[i] := stored[ids[i]]];
      }
    }
    assert ids[..|ids|] == ids;
  }

  method GetTransactionsUtxo(stored: Entries, view: UtxoViewpoint, txs: seq<Tx>)
    modifies view
    ensures view.entries == Load(stored, old(view.entries), txs)
    ensures forall id :: id in view.entries <==>
              id in old(view.entries) || (id in stored && exists k :: 0 <= k < |txs| && id in txs[k].spentOutputIds)
    ensures forall id :: id in view.entries ==>
              view.entries[id] == if id in old(view.entries) then old(view.entries)[id] else stored[id]
  {
    ghost var es := view.entries;
    for k := 0 to |txs|
      invariant view.entries == Load(stored, es, txs[..k])
    {
      SpentIdsSnoc(txs, k);
      LoadMore(stored, es, SpentIds(txs[..k]), Elements(txs[k].spentOutputIds));
      view.entries := LoadTransaction(stored, view.entries, txs[k]);
    }
    assert txs[..|txs|] == txs;
  }

  /** One write batch: an entry to set, or None to delete. */
  type Batch = map<Hash, Option<UtxoEntry>>

  function Write(stored: Entries, batch: Batch): Entries {
    map id | id in stored.Keys + batch.Keys && (id in batch ==> batch[id].Some?) ::
      if id in batch then batch[id].value else stored[id]
  }

  function BatchOf(es: Entries, keys: set<Hash>): Batch {
    map id | id in keys && id in es :: if Kept(es[id]) then Some(es[id]) else None
  }

  lemma BatchOneMore(es: Entries, done: set<Hash>, key: Hash)
    requires key in es
    ensures BatchOf(es, done + {key}) == BatchOf(es, done)[key := if Kept(es[key]) then Some(es[key]) else None]
  {
  }

  lemma WriteAll(stored: Entries, es: Entries)
    ensures Write(stored, BatchOf(es, es.Keys)) == Save(stored, es)
  {
  }

  method SaveUtxoView(stored: Entries, es: Entries) returns (r: Entries)
    ensures r == Save(stored, es)
    ensures forall id :: id in r <==> if id in es then es[id].spent ==> es[id].isCoinbase else id in stored
    ensures forall id :: id in r ==> r[id] == if id in es then es[id] else stored[id]
  {
    var batch: Batch := map[];
    var keys := es.Keys;
    while keys != {}
      invariant keys <= es.Keys
      invariant batch == BatchOf(es, es.Keys - keys)
      decreases |keys|
    {
      var key :| key in keys;
      BatchOneMore(es, es.Keys - keys, key);
      if es[key].spent && !es[key].isCoinbase {
        batch := batch[key := None];
      } else {
        batch := batch[key := Some(es[key])];
      }
      assert es.Keys - (keys - {key}) == (es.Keys - keys) + {key};
      keys := keys - {key};
    }
    assert es.Keys - keys == es.Keys;
    WriteAll(stored, es);
    r := Write(stored, batch);
  }

  // ------------------------------------------------- meaning of entries

  function CoinOf(e: UtxoEntry): Coin {
    if e.isCoinbase then Coinbase(e.blockHeight, e.spent) else Plain
  }

  /** What an entry map says about outputs; heights of plain outputs are not observable. */
  function Meaning(es: Entries): Coins {
    map id | id in es && Kept(es[id]) :: CoinOf(es[id])
  }

  lemma SaveKeepsMeaning(stored: Entries, es: Entries)
    ensures Meaning(Save(stored, es)) == Meaning(stored + es)
  {
  }

  // --------------------------------------------- a block as a list of actions

  function SpendActions(height: nat, tx: Tx, statusFail: bool, ids: seq<Hash>): Option<seq<Action>> {
    if ids == [] then Some([])
    else
      match (SpendActions(height, tx, statusFail, ids[..|ids| - 1]), tx.FindOutput(ids[|ids| - 1]))
      case (Some(acts), Some(out)) =>
        if Moves(out, statusFail) then Some(acts + [Spend(ids[|ids| - 1], height)]) else Some(acts)
      case _ => None
  }

  function CreateActions(coin: Coin, tx: Tx, statusFail: bool, ids: seq<Hash>): seq<Action> {
    if ids == [] then []
    else
      var acts := CreateActions(coin, tx, statusFail, ids[..|ids| - 1]);
      var out := tx.FindOutput(ids[|ids| - 1]);
      if out.Some? && Moves(out.value, statusFail) then acts + [Create(ids[|ids| - 1], coin)] else acts
  }

  function OutputCoin(block: Block, tx: Tx): Coin {
    if IsCoinbaseTx(block, tx) then Coinbase(block.header.height, false) else Plain
  }

  function TxActions(block: Block, tx: Tx, statusFail: bool): Option<seq<Action>> {
    match SpendActions(block.header.height, tx, statusFail, tx.spentOutputIds)
    case None => None
    case Some(acts) => Some(acts + CreateActions(OutputCoin(block, tx), tx, statusFail, tx.resultIds))
  }

  /** One list after the other, when both exist. */
  function Join(a: Option<seq<Action>>, b: Option<seq<Action>>): Option<seq<Action>> {
    if a.Some? && b.Some? then Some(a.value + b.value) else None
  }

  function TxsActions(block: Block, status: TxStatus, n: nat): Option<seq<Action>>
    requires n <= |block.transactions|
  {
    if n == 0 then Some([])
    else if n - 1 >= |status| then None
    else Join(TxsActions(block, status, n - 1), TxActions(block, block.transactions[n - 1], status[n - 1]))
  }

  /** The spends and creations of a block in order, or None when its transactions are malformed. */
  function BlockActions(block: Block, status: TxStatus): Option<seq<Action>> {
    TxsActions(block, status, |block.transactions|)
  }

  function InvertOption(acts: Option<seq<Action>>): Option<seq<Action>> {
    match acts
    case None => None
    case Some(a) => Some(InvertAll(a))
  }

  // ------------------------------------- the view simulates the reference

  /** Running on the view and running the actions on the reference accept together and agree. */
  predicate Simulates(stored: Entries, es: Entries, r: Result<Entries, ViewError>, acts: Option<seq<Action>>) {
    var spec := if acts.None? then None else DoAll(Meaning(stored + es), acts.value);
    && (r.Ok? <==> spec.Some?)
    && (r.Ok? ==> spec.value == Meaning(stored + r.value) && es.Keys <= r.value.Keys)
  }

  /** Every stored output among `ids` is already in the view. */
  predicate Covers(stored: Entries, es: Entries, ids: set<Hash>) {
    forall id :: id in ids && id in stored ==> id in es
  }

  lemma SimulatesThen(stored: Entries, es: Entries, mid: Entries, first: seq<Action>,
                      r: Result<Entries, ViewError>, second: seq<Action>)
    requires Simulates(stored, es, Ok(mid), Some(first))
    requires Simulates(stored, mid, r, Some(second))
    ensures Simulates(stored, es, r, Some(first + second))
  {
    DoAllConcat(Meaning(stored + es), first, second);
  }

  lemma OneAction(c: Coins, a: Action)
    ensures DoAll(c, [a]) == Do(c, a)
  {
    assert [a][..0] == [];
  }

  lemma UpdateMeaning(stored: Entries, es: Entries, id: Hash, e: UtxoEntry)
    ensures Meaning(stored + es[id := e]) ==
            Put(Meaning(stored + es), id, if Kept(e) then Some(CoinOf(e)) else None)
  {
    var c, d := Meaning(stored + es[id := e]), Put(Meaning(stored + es), id, if Kept(e) then Some(CoinOf(e)) else None);
    assert stored + es[id := e] == (stored + es)[id := e];
    forall x
      ensures Get(c, x) == Get(d, x)
    {
    }
    CoinsEqual(c, d);
  }

  lemma SpendOneSimulates(stored: Entries, es: Entries, height: nat, tx: Tx, statusFail: bool, id: Hash)
    requires Covers(stored, es, {id})
    requires tx.FindOutput(id).Some? && Moves(tx.FindOutput(id).value, statusFail)
    ensures Simulates(stored, es, SpendOne(es, height, tx, statusFail, id), Some([Spend(id, height)]))
  {
    OneAction(Meaning(stored + es), Spend(id, height));
    if id in es {
      UpdateMeaning(stored, es, id, es[id].(spent := true));
    }
  }

  lemma UnspendOneSimulates(stored: Entries, es: Entries, tx: Tx, statusFail: bool, id: Hash)
    requires Covers(stored, es, {id})
    requires tx.FindOutput(id).Some? && Moves(tx.FindOutput(id).value, statusFail)
    ensures Simulates(stored, es, UnspendOne(es, tx, statusFail, id), Some([Unspend(id)]))
  {
    OneAction(Meaning(stored + es), Unspend(id));
    if id in es {
      UpdateMeaning(stored, es, id, es[id].(spent := false));
    } else {
      UpdateMeaning(stored, es, id, UtxoEntry(false, 0, false));
    }
  }

  lemma {:induction false} SpendAllSimulates(stored: Entries, es: Entries, height: nat, tx: Tx, statusFail: bool,
                                             ids: seq<Hash>)
    requires Covers(stored, es, Elements(ids))
    ensures Simulates(stored, es, SpendAll(es, height, tx, statusFail, ids), SpendActions(height, tx, statusFail, ids))
  {
    if ids != [] {
      var init, id := ids[..|ids| - 1], ids[|ids| - 1];
      SpendAllSimulates(stored, es, height, tx, statusFail, init);
      var r, acts, out := SpendAll(es, height, tx, statusFail, init), SpendActions(height, tx, statusFail, init),
          tx.FindOutput(id);
      if r.Ok? && out.Some? && Moves(out.value, statusFail) {
        SpendOneSimulates(stored, r.value, height, tx, statusFail, id);
        SimulatesThen(stored, es, r.value, acts.value, SpendOne(r.value, height, tx, statusFail, id),
                      [Spend(id, height)]);
      } else if acts.Some? {
        DoAllConcat(Meaning(stored + es), acts.value, [Spend(id, height)]);
      }
    }
  }

  lemma {:induction false} UnspendAllSimulates(stored: Entries, es: Entries, height: nat, tx: Tx, statusFail: bool,
                                               ids: seq<Hash>)
    requires Covers(stored, es, Elements(ids))
    ensures Simulates(stored, es, UnspendAll(es, tx, statusFail, ids),
                      InvertOption(SpendActions(height, tx, statusFail, ids)))
  {
    if ids != [] {
      var init, id := ids[..|ids| - 1], ids[|ids| - 1];
      UnspendAllSimulates(stored, es, height, tx, statusFail, init);
      var r, acts, out := UnspendAll(es, tx, statusFail, init), SpendActions(height, tx, statusFail, init),
          tx.FindOutput(id);
      if acts.Some? && out.Some? && Moves(out.value, statusFail) {
        var undo := InvertAll(acts.value);
        assert InvertAll(acts.value + [Spend(id, height)]) == undo + [Unspend(id)];
        if r.Ok? {
          UnspendOneSimulates(stored, r.value, tx, statusFail, id);
          SimulatesThen(stored, es, r.value, undo, UnspendOne(r.value, tx, statusFail, id), [Unspend(id)]);
        } else {
          DoAllConcat(Meaning(stored + es), undo, [Unspend(id)]);
        }
      }
    }
  }

  lemma {:induction false} CreateAllSimulates(stored: Entries, es: Entries, coin: Coin, entry: UtxoEntry, tx: Tx,
                                              statusFail: bool, ids: seq<Hash>)
    requires Kept(entry) && CoinOf(entry) == coin
    ensures Simulates(stored, es, Ok(CreateAll(es, entry, tx, statusFail, ids)),
                      Some(CreateActions(coin, tx, statusFail, ids)))
  {
    if ids != [] {
      var init, id := ids[..|ids| - 1], ids[|ids| - 1];
      CreateAllSimulates(stored, es, coin, entry, tx, statusFail, init);
      var mid, acts, out := CreateAll(es, entry, tx, statusFail, init), CreateActions(coin, tx, statusFail, init),
          tx.FindOutput(id);
      if out.Some? && Moves(out.value, statusFail) {
        OneAction(Meaning(stored + mid), Create(id, coin));
        UpdateMeaning(stored, mid, id, entry);
        SimulatesThen(stored, es, mid, acts, Ok(mid[id := entry]), [Create(id, coin)]);
      }
    }
  }

  lemma {:induction false} RemoveAllSimulates(stored: Entries, es: Entries, coin: Coin, tx: Tx, statusFail: bool,
                                              ids: seq<Hash>)
    ensures Simulates(stored, es, Ok(CreateAll(es, UtxoEntry(false, 0, true), tx, statusFail, ids)),
                      Some(InvertAll(CreateActions(coin, tx, statusFail, ids))))
  {
    if ids != [] {
      var entry := UtxoEntry(false, 0, true);
      var init, id := ids[..|ids| - 1], ids[|ids| - 1];
      RemoveAllSimulates(stored, es, coin, tx, statusFail, init);
      var mid, acts, out := CreateAll(es, entry, tx, statusFail, init), CreateActions(coin, tx, statusFail, init),
          tx.FindOutput(id);
      if out.Some? && Moves(out.value, statusFail) {
        OneAction(Meaning(stored + mid), Remove(id));
        UpdateMeaning(stored, mid, id, entry);
        SimulatesThen(stored, es, mid, InvertAll(acts), Ok(mid[id := entry]), [Remove(id)]);
        assert InvertAll(acts + [Create(id, coin)]) == InvertAll(acts) + [Remove(id)];
      }
    }
  }

  lemma ApplyTxSimulates(stored: Entries, es: Entries, block: Block, tx: Tx, statusFail: bool)
    requires Covers(stored, es, Elements(tx.spentOutputIds))
    ensures Simulates(stored, es, ApplyTx(es, block, tx, statusFail), TxActions(block, tx, statusFail))
  {
    var h := block.header.height;
    SpendAllSimulates(stored, es, h, tx, statusFail, tx.spentOutputIds);
    var r, acts := SpendAll(es, h, tx, statusFail, tx.spentOutputIds),
        SpendActions(h, tx, statusFail, tx.spentOutputIds);
    var coin := OutputCoin(block, tx);
    var creates := CreateActions(coin, tx, statusFail, tx.resultIds);
    if r.Ok? {
      CreateAllSimulates(stored, r.value, coin, UtxoEntry(IsCoinbaseTx(block, tx), h, false), tx, statusFail,
                         tx.resultIds);
      SimulatesThen(stored, es, r.value, acts.value, ApplyTx(es, block, tx, statusFail), creates);
    } else if acts.Some? {
      DoAllConcat(Meaning(stored + es), acts.value, creates);
    }
  }

  lemma DetachTxSimulates(stored: Entries, es: Entries, block: Block, tx: Tx, statusFail: bool)
    requires Covers(stored, es, Elements(tx.spentOutputIds))
    ensures Simulates(stored, es, DetachTx(es, tx, statusFail), InvertOption(TxActions(block, tx, statusFail)))
  {
    var h := block.header.height;
    UnspendAllSimulates(stored, es, h, tx, statusFail, tx.spentOutputIds);
    var r, acts := UnspendAll(es, tx, statusFail, tx.spentOutputIds),
        SpendActions(h, tx, statusFail, tx.spentOutputIds);
    var coin := OutputCoin(block, tx);
    var creates := CreateActions(coin, tx, statusFail, tx.resultIds);
    if acts.Some? {
      assert InvertAll(acts.value + creates) == InvertAll(acts.value) + InvertAll(creates);
      if r.Ok? {
        RemoveAllSimulates(stored, r.value, coin, tx, statusFail, tx.resultIds);
        SimulatesThen(stored, es, r.value, InvertAll(acts.value), DetachTx(es, tx, statusFail), InvertAll(creates));
      } else {
        DoAllConcat(Meaning(stored + es), InvertAll(acts.value), InvertAll(creates));
      }
    }
  }

  lemma NothingSimulates(stored: Entries, es: Entries)
    ensures Simulates(stored, es, Ok(es), Some([])) && Simulates(stored, es, Ok(es), InvertOption(Some([])))
  {
    assert InvertAll([]) == [];
  }

  lemma {:induction false} ApplyTxsSimulates(stored: Entries, es: Entries, block: Block, status: TxStatus, n: nat)
    requires n <= |block.transactions|
    requires Covers(stored, es, SpentIds(block.transactions))
    ensures Simulates(stored, es, ApplyTxs(es, block, status, n), TxsActions(block, status, n))
  {
    hide ApplyTx, TxActions, DoAll;
    if n == 0 {
      NothingSimulates(stored, es);
    } else {
      ApplyTxsSimulates(stored, es, block, status, n - 1);
      var r, before := ApplyTxs(es, block, status, n - 1), TxsActions(block, status, n - 1);
      if n - 1 < |status| {
        var tx, fail := block.transactions[n - 1], status[n - 1];
        var acts := TxActions(block, tx, fail);
        if r.Ok? {
          ApplyTxSimulates(stored, r.value, block, tx, fail);
          if acts.Some? {
            SimulatesThen(stored, es, r.value, before.value, ApplyTx(r.value, block, tx, fail), acts.value);
          }
        } else if before.Some? && acts.Some? {
          DoAllConcat(Meaning(stored + es), before.value, acts.value);
        }
      }
    }
  }

  lemma {:induction false} DetachTxsSimulates(stored: Entries, es: Entries, block: Block, status: TxStatus, n: nat)
    requires n <= |block.transactions|
    requires Covers(stored, es, SpentIds(block.transactions))
    ensures Simulates(stored, es, DetachTxs(es, block, status, n), InvertOption(TxsActions(block, status, n)))
  {
    hide DetachTx, TxActions, DoAll;
    if n == 0 {
      NothingSimulates(stored, es);
    } else {
      DetachTxsSimulates(stored, es, block, status, n - 1);
      var r, before := DetachTxs(es, block, status, n - 1), TxsActions(block, status, n - 1);
      if n - 1 < |status| {
        var tx, fail := block.transactions[n - 1], status[n - 1];
        var acts := TxActions(block, tx, fail);
        if before.Some? && acts.Some? {
          assert InvertAll(before.value + acts.value) == InvertAll(before.value) + InvertAll(acts.value);
        }
        if r.Ok? {
          DetachTxSimulates(stored, r.value, block, tx, fail);
          if acts.Some? {
            SimulatesThen(stored, es, r.value, InvertAll(before.value), DetachTx(r.value, tx, fail),
                          InvertAll(acts.value));
          }
        } else if before.Some? && acts.Some? {
          DoAllConcat(Meaning(stored + es), InvertAll(before.value), InvertAll(acts.value));
        }
      }
    }
  }

  lemma LoadCovers(stored: Entries, es: Entries, txs: seq<Tx>)
    ensures Covers(stored, Load(stored, es, txs), SpentIds(txs))
    ensures stored + Load(stored, es, txs) == stored + es
  {
  }
}
