// What applying and detaching one transaction does to every entry of a view, and
// exactly when it is refused, read off the transaction.
module ViewEffects {
  import opened Wrappers
  import opened Bc
  import opened UtxoView

  /** The transaction has the output, and, if only its gas part is executed, the output is native. */
  predicate Affects(tx: Tx, gasOnly: bool, id: Hash) {
    id in tx.entries && tx.entries[id].Output? && (gasOnly ==> tx.entries[id].native)
  }

  /** The listed ids are all outputs of the transaction, and none that is affected is listed twice. */
  predicate Listable(tx: Tx, gasOnly: bool, ids: seq<Hash>) {
    && (forall i :: 0 <= i < |ids| ==> Affects(tx, false, ids[i]))
    && (forall i, j :: 0 <= i < j < |ids| && ids[i] == ids[j] ==> !Affects(tx, gasOnly, ids[i]))
  }

  predicate Listed(tx: Tx, gasOnly: bool, ids: seq<Hash>, id: Hash) {
    id in ids && Affects(tx, gasOnly, id)
  }

  lemma ListableSnoc(tx: Tx, gasOnly: bool, ids: seq<Hash>)
    requires ids != []
    ensures var init, last := ids[..|ids| - 1], ids[|ids| - 1];
            && (Listable(tx, gasOnly, ids) <==>
                Listable(tx, gasOnly, init) && Affects(tx, false, last) && !Listed(tx, gasOnly, init, last))
            && (forall id :: Listed(tx, gasOnly, ids, id) ==>
                  Listed(tx, gasOnly, init, id) || (id == last && Affects(tx, gasOnly, id)))
            && (forall id :: Listed(tx, gasOnly, init, id) ==> Listed(tx, gasOnly, ids, id))
            && (Listed(tx, gasOnly, ids, last) <==> Affects(tx, gasOnly, last))
  {
    var init, last := ids[..|ids| - 1], ids[|ids| - 1];
    assert ids == init + [last];
  }

  /** A present entry, not spent, and ten blocks old if it is a reward. */
  predicate Ripe(es: Entries, height: nat, id: Hash) {
    id in es && !es[id].spent && (es[id].isCoinbase ==> es[id].blockHeight + 10 <= height)
  }

  lemma {:induction false} SpendAllExactly(es: Entries, height: nat, tx: Tx, gasOnly: bool, ids: seq<Hash>)
    ensures var r := SpendAll(es, height, tx, gasOnly, ids);
            && (r.Ok? <==>
                Listable(tx, gasOnly, ids) && forall id :: Listed(tx, gasOnly, ids, id) ==> Ripe(es, height, id))
            && (r.Ok? ==>
                  && r.value.Keys == es.Keys
                  && forall id :: id in es ==>
                       r.value[id] == es[id].(spent := es[id].spent || Listed(tx, gasOnly, ids, id)))
  {
    hide Listable, Listed, Affects;
    if ids == [] {
      NothingListed(tx, gasOnly);
    } else {
      var init, last := ids[..|ids| - 1], ids[|ids| - 1];
      ListableSnoc(tx, gasOnly, ids);
      SpendAllExactly(es, height, tx, gasOnly, init);
      OutputsAffected(tx, gasOnly, last);
    }
  }

  lemma NothingListed(tx: Tx, gasOnly: bool)
    ensures Listable(tx, gasOnly, []) && forall id :: !Listed(tx, gasOnly, [], id)
  {
  }

  lemma OutputsAffected(tx: Tx, gasOnly: bool, id: Hash)
    ensures var out := tx.FindOutput(id);
            (out.Some? <==> Affects(tx, false, id)) &&
            (Affects(tx, gasOnly, id) <==> out.Some? && Moves(out.value, gasOnly))
  {
  }

  lemma {:induction false} CreateAllExactly(es: Entries, entry: UtxoEntry, tx: Tx, gasOnly: bool, ids: seq<Hash>)
    ensures var r := CreateAll(es, entry, tx, gasOnly, ids);
            && (forall id :: id in r <==> id in es || Listed(tx, gasOnly, ids, id))
            && (forall id :: id in r ==> r[id] == if Listed(tx, gasOnly, ids, id) then entry else es[id])
  {
    hide Listable, Listed, Affects;
    if ids == [] {
      NothingListed(tx, gasOnly);
    } else {
      ListableSnoc(tx, gasOnly, ids);
      CreateAllExactly(es, entry, tx, gasOnly, ids[..|ids| - 1]);
      OutputsAffected(tx, gasOnly, ids[|ids| - 1]);
    }
  }

  /** The entry of an output after its transaction has been applied. */
  function Applied(es: Entries, block: Block, tx: Tx, gasOnly: bool, id: Hash): Option<UtxoEntry> {
    if Listed(tx, gasOnly, tx.resultIds, id) then
      Some(UtxoEntry(block.transactions != [] && tx.id == block.transactions[0].id, block.header.height, false))
    else if id !in es then None
    else Some(es[id].(spent := es[id].spent || Listed(tx, gasOnly, tx.spentOutputIds, id)))
  }

  /** A transaction is applied exactly if each output it spends is one of its own entries and ripe, and none is spent
      twice; then exactly its spent outputs are marked and its results are entered. */
  lemma ApplyTxExactly(es: Entries, block: Block, tx: Tx, gasOnly: bool)
    ensures var r, h := ApplyTx(es, block, tx, gasOnly), block.header.height;
            && (r.Ok? <==>
                && Listable(tx, gasOnly, tx.spentOutputIds)
                && forall id :: Listed(tx, gasOnly, tx.spentOutputIds, id) ==> Ripe(es, h, id))
            && (r.Ok? ==>
                  forall id :: Applied(es, block, tx, gasOnly, id) == if id in r.value then Some(r.value[id]) else None)
  {
    hide SpendAll, CreateAll, Listable, Listed, Ripe;
    SpendAllExactly(es, block.header.height, tx, gasOnly, tx.spentOutputIds);
    var spent := SpendAll(es, block.header.height, tx, gasOnly, tx.spentOutputIds);
    if spent.Ok? {
      var entry := UtxoEntry(IsCoinbaseTx(block, tx), block.header.height, false);
      CreateAllExactly(spent.value, entry, tx, gasOnly, tx.resultIds);
    }
  }

  lemma {:induction false} UnspendAllExactly(es: Entries, tx: Tx, gasOnly: bool, ids: seq<Hash>)
    ensures var r := UnspendAll(es, tx, gasOnly, ids);
            && (r.Ok? <==>
                && Listable(tx, gasOnly, ids)
                && forall id :: Listed(tx, gasOnly, ids, id) && id in es ==> es[id].spent)
            && (r.Ok? ==>
                  && (forall id :: id in r.value <==> id in es || Listed(tx, gasOnly, ids, id))
                  && (forall id :: id in r.value ==> r.value[id] == Revived(es, tx, gasOnly, ids, id)))
  {
    hide Listable, Listed, Affects;
    if ids == [] {
      NothingListed(tx, gasOnly);
    } else {
      ListableSnoc(tx, gasOnly, ids);
      UnspendAllExactly(es, tx, gasOnly, ids[..|ids| - 1]);
      OutputsAffected(tx, gasOnly, ids[|ids| - 1]);
    }
  }

  /** An output that is spent no longer; if it was not there, it comes back as a plain output of height 0. */
  function Revived(es: Entries, tx: Tx, gasOnly: bool, ids: seq<Hash>, id: Hash): UtxoEntry {
    if id !in es then UtxoEntry(false, 0, false)
    else es[id].(spent := es[id].spent && !Listed(tx, gasOnly, ids, id))
  }

  /** The entry of an output after its transaction has been detached. */
  function Detached(es: Entries, tx: Tx, gasOnly: bool, id: Hash): Option<UtxoEntry> {
    if Listed(tx, gasOnly, tx.resultIds, id) then Some(UtxoEntry(false, 0, true))
    else if id in es || Listed(tx, gasOnly, tx.spentOutputIds, id)
      then Some(Revived(es, tx, gasOnly, tx.spentOutputIds, id))
    else None
  }

  /** A transaction is detached exactly if each output it spends is one of its own entries and, if present, spent, and
      none is listed twice; then exactly its spent outputs are revived and its results are marked spent. */
  lemma DetachTxExactly(es: Entries, tx: Tx, gasOnly: bool)
    ensures var r := DetachTx(es, tx, gasOnly);
            && (r.Ok? <==>
                && Listable(tx, gasOnly, tx.spentOutputIds)
                && forall id :: Listed(tx, gasOnly, tx.spentOutputIds, id) && id in es ==> es[id].spent)
            && (r.Ok? ==>
                  forall id :: Detached(es, tx, gasOnly, id) == if id in r.value then Some(r.value[id]) else None)
  {
    hide UnspendAll, CreateAll, Listable, Listed;
    UnspendAllExactly(es, tx, gasOnly, tx.spentOutputIds);
    var unspent := UnspendAll(es, tx, gasOnly, tx.spentOutputIds);
    if unspent.Ok? {
      CreateAllExactly(unspent.value, UtxoEntry(false, 0, true), tx, gasOnly, tx.resultIds);
    }
  }
}
