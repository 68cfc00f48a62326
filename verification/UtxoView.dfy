// protocol/state/utxo_view.go: the view of the unspent outputs that a block is
// applied to or detached from.  Each class method is proved against a function
// on the entry map; the chain-level lemmas use those functions.
module UtxoView {
  import opened Wrappers
  import opened Bc

  const COINBASE_PENDING_BLOCK_NUMBER := 10

  datatype UtxoEntry = UtxoEntry(isCoinbase: bool, blockHeight: nat, spent: bool)

  type Entries = map<Hash, UtxoEntry>

  datatype ViewError =
    | MissingEntry
    | UtxoNotFound
    | UtxoSpent
    | CoinbaseImmature
    | RevertUnspent
    | StatusOutOfRange

  /** A gas-only transaction moves outputs of the native asset and no others. */
  predicate Moves(e: Entry, statusFail: bool) {
    e.Output? && (statusFail ==> e.native)
  }

  predicate IsCoinbaseTx(block: Block, tx: Tx) {
    |block.transactions| > 0 && block.transactions[0].id == tx.id
  }

  // ---------------------------------------------------------------- applying

  function SpendOne(es: Entries, height: nat, tx: Tx, statusFail: bool, id: Hash): Result<Entries, ViewError> {
    match tx.FindOutput(id)
    case None => Err(MissingEntry)
    case Some(out) =>
      if !Moves(out, statusFail) then Ok(es)
      else if id !in es then Err(UtxoNotFound)
      else if es[id].spent then Err(UtxoSpent)
      else if es[id].isCoinbase && es[id].blockHeight + COINBASE_PENDING_BLOCK_NUMBER > height
        then Err(CoinbaseImmature)
      else Ok(es[id := es[id].(spent := true)])
  }

  function SpendAll(es: Entries, height: nat, tx: Tx, statusFail: bool, ids: seq<Hash>): Result<Entries, ViewError> {
    if ids == [] then Ok(es)
    else
      var es' :- SpendAll(es, height, tx, statusFail, ids[..|ids| - 1]);
      SpendOne(es', height, tx, statusFail, ids[|ids| - 1])
  }

  function CreateOne(es: Entries, entry: UtxoEntry, tx: Tx, statusFail: bool, id: Hash): Entries {
    match tx.FindOutput(id)
    case None => es
    case Some(out) => if Moves(out, statusFail) then es[id := entry] else es
  }

  function CreateAll(es: Entries, entry: UtxoEntry, tx: Tx, statusFail: bool, ids: seq<Hash>): Entries {
    if ids == [] then es
    else CreateOne(CreateAll(es, entry, tx, statusFail, ids[..|ids| - 1]), entry, tx, statusFail, ids[|ids| - 1])
  }

  function ApplyTx(es: Entries, block: Block, tx: Tx, statusFail: bool): Result<Entries, ViewError> {
    var es' :- SpendAll(es, block.header.height, tx, statusFail, tx.spentOutputIds);
    Ok(CreateAll(es', UtxoEntry(IsCoinbaseTx(block, tx), block.header.height, false), tx, statusFail, tx.resultIds))
  }

  function ApplyTxs(es: Entries, block: Block, status: TxStatus, n: nat): Result<Entries, ViewError>
    requires n <= |block.transactions|
  {
    if n == 0 then Ok(es)
    else
      var es' :- ApplyTxs(es, block, status, n - 1);
      if n - 1 >= |status| then Err(StatusOutOfRange)
      else ApplyTx(es', block, block.transactions[n - 1], status[n - 1])
  }

  // --------------------------------------------------------------- detaching

  function UnspendOne(es: Entries, tx: Tx, statusFail: bool, id: Hash): Result<Entries, ViewError> {
    match tx.FindOutput(id)
    case None => Err(MissingEntry)
    case Some(out) =>
      if !Moves(out, statusFail) then Ok(es)
      else if id !in es then Ok(es[id := UtxoEntry(false, 0, false)])
      else if !es[id].spent then Err(RevertUnspent)
      else Ok(es[id := es[id].(spent := false)])
  }

  function UnspendAll(es: Entries, tx: Tx, statusFail: bool, ids: seq<Hash>): Result<Entries, ViewError> {
    if ids == [] then Ok(es)
    else
      var es' :- UnspendAll(es, tx, statusFail, ids[..|ids| - 1]);
      UnspendOne(es', tx, statusFail, ids[|ids| - 1])
  }

  function DetachTx(es: Entries, tx: Tx, statusFail: bool): Result<Entries, ViewError> {
    var es' :- UnspendAll(es, tx, statusFail, tx.spentOutputIds);
    Ok(CreateAll(es', UtxoEntry(false, 0, true), tx, statusFail, tx.resultIds))
  }

  function DetachTxs(es: Entries, block: Block, status: TxStatus, n: nat): Result<Entries, ViewError>
    requires n <= |block.transactions|
  {
    if n == 0 then Ok(es)
    else
      var es' :- DetachTxs(es, block, status, n - 1);
      if n - 1 >= |status| then Err(StatusOutOfRange)
      else DetachTx(es', block.transactions[n - 1], status[n - 1])
  }

  function ApplyBlock(es: Entries, block: Block, status: TxStatus): Result<Entries, ViewError> {
    ApplyTxs(es, block, status, |block.transactions|)
  }

  function DetachBlock(es: Entries, block: Block, status: TxStatus): Result<Entries, ViewError> {
    DetachTxs(es, block, status, |block.transactions|)
  }

  lemma ApplyTxsFailurePersists(es: Entries, block: Block, status: TxStatus, m: nat, n: nat)
    requires m <= n <= |block.transactions|
    requires ApplyTxs(es, block, status, m).Err?
    ensures ApplyTxs(es, block, status, n) == ApplyTxs(es, block, status, m)
  {
  }

  lemma DetachTxsFailurePersists(es: Entries, block: Block, status: TxStatus, m: nat, n: nat)
    requires m <= n <= |block.transactions|
    requires DetachTxs(es, block, status, m).Err?
    ensures DetachTxs(es, block, status, n) == DetachTxs(es, block, status, m)
  {
  }

  lemma SpendAllFailurePersists(es: Entries, height: nat, tx: Tx, statusFail: bool, ids: seq<Hash>, m: nat)
    requires m <= |ids|
    requires SpendAll(es, height, tx, statusFail, ids[..m]).Err?
    ensures SpendAll(es, height, tx, statusFail, ids) == SpendAll(es, height, tx, statusFail, ids[..m])
  {
    if m < |ids| {
      assert ids[..|ids| - 1][..m] == ids[..m];
      SpendAllFailurePersists(es, height, tx, statusFail, ids[..|ids| - 1], m);
    } else {
      assert ids[..m] == ids;
    }
  }

  lemma UnspendAllFailurePersists(es: Entries, tx: Tx, statusFail: bool, ids: seq<Hash>, m: nat)
    requires m <= |ids|
    requires UnspendAll(es, tx, statusFail, ids[..m]).Err?
    ensures UnspendAll(es, tx, statusFail, ids) == UnspendAll(es, tx, statusFail, ids[..m])
  {
    if m < |ids| {
      assert ids[..|ids| - 1][..m] == ids[..m];
      UnspendAllFailurePersists(es, tx, statusFail, ids[..|ids| - 1], m);
    } else {
      assert ids[..m] == ids;
    }
  }

  /** The mutable view.  A failing method may leave the entries half updated. */
  class UtxoViewpoint {
    var entries: Entries

    constructor ()
      ensures entries == map[]
    {
      entries := map[];
    }

    method CanSpend(hash: Hash) returns (r: bool)
      ensures r <==> hash in entries && !entries[hash].spent
    {
      r := hash in entries && !entries[hash].spent;
    }

    method ApplyTransaction(block: Block, tx: Tx, statusFail: bool) returns (err: Option<ViewError>)
      modifies this
      ensures err.None? ==> ApplyTx(old(entries), block, tx, statusFail) == Ok(entries)
      ensures err.Some? ==> ApplyTx(old(entries), block, tx, statusFail) == Err(err.value)
    {
      var ids := tx.spentOutputIds;
      for i := 0 to |ids|
        invariant SpendAll(old(entries), block.header.height, tx, statusFail, ids[..i]) == Ok(entries)
      {
        assert ids[..i + 1][..i] == ids[..i];
        var out := tx.FindOutput(ids[i]);
        var failure := None;
        if out.None? {
          failure := Some(MissingEntry);
        } else if Moves(out.value, statusFail) {
          if ids[i] !in entries {
            failure := Some(UtxoNotFound);
          } else if entries[ids[i]].spent {
            failure := Some(UtxoSpent);
          } else if entries[ids[i]].isCoinbase
                    && entries[ids[i]].blockHeight + COINBASE_PENDING_BLOCK_NUMBER > block.header.height {
            failure := Some(CoinbaseImmature);
          } else {
            entries := entries[ids[i] := entries[ids[i]].(spent := true)];
          }
        }
        if failure.Some? {
          SpendAllFailurePersists(old(entries), block.header.height, tx, statusFail, ids, i + 1);
          return failure;
        }
      }
      assert ids[..|ids|] == ids;

      ghost var spent := entries;
      var entry := UtxoEntry(IsCoinbaseTx(block, tx), block.header.height, false);
      for i := 0 to |tx.resultIds|
        invariant entries == CreateAll(spent, entry, tx, statusFail, tx.resultIds[..i])
      {
        assert tx.resultIds[..i + 1][..i] == tx.resultIds[..i];
        var out := tx.FindOutput(tx.resultIds[i]);
        if out.Some? && Moves(out.value, statusFail) {
          entries := entries[tx.resultIds[i] := entry];
        }
      }
      assert tx.resultIds[..|tx.resultIds|] == tx.resultIds;
      return None;
    }

    method Apply(block: Block, status: TxStatus) returns (err: Option<ViewError>)
      modifies this
      ensures err.None? ==> ApplyBlock(old(entries), block, status) == Ok(entries)
      ensures err.Some? ==> ApplyBlock(old(entries), block, status) == Err(err.value)
    {
      var n := |block.transactions|;
      for i := 0 to n
        invariant ApplyTxs(old(entries), block, status, i) == Ok(entries)
      {
        if i >= |status| {
          ApplyTxsFailurePersists(old(entries), block, status, i + 1, n);
          return Some(StatusOutOfRange);
        }
        err := ApplyTransaction(block, block.transactions[i], status[i]);
        if err.Some? {
          ApplyTxsFailurePersists(old(entries), block, status, i + 1, n);
          return;
        }
      }
      return None;
    }

    method DetachTransaction(tx: Tx, statusFail: bool) returns (err: Option<ViewError>)
      modifies this
      ensures err.None? ==> DetachTx(old(entries), tx, statusFail) == Ok(entries)
      ensures err.Some? ==> DetachTx(old(entries), tx, statusFail) == Err(err.value)
    {
      var ids := tx.spentOutputIds;
      for i := 0 to |ids|
        invariant UnspendAll(old(entries), tx, statusFail, ids[..i]) == Ok(entries)
      {
        assert ids[..i + 1][..i] == ids[..i];
        var out := tx.FindOutput(ids[i]);
        var failure := None;
        if out.None? {
          failure := Some(MissingEntry);
        } else if Moves(out.value, statusFail) {
          if ids[i] in entries && !entries[ids[i]].spent {
            failure := Some(RevertUnspent);
          } else if ids[i] !in entries {
            entries := entries[ids[i] := UtxoEntry(false, 0, false)];
          } else {
            entries := entries[ids[i] := entries[ids[i]].(spent := false)];
          }
        }
        if failure.Some? {
          UnspendAllFailurePersists(old(entries), tx, statusFail, ids, i + 1);
          return failure;
        }
      }
      assert ids[..|ids|] == ids;

      ghost var unspent := entries;
      var entry := UtxoEntry(false, 0, true);
      for i := 0 to |tx.resultIds|
        invariant entries == CreateAll(unspent, entry, tx, statusFail, tx.resultIds[..i])
      {
        assert tx.resultIds[..i + 1][..i] == tx.resultIds[..i];
        var out := tx.FindOutput(tx.resultIds[i]);
        if out.Some? && Moves(out.value, statusFail) {
          entries := entries[tx.resultIds[i] := entry];
        }
      }
      assert tx.resultIds[..|tx.resultIds|] == tx.resultIds;
      return None;
    }

    method Detach(block: Block, status: TxStatus) returns (err: Option<ViewError>)
      modifies this
      ensures err.None? ==> DetachBlock(old(entries), block, status) == Ok(entries)
      ensures err.Some? ==> DetachBlock(old(entries), block, status) == Err(err.value)
    {
      var n := |block.transactions|;
      for i := 0 to n
        invariant DetachTxs(old(entries), block, status, i) == Ok(entries)
      {
        if i >= |status| {
          DetachTxsFailurePersists(old(entries), block, status, i + 1, n);
          return Some(StatusOutOfRange);
        }
        err := DetachTransaction(block.transactions[i], status[i]);
        if err.Some? {
          DetachTxsFailurePersists(old(entries), block, status, i + 1, n);
          return;
        }
      }
      return None;
    }
  }
}
