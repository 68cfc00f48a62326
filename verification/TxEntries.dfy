// protocol/bc and protocol/bc/types/map.go: a transaction as a graph of entries.
// Inputs send their value to a mux, the mux sends it on to results.
module TxEntries {
  import opened Bc

  datatype Value = Value(asset: Hash, amount: nat)

  /** Where a value comes from: a position among the destinations of an entry. */
  datatype Source = Source(ref: Hash, value: Value, position: nat)

  /** Where a value goes to: a position among the sources of an entry. */
  datatype Destination = Destination(ref: Hash, value: Value, position: nat)

  datatype InputKind = Issuance | Spend | Coinbase | Creation | Call | Contract | Withdrawal

  datatype ResultKind = PlainOutput | Retirement | Deposit

  /** `passes` stands for the checks of an input that look neither at the graph nor at gas: the asset id of an issuance,
      the place and size of a coinbase.  `second` says whether a second program follows, `ready` whether its arguments
      can be built. */
  datatype TxEntry =
    | MuxEntry(sources: seq<Source>, dests: seq<Destination>)
    | ResultEntry(resultKind: ResultKind, source: Source, runs: bool)
    | InputEntry(kind: InputKind, dest: Destination, spent: Hash, passes: bool, second: bool, ready: bool)

  datatype Transaction = Transaction(
    id: Hash,
    version: nat,
    size: nat,
    muxId: Hash,
    resultIds: seq<Hash>,
    gasInputIds: seq<Hash>,
    entries: map<Hash, TxEntry>)

  /** The shape that mapping a transaction produces: one mux, fed by inputs, feeding all results; the inputs that may
      pay for gas are spends and withdrawals. */
  predicate MuxForm(tx: Transaction) {
    && tx.muxId in tx.entries && tx.entries[tx.muxId].MuxEntry?
    && (forall id :: id in tx.entries && tx.entries[id].MuxEntry? ==> id == tx.muxId)
    && (forall i :: 0 <= i < |Mux(tx).sources| ==>
          Mux(tx).sources[i].ref in tx.entries && tx.entries[Mux(tx).sources[i].ref].InputEntry?)
    && (forall r :: r in tx.resultIds ==>
          r in tx.entries && tx.entries[r].ResultEntry? && tx.entries[r].source.ref == tx.muxId)
    && (forall g :: g in tx.gasInputIds && g in tx.entries ==>
          tx.entries[g].InputEntry? && (tx.entries[g].kind == Spend || tx.entries[g].kind == Withdrawal))
  }

  function Mux(tx: Transaction): TxEntry
    requires tx.muxId in tx.entries && tx.entries[tx.muxId].MuxEntry?
  {
    tx.entries[tx.muxId]
  }

  // ----------------------------------------------------- what the checks establish

  /** Source i of the mux and the input it names agree. */
  predicate SourceTied(tx: Transaction, i: nat)
    requires MuxForm(tx) && i < |Mux(tx).sources|
  {
    var s := Mux(tx).sources[i];
    var dest := tx.entries[s.ref].dest;
    s.position == 0 && dest.ref == tx.muxId && dest.position == i && dest.value == s.value
  }

  /** Destination j of the mux and the result it names agree. */
  predicate DestTied(tx: Transaction, j: nat)
    requires MuxForm(tx) && j < |Mux(tx).dests|
  {
    var d := Mux(tx).dests[j];
    && d.ref in tx.entries && tx.entries[d.ref].ResultEntry? && d.position == 0
    && tx.entries[d.ref].source.ref == tx.muxId && tx.entries[d.ref].source.position == j
    && tx.entries[d.ref].source.value == d.value
  }

  predicate MuxTied(tx: Transaction)
    requires MuxForm(tx)
  {
    && (forall i :: 0 <= i < |Mux(tx).sources| ==> SourceTied(tx, i) && SpendExact(tx, Mux(tx).sources[i].ref))
    && (forall j :: 0 <= j < |Mux(tx).dests| ==> DestTied(tx, j))
  }

  /** A result takes its value from the mux destination that names it. */
  predicate ResultTied(tx: Transaction, r: Hash)
    requires MuxForm(tx) && r in tx.resultIds
  {
    var s := tx.entries[r].source;
    s.position < |Mux(tx).dests| && Mux(tx).dests[s.position].ref == r && Mux(tx).dests[s.position].position == 0
    && Mux(tx).dests[s.position].value == s.value
  }

  /** A spend sends on exactly what the output it spends holds. */
  predicate SpendExact(tx: Transaction, id: Hash)
    requires id in tx.entries && tx.entries[id].InputEntry?
  {
    var e := tx.entries[id];
    e.kind == Spend ==>
      && e.spent in tx.entries && tx.entries[e.spent].ResultEntry? && tx.entries[e.spent].resultKind == PlainOutput
      && tx.entries[e.spent].source.value == e.dest.value
  }

  // ------------------------------------------------------------------------- sums

  function Part(v: Value, asset: Hash): nat {
    if v.asset == asset then v.amount else 0
  }

  /** The amount of an asset in the first n sources. */
  function SourceSum(sources: seq<Source>, n: nat, asset: Hash): nat
    requires n <= |sources|
  {
    if n == 0 then 0 else SourceSum(sources, n - 1, asset) + Part(sources[n - 1].value, asset)
  }

  function DestSum(dests: seq<Destination>, n: nat, asset: Hash): nat
    requires n <= |dests|
  {
    if n == 0 then 0 else DestSum(dests, n - 1, asset) + Part(dests[n - 1].value, asset)
  }

  function TotalSources(tx: Transaction, asset: Hash): nat
    requires MuxForm(tx)
  {
    SourceSum(Mux(tx).sources, |Mux(tx).sources|, asset)
  }

  function TotalDests(tx: Transaction, asset: Hash): nat
    requires MuxForm(tx)
  {
    DestSum(Mux(tx).dests, |Mux(tx).dests|, asset)
  }

  /** The value an entry brings in or takes out. */
  function EntryValue(tx: Transaction, id: Hash): Value {
    if id !in tx.entries then Value(0, 0)
    else
      match tx.entries[id]
      case InputEntry(_, dest, _, _, _, _) => dest.value
      case ResultEntry(_, source, _) => source.value
      case MuxEntry(_, _) => Value(0, 0)
  }

  /** The amount of an asset over a set of entries. */
  ghost function Total(tx: Transaction, ids: set<Hash>, asset: Hash): nat {
    if ids == {} then 0
    else
      var id :| id in ids;
      Part(EntryValue(tx, id), asset) + Total(tx, ids - {id}, asset)
  }

  ghost function Inputs(tx: Transaction): set<Hash> {
    set id | id in tx.entries && tx.entries[id].InputEntry?
  }

  ghost function Results(tx: Transaction): set<Hash> {
    set id | id in tx.resultIds
  }

  lemma {:induction false} TotalRemove(tx: Transaction, ids: set<Hash>, x: Hash, asset: Hash)
    requires x in ids
    ensures Total(tx, ids, asset) == Part(EntryValue(tx, x), asset) + Total(tx, ids - {x}, asset)
    decreases |ids|
  {
    hide Part, EntryValue;
    var id :| id in ids && Total(tx, ids, asset) == Part(EntryValue(tx, id), asset) + Total(tx, ids - {id}, asset);
    if id != x {
      TotalRemove(tx, ids - {id}, x, asset);
      TotalRemove(tx, ids - {x}, id, asset);
      assert ids - {id} - {x} == ids - {x} - {id};
    }
  }

  lemma TotalAdd(tx: Transaction, ids: set<Hash>, x: Hash, asset: Hash)
    requires x !in ids
    ensures Total(tx, ids + {x}, asset) == Total(tx, ids, asset) + Part(EntryValue(tx, x), asset)
  {
    hide Part, EntryValue, Total;
    TotalRemove(tx, ids + {x}, x, asset);
    assert ids + {x} - {x} == ids;
  }

  lemma {:induction false} TotalMonotone(tx: Transaction, a: set<Hash>, b: set<Hash>, asset: Hash)
    requires a <= b
    ensures Total(tx, a, asset) <= Total(tx, b, asset)
    decreases |a|
  {
    hide Part, EntryValue;
    if a != {} {
      var x :| x in a;
      TotalRemove(tx, a, x, asset);
      TotalRemove(tx, b, x, asset);
      TotalMonotone(tx, a - {x}, b - {x}, asset);
    }
  }

  // ---------------------------------------------------------------- conservation

  ghost function NamedBySources(tx: Transaction, n: nat): set<Hash>
    requires MuxForm(tx) && n <= |Mux(tx).sources|
  {
    set i | 0 <= i < n :: Mux(tx).sources[i].ref
  }

  ghost function NamedByDests(tx: Transaction, n: nat): set<Hash>
    requires MuxForm(tx) && n <= |Mux(tx).dests|
  {
    set j | 0 <= j < n :: Mux(tx).dests[j].ref
  }

  /** The position an input sends to is the position of the source that names it, so no input is named twice. */
  lemma DistinctInputs(tx: Transaction, i: nat, j: nat)
    requires MuxForm(tx) && i < |Mux(tx).sources| && j < |Mux(tx).sources| && SourceTied(tx, i) && SourceTied(tx, j)
    ensures Mux(tx).sources[i].ref == Mux(tx).sources[j].ref ==> i == j
  {
  }

  lemma DistinctResults(tx: Transaction, i: nat, j: nat)
    requires MuxForm(tx) && i < |Mux(tx).dests| && j < |Mux(tx).dests| && DestTied(tx, i) && DestTied(tx, j)
    ensures Mux(tx).dests[i].ref == Mux(tx).dests[j].ref ==> i == j
  {
  }

  lemma {:induction false} SourcesAreInputs(tx: Transaction, n: nat, asset: Hash)
    requires MuxForm(tx) && n <= |Mux(tx).sources|
    requires forall i :: 0 <= i < n ==> SourceTied(tx, i)
    ensures Total(tx, NamedBySources(tx, n), asset) == SourceSum(Mux(tx).sources, n, asset)
  {
    hide Total, Part;
    if n > 0 {
      SourcesAreInputs(tx, n - 1, asset);
      var x := Mux(tx).sources[n - 1].ref;
      forall i | 0 <= i < n - 1
        ensures Mux(tx).sources[i].ref != x
      {
        DistinctInputs(tx, i, n - 1);
      }
      assert NamedBySources(tx, n) == NamedBySources(tx, n - 1) + {x};
      TotalAdd(tx, NamedBySources(tx, n - 1), x, asset);
      assert SourceTied(tx, n - 1);
      InputValue(tx, n - 1);
    } else {
      assert NamedBySources(tx, 0) == {};
      TotalNone(tx, asset);
    }
  }

  lemma TotalNone(tx: Transaction, asset: Hash)
    ensures Total(tx, {}, asset) == 0
  {
  }

  lemma InputValue(tx: Transaction, i: nat)
    requires MuxForm(tx) && i < |Mux(tx).sources| && SourceTied(tx, i)
    ensures EntryValue(tx, Mux(tx).sources[i].ref) == Mux(tx).sources[i].value
  {
  }

  lemma {:induction false} DestsAreResults(tx: Transaction, n: nat, asset: Hash)
    requires MuxForm(tx) && n <= |Mux(tx).dests|
    requires forall j :: 0 <= j < n ==> DestTied(tx, j)
    ensures Total(tx, NamedByDests(tx, n), asset) == DestSum(Mux(tx).dests, n, asset)
  {
    hide Total, Part;
    if n > 0 {
      DestsAreResults(tx, n - 1, asset);
      var x := Mux(tx).dests[n - 1].ref;
      forall j | 0 <= j < n - 1
        ensures Mux(tx).dests[j].ref != x
      {
        DistinctResults(tx, j, n - 1);
      }
      assert NamedByDests(tx, n) == NamedByDests(tx, n - 1) + {x};
      TotalAdd(tx, NamedByDests(tx, n - 1), x, asset);
      assert DestTied(tx, n - 1);
    } else {
      assert NamedByDests(tx, 0) == {};
      TotalNone(tx, asset);
    }
  }

  /** In a transaction whose references all agree, results take at most what the mux sends, and the mux receives at
      most what the inputs bring. */
  lemma FlowIsBounded(tx: Transaction, asset: Hash)
    requires MuxForm(tx) && MuxTied(tx) && forall r :: r in tx.resultIds ==> ResultTied(tx, r)
    ensures Total(tx, Results(tx), asset) <= TotalDests(tx, asset)
    ensures TotalSources(tx, asset) <= Total(tx, Inputs(tx), asset)
  {
    hide Total;
    var m, n := |Mux(tx).sources|, |Mux(tx).dests|;
    SourcesAreInputs(tx, m, asset);
    DestsAreResults(tx, n, asset);
    forall r | r in Results(tx)
      ensures r in NamedByDests(tx, n)
    {
      assert ResultTied(tx, r);
    }
    TotalMonotone(tx, Results(tx), NamedByDests(tx, n), asset);
    TotalMonotone(tx, NamedBySources(tx, m), Inputs(tx), asset);
  }
}
