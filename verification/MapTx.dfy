// protocol/bc/types/map.go: turning inputs and outputs into entries around one
// mux.  The id of an entry is the hash of its content, which includes neither its
// place in the transaction nor its witness; equal contents give one entry.
module MapTx {
  import opened Bc
  import opened TxEntries
  import opened TxValidation
  import opened TxChecks

  /** `content` stands for what is hashed besides prevout and value: programs, nonces and data. */
  datatype TxIn = TxIn(kind: InputKind, value: Value, prevout: Source, content: nat,
                       passes: bool, second: bool, ready: bool)

  datatype TxOut = TxOut(kind: ResultKind, value: Value, runs: bool)

  datatype Ids = Ids(inputs: seq<Hash>, prevouts: seq<Hash>, mux: Hash, results: seq<Hash>)

  const NO_VALUE: Value := Value(0, 0)
  const NO_SOURCE: Source := Source(0, NO_VALUE, 0)

  /** What the entry of an input is hashed from: a spend from the output it spends, an issuance and a withdrawal with
      the value, the others from their content alone. */
  function Hashed(input: TxIn): (InputKind, Value, Source, nat) {
    match input.kind
    case Spend => (Spend, input.value, input.prevout, input.content)
    case Issuance => (Issuance, input.value, NO_SOURCE, input.content)
    case Withdrawal => (Withdrawal, input.value, NO_SOURCE, input.content)
    case _ => (input.kind, NO_VALUE, NO_SOURCE, input.content)
  }

  predicate Distinct(s: seq<Hash>) {
    forall i, j :: 0 <= i < j < |s| ==> s[i] != s[j]
  }

  predicate Apart(a: seq<Hash>, b: seq<Hash>) {
    forall i, j :: 0 <= i < |a| && 0 <= j < |b| ==> a[i] != b[j]
  }

  /** Inputs have the same entry, and spends the same previous output, exactly if they are hashed from the same. */
  predicate HashIds(ids: Ids, inputs: seq<TxIn>) {
    && |ids.inputs| == |ids.prevouts| == |inputs|
    && (forall i, j :: 0 <= i < j < |inputs| ==>
        (ids.inputs[i] == ids.inputs[j] <==> Hashed(inputs[i]) == Hashed(inputs[j])))
    && (forall i, j :: 0 <= i < j < |inputs| && inputs[i].kind == inputs[j].kind == Spend ==>
          (ids.prevouts[i] == ids.prevouts[j] <==> Hashed(inputs[i]) == Hashed(inputs[j])))
  }

  /** Different contents have different ids; the results differ in the position they take their value from. */
  predicate IdsFit(ids: Ids, inputs: seq<TxIn>, outputs: seq<TxOut>) {
    && HashIds(ids, inputs) && |ids.results| == |outputs| && Distinct(ids.results)
    && Apart(ids.inputs, ids.prevouts) && Apart(ids.inputs, ids.results) && Apart(ids.prevouts, ids.results)
    && Apart([ids.mux], ids.inputs) && Apart([ids.mux], ids.prevouts) && Apart([ids.mux], ids.results)
  }

  /** The mapping looks up the first output for a coinbase, and panics if there is none. */
  predicate Mappable(inputs: seq<TxIn>, outputs: seq<TxOut>) {
    outputs == [] ==> forall i :: 0 <= i < |inputs| ==> inputs[i].kind != Coinbase
  }

  predicate Ready(inputs: seq<TxIn>, outputs: seq<TxOut>, ids: Ids) {
    IdsFit(ids, inputs, outputs) && Mappable(inputs, outputs)
  }

  /** The value an input brings: a coinbase brings that of the first output, contract inputs bring nothing. */
  function ValueOf(inputs: seq<TxIn>, outputs: seq<TxOut>, i: nat): Value
    requires Mappable(inputs, outputs) && i < |inputs|
  {
    match inputs[i].kind
    case Coinbase => outputs[0].value
    case Creation => NO_VALUE
    case Call => NO_VALUE
    case Contract => NO_VALUE
    case _ => inputs[i].value
  }

  function MuxOf(inputs: seq<TxIn>, outputs: seq<TxOut>, ids: Ids): TxEntry
    requires Ready(inputs, outputs, ids)
  {
    MuxEntry(
      seq(|inputs|, i requires 0 <= i < |inputs| => Source(ids.inputs[i], ValueOf(inputs, outputs, i), 0)),
      seq(|outputs|, j requires 0 <= j < |outputs| => Destination(ids.results[j], outputs[j].value, 0)))
  }

  /** Whether a coinbase input comes after the i-th. */
  predicate LaterCoinbase(inputs: seq<TxIn>, i: nat) {
    exists k :: i < k < |inputs| && inputs[k].kind == Coinbase
  }

  /** Where input i sends its value.  The last coinbase always sends to position 0, with the value of source 0; earlier
      ones are given no destination, which is expressed by one that no check accepts. */
  function DestOf(inputs: seq<TxIn>, outputs: seq<TxOut>, ids: Ids, i: nat): Destination
    requires Ready(inputs, outputs, ids) && i < |inputs|
  {
    if inputs[i].kind != Coinbase then Destination(ids.mux, ValueOf(inputs, outputs, i), i)
    else if LaterCoinbase(inputs, i) then Destination(ids.inputs[i], NO_VALUE, 0)
    else Destination(ids.mux, ValueOf(inputs, outputs, 0), 0)
  }

  function InputOf(inputs: seq<TxIn>, outputs: seq<TxOut>, ids: Ids, i: nat): TxEntry
    requires Ready(inputs, outputs, ids) && i < |inputs|
  {
    var input := inputs[i];
    InputEntry(input.kind, DestOf(inputs, outputs, ids, i), ids.prevouts[i], input.passes, input.second, input.ready)
  }

  function ResultOf(outputs: seq<TxOut>, ids: Ids, j: nat): TxEntry
    requires j < |outputs|
  {
    ResultEntry(outputs[j].kind, Source(ids.mux, outputs[j].value, j), outputs[j].runs)
  }

  function Prevouts(inputs: seq<TxIn>, ids: Ids): map<Hash, TxEntry>
    requires HashIds(ids, inputs)
  {
    map i | 0 <= i < |inputs| && inputs[i].kind == Spend ::
      ids.prevouts[i] := ResultEntry(PlainOutput, inputs[i].prevout.(value := inputs[i].value), false)
  }

  /** The last position of an id. */
  function Last(ids: seq<Hash>, h: Hash): (k: nat)
    requires h in ids
    ensures k < |ids| && ids[k] == h && forall i :: k < i < |ids| ==> ids[i] != h
  {
    if ids[|ids| - 1] == h then |ids| - 1 else Last(ids[..|ids| - 1], h)
  }

  /** Of inputs with one id, the last is the entry. */
  function InputEntries(inputs: seq<TxIn>, outputs: seq<TxOut>, ids: Ids): map<Hash, TxEntry>
    requires Ready(inputs, outputs, ids)
  {
    map h | h in ids.inputs :: InputOf(inputs, outputs, ids, Last(ids.inputs, h))
  }

  function ResultEntries(outputs: seq<TxOut>, ids: Ids): map<Hash, TxEntry>
    requires |ids.results| == |outputs| && Distinct(ids.results)
  {
    map j | 0 <= j < |outputs| :: ids.results[j] := ResultOf(outputs, ids, j)
  }

  /** All entries, by id. */
  function EntriesOf(inputs: seq<TxIn>, outputs: seq<TxOut>, ids: Ids): map<Hash, TxEntry>
    requires Ready(inputs, outputs, ids)
  {
    Prevouts(inputs, ids) + InputEntries(inputs, outputs, ids) + ResultEntries(outputs, ids) +
    map[ids.mux := MuxOf(inputs, outputs, ids)]
  }

  /** The native spends and withdrawals among the entries may pay for gas. */
  function GasIds(inputs: seq<TxIn>, ids: Ids, n: nat): seq<Hash>
    requires n <= |inputs| == |ids.inputs|
  {
    if n == 0 then []
    else
      var input, h := inputs[n - 1], ids.inputs[n - 1];
      GasIds(inputs, ids, n - 1) +
      if (input.kind == Spend || input.kind == Withdrawal) && input.value.asset == NATIVE
        && Last(ids.inputs, h) == n - 1
      then [h] else []
  }

  function Mapped(inputs: seq<TxIn>, outputs: seq<TxOut>, ids: Ids, id: Hash, version: nat, size: nat): Transaction
    requires Ready(inputs, outputs, ids)
  {
    Transaction(id, version, size, ids.mux, ids.results, GasIds(inputs, ids, |inputs|), EntriesOf(inputs, outputs, ids))
  }

  // ------------------------------------------------------------- the entries by id

  predicate SpentAt(es: map<Hash, TxEntry>, inputs: seq<TxIn>, ids: Ids, i: nat)
    requires |ids.prevouts| == |inputs| && i < |inputs|
  {
    && ids.prevouts[i] in es && es[ids.prevouts[i]].ResultEntry? && es[ids.prevouts[i]].resultKind == PlainOutput
    && es[ids.prevouts[i]].source.value == inputs[i].value
  }

  predicate InputAt(es: map<Hash, TxEntry>, inputs: seq<TxIn>, outputs: seq<TxOut>, ids: Ids, i: nat)
    requires Ready(inputs, outputs, ids) && i < |inputs|
  {
    ids.inputs[i] in es && es[ids.inputs[i]] == InputOf(inputs, outputs, ids, Last(ids.inputs, ids.inputs[i]))
  }

  predicate ResultAt(es: map<Hash, TxEntry>, outputs: seq<TxOut>, ids: Ids, j: nat)
    requires |ids.results| == |outputs| && j < |outputs|
  {
    ids.results[j] in es && es[ids.results[j]] == ResultOf(outputs, ids, j)
  }

  lemma PrevoutsAt(inputs: seq<TxIn>, ids: Ids)
    requires HashIds(ids, inputs)
    ensures var es := Prevouts(inputs, ids);
            && (forall i :: 0 <= i < |inputs| && inputs[i].kind == Spend ==> SpentAt(es, inputs, ids, i))
            && (forall x :: x in es ==> x in ids.prevouts && es[x].ResultEntry?)
  {
  }

  lemma InputsAt(inputs: seq<TxIn>, outputs: seq<TxOut>, ids: Ids)
    requires Ready(inputs, outputs, ids)
    ensures var es := InputEntries(inputs, outputs, ids);
            && (forall i :: 0 <= i < |inputs| ==> InputAt(es, inputs, outputs, ids, i))
            && (forall x :: x in es ==> x in ids.inputs && es[x].InputEntry?)
  {
    hide DestOf, IdsFit, Last;
    Sizes(inputs, outputs, ids);
  }

  lemma ResultsAt(outputs: seq<TxOut>, ids: Ids)
    requires |ids.results| == |outputs| && Distinct(ids.results)
    ensures var es := ResultEntries(outputs, ids);
            && (forall j :: 0 <= j < |outputs| ==> ResultAt(es, outputs, ids, j))
            && (forall x :: x in es ==> x in ids.results && es[x].ResultEntry?)
  {
  }

  lemma EntriesAt(inputs: seq<TxIn>, outputs: seq<TxOut>, ids: Ids)
    requires Ready(inputs, outputs, ids)
    ensures var es := EntriesOf(inputs, outputs, ids);
            && ids.mux in es && es[ids.mux] == MuxOf(inputs, outputs, ids)
            && (forall i :: 0 <= i < |inputs| ==> InputAt(es, inputs, outputs, ids, i))
            && (forall j :: 0 <= j < |outputs| ==> ResultAt(es, outputs, ids, j))
            && (forall i :: 0 <= i < |inputs| && inputs[i].kind == Spend ==> SpentAt(es, inputs, ids, i))
            && (forall x :: x in es && es[x].MuxEntry? ==> x == ids.mux)
  {
    hide Prevouts, InputEntries, ResultEntries, InputOf, ResultOf, MuxOf, Last, HashIds, Mappable;
    PrevoutsAt(inputs, ids);
    InputsAt(inputs, outputs, ids);
    ResultsAt(outputs, ids);
    Sizes(inputs, outputs, ids);
    assert [ids.mux][0] == ids.mux;
    var es := EntriesOf(inputs, outputs, ids);
    forall i | 0 <= i < |inputs|
      ensures InputAt(es, inputs, outputs, ids, i)
    {
      assert InputAt(InputEntries(inputs, outputs, ids), inputs, outputs, ids, i);
      assert ids.inputs[i] !in ids.results && ids.inputs[i] != ids.mux;
    }
    forall j | 0 <= j < |outputs|
      ensures ResultAt(es, outputs, ids, j)
    {
      assert ResultAt(ResultEntries(outputs, ids), outputs, ids, j);
    }
    forall i | 0 <= i < |inputs| && inputs[i].kind == Spend
      ensures SpentAt(es, inputs, ids, i)
    {
      assert SpentAt(Prevouts(inputs, ids), inputs, ids, i);
      assert ids.prevouts[i] !in ids.inputs && ids.prevouts[i] !in ids.results && ids.prevouts[i] != ids.mux;
    }
  }

  lemma Sizes(inputs: seq<TxIn>, outputs: seq<TxOut>, ids: Ids)
    requires Ready(inputs, outputs, ids)
    ensures |ids.inputs| == |ids.prevouts| == |inputs| && |ids.results| == |outputs|
  {
  }

  // -------------------------------------------------------------- when all agrees

  /** Input i is a native spend or withdrawal whose entry is g. */
  predicate PaysForGas(inputs: seq<TxIn>, ids: Ids, i: nat, g: Hash)
    requires i < |inputs| == |ids.inputs|
  {
    ids.inputs[i] == g && inputs[i].value.asset == NATIVE && (inputs[i].kind == Spend || inputs[i].kind == Withdrawal)
  }

  lemma {:induction false} GasIdsUpTo(inputs: seq<TxIn>, ids: Ids, n: nat, g: Hash)
    requires n <= |inputs| == |ids.inputs|
    ensures g in GasIds(inputs, ids, n) <==>
            g in ids.inputs && Last(ids.inputs, g) < n && PaysForGas(inputs, ids, Last(ids.inputs, g), g)
  {
    if n > 0 {
      GasIdsUpTo(inputs, ids, n - 1, g);
      assert ids.inputs[n - 1] in ids.inputs;
    }
  }

  /** Every mapped transaction has the shape that validation is about. */
  lemma MappedForm(inputs: seq<TxIn>, outputs: seq<TxOut>, ids: Ids, id: Hash, version: nat, size: nat)
    requires Ready(inputs, outputs, ids)
    ensures var tx := Mapped(inputs, outputs, ids, id, version, size);
            MuxForm(tx) && Mux(tx) == MuxOf(inputs, outputs, ids)
  {
    hide EntriesOf, Ready, GasIds, Last, DestOf;
    var tx := Mapped(inputs, outputs, ids, id, version, size);
    EntriesAt(inputs, outputs, ids);
    Sizes(inputs, outputs, ids);
    forall g | g in tx.gasInputIds && g in tx.entries
      ensures tx.entries[g].InputEntry? && (tx.entries[g].kind == Spend || tx.entries[g].kind == Withdrawal)
    {
      GasIdsUpTo(inputs, ids, |inputs|, g);
      var k := Last(ids.inputs, g);
      assert InputAt(tx.entries, inputs, outputs, ids, k);
    }
    forall i | 0 <= i < |inputs|
      ensures ids.inputs[i] in tx.entries && tx.entries[ids.inputs[i]].InputEntry?
    {
      assert InputAt(tx.entries, inputs, outputs, ids, i);
    }
    forall r | r in tx.resultIds
      ensures r in tx.entries && tx.entries[r].ResultEntry? && tx.entries[r].source.ref == tx.muxId
    {
      var j :| 0 <= j < |outputs| && ids.results[j] == r;
      assert ResultAt(tx.entries, outputs, ids, j);
    }
  }

  lemma {:induction false} GasIdsOnce(inputs: seq<TxIn>, ids: Ids, n: nat)
    requires n <= |inputs| == |ids.inputs|
    ensures Distinct(GasIds(inputs, ids, n))
  {
    hide Last;
    if n > 0 {
      GasIdsOnce(inputs, ids, n - 1);
      GasIdsUpTo(inputs, ids, n - 1, ids.inputs[n - 1]);
    }
  }

  /** An entry may pay for gas, and is listed once, exactly if some input of that entry spends or withdraws the native
      asset. */
  lemma GasPayersExactly(inputs: seq<TxIn>, outputs: seq<TxOut>, ids: Ids, id: Hash, version: nat, size: nat, g: Hash)
    requires Ready(inputs, outputs, ids)
    ensures var payers := Mapped(inputs, outputs, ids, id, version, size).gasInputIds;
            && (g in payers <==> exists i :: 0 <= i < |inputs| && PaysForGas(inputs, ids, i, g))
            && Distinct(payers)
  {
    hide GasIds, EntriesOf, Last;
    GasIdsUpTo(inputs, ids, |inputs|, g);
    GasIdsOnce(inputs, ids, |inputs|);
    if i :| 0 <= i < |inputs| && PaysForGas(inputs, ids, i, g) {
      var k := Last(ids.inputs, g);
      assert k != i ==> Hashed(inputs[i]) == Hashed(inputs[k]);
      assert PaysForGas(inputs, ids, k, g);
    }
  }

  /** The mux takes from every issuance, spend and withdrawal what the input says and from a coinbase what the first
      output says, and gives every output what it says. */
  lemma MappedValues(inputs: seq<TxIn>, outputs: seq<TxOut>, ids: Ids, id: Hash, version: nat, size: nat)
    requires Ready(inputs, outputs, ids)
    ensures var tx := Mapped(inputs, outputs, ids, id, version, size);
            && MuxForm(tx) && |Mux(tx).sources| == |inputs| && |Mux(tx).dests| == |outputs| == |tx.resultIds|
            && (forall i :: 0 <= i < |inputs| ==>
                  var v := Mux(tx).sources[i].value;
                  match inputs[i].kind
                  case Issuance => v == inputs[i].value
                  case Spend => v == inputs[i].value
                  case Withdrawal => v == inputs[i].value
                  case Coinbase => v == outputs[0].value
                  case _ => v.amount == 0)
            && (forall j :: 0 <= j < |outputs| ==>
                  && Mux(tx).dests[j].value == outputs[j].value
                  && tx.entries[tx.resultIds[j]].source.value == outputs[j].value
                  && tx.entries[tx.resultIds[j]].resultKind == outputs[j].kind)
  {
    hide EntriesOf, GasIds, Last, DestOf, IdsFit, MuxForm;
    MappedForm(inputs, outputs, ids, id, version, size);
    EntriesAt(inputs, outputs, ids);
    Sizes(inputs, outputs, ids);
    var tx := Mapped(inputs, outputs, ids, id, version, size);
    forall j | 0 <= j < |outputs|
      ensures Mux(tx).dests[j].value == outputs[j].value
      ensures tx.resultIds[j] in tx.entries && tx.entries[tx.resultIds[j]] == ResultOf(outputs, ids, j)
    {
      assert ResultAt(tx.entries, outputs, ids, j);
    }
  }

  /** No two inputs have the same entry, and a coinbase comes first. */
  predicate Orderly(inputs: seq<TxIn>, ids: Ids) {
    Distinct(ids.inputs) && forall i :: 0 < i < |inputs| ==> inputs[i].kind != Coinbase
  }

  lemma OrderlyInput(inputs: seq<TxIn>, outputs: seq<TxOut>, ids: Ids, i: nat)
    requires Ready(inputs, outputs, ids) && Orderly(inputs, ids) && i < |inputs|
    ensures InputOf(inputs, outputs, ids, Last(ids.inputs, ids.inputs[i])).dest ==
            Destination(ids.mux, ValueOf(inputs, outputs, i), i)
  {
    assert Last(ids.inputs, ids.inputs[i]) == i;
  }

  /** The destination of an input that is not in order is not where its source stands. */
  lemma DisorderlyInput(inputs: seq<TxIn>, outputs: seq<TxOut>, ids: Ids, i: nat)
    requires Ready(inputs, outputs, ids) && i < |inputs|
    requires if inputs[i].kind == Coinbase then i > 0 else Last(ids.inputs, ids.inputs[i]) != i
    ensures InputOf(inputs, outputs, ids, Last(ids.inputs, ids.inputs[i])).dest.position != i
  {
    var k := Last(ids.inputs, ids.inputs[i]);
    if k != i {
      assert Hashed(inputs[i]) == Hashed(inputs[k]);
    }
  }

  lemma OneOutOfOrder(inputs: seq<TxIn>, outputs: seq<TxOut>, ids: Ids) returns (i: nat)
    requires Ready(inputs, outputs, ids) && !Orderly(inputs, ids)
    ensures i < |inputs| && if inputs[i].kind == Coinbase then i > 0 else Last(ids.inputs, ids.inputs[i]) != i
  {
    if k :| 0 < k < |inputs| && inputs[k].kind == Coinbase {
      i := k;
    } else {
      var j, k :| 0 <= j < k < |ids.inputs| && ids.inputs[j] == ids.inputs[k];
      assert Hashed(inputs[j]) == Hashed(inputs[k]);
      i := j;
    }
  }

  /** The references, positions and values of a mapped transaction all agree exactly if no two inputs have the same
      entry and a coinbase comes first. */
  lemma MappedTiedExactly(inputs: seq<TxIn>, outputs: seq<TxOut>, ids: Ids, id: Hash, version: nat, size: nat)
    requires Ready(inputs, outputs, ids) && MuxForm(Mapped(inputs, outputs, ids, id, version, size))
    ensures var tx := Mapped(inputs, outputs, ids, id, version, size);
            && (MuxTied(tx) <==> Orderly(inputs, ids))
            && forall r :: r in tx.resultIds ==> ResultTied(tx, r)
  {
    hide EntriesOf, Ready, GasIds, Last, DestOf, MuxForm, Orderly;
    var tx := Mapped(inputs, outputs, ids, id, version, size);
    MappedForm(inputs, outputs, ids, id, version, size);
    EntriesAt(inputs, outputs, ids);
    Sizes(inputs, outputs, ids);
    forall r | r in tx.resultIds
      ensures ResultTied(tx, r)
    {
      var j :| 0 <= j < |outputs| && ids.results[j] == r;
      assert ResultAt(tx.entries, outputs, ids, j);
    }
    if Orderly(inputs, ids) {
      forall i | 0 <= i < |inputs|
        ensures ids.inputs[i] in tx.entries && tx.entries[ids.inputs[i]].InputEntry?
        ensures SourceTied(tx, i) && SpendExact(tx, ids.inputs[i])
      {
        assert InputAt(tx.entries, inputs, outputs, ids, i);
        OrderlyInput(inputs, outputs, ids, i);
        OrderlySpend(inputs, outputs, ids, i);
      }
      forall j | 0 <= j < |outputs|
        ensures DestTied(tx, j)
      {
        assert ResultAt(tx.entries, outputs, ids, j);
      }
    } else {
      var i := OneOutOfOrder(inputs, outputs, ids);
      DisorderlyInput(inputs, outputs, ids, i);
      assert InputAt(tx.entries, inputs, outputs, ids, i);
      assert !SourceTied(tx, i);
    }
  }

  lemma OrderlySpend(inputs: seq<TxIn>, outputs: seq<TxOut>, ids: Ids, i: nat)
    requires Ready(inputs, outputs, ids) && Orderly(inputs, ids) && i < |inputs|
    ensures Last(ids.inputs, ids.inputs[i]) == i
    ensures inputs[i].kind == Spend ==> ValueOf(inputs, outputs, i) == inputs[i].value
  {
  }

  /** So a transaction that spends one output twice, or with a coinbase anywhere but first, is refused whenever its mux
      is looked at at all. */
  lemma DisorderlyIsRefused(inputs: seq<TxIn>, outputs: seq<TxOut>, ids: Ids, id: Hash, version: nat, size: nat)
    requires Ready(inputs, outputs, ids) && !Orderly(inputs, ids)
    ensures var tx := Mapped(inputs, outputs, ids, id, version, size); MuxForm(tx) && (LooksAtMux(tx) ==> !TxFine(tx))
  {
    hide Mapped, MuxForm, MuxTied, Orderly, MuxFine, ResultTied;
    MappedForm(inputs, outputs, ids, id, version, size);
    MappedTiedExactly(inputs, outputs, ids, id, version, size);
    FineIsTied(Mapped(inputs, outputs, ids, id, version, size));
  }

  /** Two inputs that spend one output have one entry. */
  lemma DoubleSpendIsDisorderly(inputs: seq<TxIn>, outputs: seq<TxOut>, ids: Ids, i: nat, j: nat)
    requires Ready(inputs, outputs, ids) && i < j < |inputs|
    requires inputs[i].kind == inputs[j].kind == Spend && ids.prevouts[i] == ids.prevouts[j]
    ensures ids.inputs[i] == ids.inputs[j] && !Orderly(inputs, ids)
  {
  }
}
