// protocol/validation/tx.go: checking a transaction's graph of entries, with
// memoised results and a shared account of gas.
module TxValidation {
  import opened Wrappers
  import opened Bc
  import opened VmTypes
  import opened TxEntries

  const VM_GAS_RATE: nat := 200
  const MAX_GAS_AMOUNT: nat := 5_000_000
  const DEFAULT_GAS_CREDIT: nat := 30_000
  const NATIVE: Hash := 0xFFFF_FFFF_FFFF_FFFF_FFFF_FFFF_FFFF_FFFF_FFFF_FFFF_FFFF_FFFF_FFFF_FFFF_FFFF_FFFF

  datatype TxError =
    | GasCalculate | OverGasCredit | AmountOverflow | NoSource | Unbalanced | MissingEntry | WrongEntryType
    | WrongPosition | MismatchedReference | MismatchedPosition | MismatchedValue | Rejected | WrongCoinbaseAsset
    | ProgramFailed

  /** The gas that a surplus of native units pays for. */
  function Budget(assetValue: nat): nat {
    if assetValue / VM_GAS_RATE > MAX_GAS_AMOUNT then MAX_GAS_AMOUNT else assetValue / VM_GAS_RATE
  }

  /** An unsigned 64-bit number read as a signed one. */
  function AsSigned(n: nat): int {
    Signed(n % TWO_64)
  }

  class GasState {
    var assetValue: nat
    var gasLeft: int
    var gasUsed: int
    var gasValid: bool
    var storageGas: int

    /** Used and remaining gas make up the budget. */
    ghost predicate Conserved()
      reads this
    {
      gasLeft >= 0 && gasLeft + gasUsed == Budget(assetValue)
    }

    ghost predicate Untouched()
      reads this
    {
      assetValue == 0 && gasLeft == gasUsed == 0 && !gasValid && storageGas == 0
    }

    constructor ()
      ensures Untouched() && Conserved()
    {
      assetValue, gasLeft, gasUsed, gasValid, storageGas := 0, 0, 0, false, 0;
    }

    /** The size of the transaction is taken for a signed number, and storage costs one per byte. */
    method SetGas(amount: int, txSize: nat) returns (err: Option<TxError>)
      requires Untouched()
      modifies this
      ensures Conserved() && gasUsed == 0 && !gasValid
      ensures err.None? <==> amount >= 0
      ensures err.None? ==> assetValue == amount && storageGas == AsSigned(txSize)
    {
      if amount < 0 {
        return Some(GasCalculate);
      }
      assetValue := amount;
      gasLeft := amount / VM_GAS_RATE;
      if gasLeft > MAX_GAS_AMOUNT {
        gasLeft := MAX_GAS_AMOUNT;
      }
      storageGas := AsSigned(txSize);
      return None;
    }

    /** If the gas left does not cover the storage, gasLeft ends negative and the transaction does not become gas
        valid. */
    method SetGasValid() returns (err: Option<TxError>)
      requires Conserved()
      modifies this
      ensures assetValue == old(assetValue) && storageGas == old(storageGas)
      ensures err.None? <==> 0 <= old(gasLeft) - storageGas <= MAX_INT64
      ensures err.None? ==> Conserved() && gasValid && gasLeft == old(gasLeft) - storageGas
      ensures err.Some? ==> gasValid == old(gasValid)
    {
      if gasLeft - storageGas > MAX_INT64 {
        gasLeft := 0;
        return Some(GasCalculate);
      }
      gasLeft := gasLeft - storageGas;
      if gasLeft < 0 {
        return Some(GasCalculate);
      }
      if !FitsInt64(gasUsed + storageGas) {
        return Some(GasCalculate);
      }
      gasUsed := gasUsed + storageGas;
      gasValid := true;
      return None;
    }

    /** A transaction that is not gas valid yet may use a fixed credit and has to keep enough for its storage. */
    method UpdateUsage(left: int) returns (err: Option<TxError>)
      requires Conserved()
      modifies this
      ensures Conserved() && assetValue == old(assetValue) && gasValid == old(gasValid) && storageGas == old(storageGas)
      ensures gasLeft == if left < 0 then old(gasLeft) else left
      ensures err.None? <==> left >= 0 && (gasValid || (gasUsed <= DEFAULT_GAS_CREDIT && storageGas <= gasLeft))
    {
      if left < 0 {
        return Some(GasCalculate);
      }
      gasUsed := gasUsed + (gasLeft - left);
      gasLeft := left;
      if !gasValid && (gasUsed > DEFAULT_GAS_CREDIT || storageGas > gasLeft) {
        return Some(OverGasCredit);
      }
      return None;
    }
  }

  // ------------------------------------------------------------ checks that only read

  /** A source that has to belong to entry id at the given position and carry the value. */
  function CompareSource(s: Source, id: Hash, position: nat, value: Value): Option<TxError> {
    if s.ref != id then Some(MismatchedReference)
    else if s.position != position then Some(MismatchedPosition)
    else if s.value != value then Some(MismatchedValue)
    else None
  }

  function CompareDest(d: Destination, id: Hash, position: nat, value: Value): Option<TxError> {
    if d.ref != id then Some(MismatchedReference)
    else if d.position != position then Some(MismatchedPosition)
    else if d.value != value then Some(MismatchedValue)
    else None
  }

  /** A destination of entry id, its number among the entry's destinations being destPos. */
  function CheckDest(tx: Transaction, id: Hash, d: Destination, destPos: nat): Option<TxError> {
    if d.ref !in tx.entries then Some(MissingEntry)
    else
      match tx.entries[d.ref]
      case ResultEntry(_, source, _) =>
        if d.position != 0 then Some(WrongPosition) else CompareSource(source, id, destPos, d.value)
      case MuxEntry(sources, _) =>
        if d.position >= |sources| then Some(WrongPosition)
        else CompareSource(sources[d.position], id, destPos, d.value)
      case InputEntry(_, _, _, _, _, _) => Some(WrongEntryType)
  }

  // --------------------------------------------------------------------- the parity

  /** Sources minus destinations so far; the map knows exactly the assets among the sources. */
  ghost predicate ParityOf(tx: Transaction, parity: map<Hash, int>, m: nat, n: nat)
    requires MuxForm(tx) && m <= |Mux(tx).sources| && n <= |Mux(tx).dests|
  {
    && (forall a: Hash ::
          (if a in parity then parity[a] else 0) == SourceSum(Mux(tx).sources, m, a) - DestSum(Mux(tx).dests, n, a))
    && (forall a: Hash :: a in parity <==> HasSource(tx, m, a))
  }

  predicate HasSource(tx: Transaction, m: nat, asset: Hash)
    requires MuxForm(tx) && m <= |Mux(tx).sources|
  {
    exists i :: 0 <= i < m && Mux(tx).sources[i].value.asset == asset
  }

  /** No sum over the sources leaves 63 bits. */
  predicate SourceFits(tx: Transaction, i: nat)
    requires MuxForm(tx) && i < |Mux(tx).sources|
  {
    var v := Mux(tx).sources[i].value;
    v.amount <= MAX_INT64 && SourceSum(Mux(tx).sources, i + 1, v.asset) <= MAX_INT64
  }

  /** The destination's asset has a source, and no difference leaves 64 bits. */
  predicate DestFits(tx: Transaction, j: nat)
    requires MuxForm(tx) && j < |Mux(tx).dests|
  {
    var v := Mux(tx).dests[j].value;
    && HasSource(tx, |Mux(tx).sources|, v.asset) && v.amount <= MAX_INT64
    && TotalSources(tx, v.asset) - DestSum(Mux(tx).dests, j + 1, v.asset) >= MIN_INT64
  }

  predicate AmountsFit(tx: Transaction)
    requires MuxForm(tx)
  {
    && (forall i :: 0 <= i < |Mux(tx).sources| ==> SourceFits(tx, i))
    && (forall j :: 0 <= j < |Mux(tx).dests| ==> DestFits(tx, j))
  }

  method AddSources(tx: Transaction) returns (r: Result<map<Hash, int>, TxError>)
    requires MuxForm(tx)
    ensures r.Ok? <==> forall i :: 0 <= i < |Mux(tx).sources| ==> SourceFits(tx, i)
    ensures r.Ok? ==> ParityOf(tx, r.value, |Mux(tx).sources|, 0)
  {
    var sources, parity: map<Hash, int> := Mux(tx).sources, map[];
    for i := 0 to |sources|
      invariant ParityOf(tx, parity, i, 0) && forall k :: 0 <= k < i ==> SourceFits(tx, k)
    {
      var v := sources[i].value;
      ParityPlus(tx, parity, i);
      if v.amount > MAX_INT64 {
        assert !SourceFits(tx, i);
        return Err(AmountOverflow);
      }
      var sum := (if v.asset in parity then parity[v.asset] else 0) + v.amount;
      if sum > MAX_INT64 {
        assert !SourceFits(tx, i);
        return Err(AmountOverflow);
      }
      parity := parity[v.asset := sum];
    }
    return Ok(parity);
  }

  lemma ParityPlus(tx: Transaction, parity: map<Hash, int>, i: nat)
    requires MuxForm(tx) && i < |Mux(tx).sources| && ParityOf(tx, parity, i, 0)
    ensures var v := Mux(tx).sources[i].value;
            var sum := (if v.asset in parity then parity[v.asset] else 0) + v.amount;
            && ParityOf(tx, parity[v.asset := sum], i + 1, 0) && sum == SourceSum(Mux(tx).sources, i + 1, v.asset)
  {
    var v := Mux(tx).sources[i].value;
    forall a: Hash
      ensures HasSource(tx, i + 1, a) <==> HasSource(tx, i, a) || a == v.asset
    {
      if HasSource(tx, i, a) {
        var k :| 0 <= k < i && Mux(tx).sources[k].value.asset == a;
        assert HasSource(tx, i + 1, a);
      }
      assert HasSource(tx, i + 1, v.asset);
    }
  }

  method SubtractDests(tx: Transaction, sums: map<Hash, int>) returns (r: Result<map<Hash, int>, TxError>)
    requires MuxForm(tx) && ParityOf(tx, sums, |Mux(tx).sources|, 0)
    ensures r.Ok? <==> forall j :: 0 <= j < |Mux(tx).dests| ==> DestFits(tx, j)
    ensures r.Ok? ==> ParityOf(tx, r.value, |Mux(tx).sources|, |Mux(tx).dests|)
  {
    var dests, parity: map<Hash, int> := Mux(tx).dests, sums;
    for j := 0 to |dests|
      invariant ParityOf(tx, parity, |Mux(tx).sources|, j) && forall k :: 0 <= k < j ==> DestFits(tx, k)
    {
      var v := dests[j].value;
      if v.asset !in parity {
        assert !DestFits(tx, j);
        return Err(NoSource);
      }
      ParityMinus(tx, parity, j);
      if v.amount > MAX_INT64 {
        assert !DestFits(tx, j);
        return Err(AmountOverflow);
      }
      var diff := parity[v.asset] - v.amount;
      if diff < MIN_INT64 {
        assert !DestFits(tx, j);
        return Err(AmountOverflow);
      }
      parity := parity[v.asset := diff];
    }
    return Ok(parity);
  }

  lemma ParityMinus(tx: Transaction, parity: map<Hash, int>, j: nat)
    requires MuxForm(tx) && j < |Mux(tx).dests| && ParityOf(tx, parity, |Mux(tx).sources|, j)
    requires Mux(tx).dests[j].value.asset in parity
    ensures var v := Mux(tx).dests[j].value;
            && ParityOf(tx, parity[v.asset := parity[v.asset] - v.amount], |Mux(tx).sources|, j + 1)
            && parity[v.asset] - v.amount == TotalSources(tx, v.asset) - DestSum(Mux(tx).dests, j + 1, v.asset)
  {
    hide MuxForm, HasSource;
  }

  /** Sources equal destinations, except that native sources exceed native destinations by the surplus. */
  ghost predicate Balanced(tx: Transaction, surplus: int)
    requires MuxForm(tx)
  {
    && TotalSources(tx, NATIVE) == TotalDests(tx, NATIVE) + surplus
    && forall a: Hash :: a != NATIVE ==> TotalSources(tx, a) == TotalDests(tx, a)
  }

  ghost predicate InBalance(tx: Transaction)
    requires MuxForm(tx)
  {
    && AmountsFit(tx) && Balanced(tx, TotalSources(tx, NATIVE) - TotalDests(tx, NATIVE))
    && (HasSource(tx, |Mux(tx).sources|, NATIVE) ==>
          TotalSources(tx, NATIVE) >= TotalDests(tx, NATIVE))
  }

  /** What storing the transaction costs; without a native source it is never asked for. */
  function StorageGas(tx: Transaction): int
    requires MuxForm(tx)
  {
    if HasSource(tx, |Mux(tx).sources|, NATIVE) then AsSigned(tx.size) else 0
  }

  /** Looks at the differences in any order; the native one becomes the gas budget. */
  method SettleParity(tx: Transaction, gas: GasState) returns (err: Option<TxError>)
    requires MuxForm(tx) && gas.Untouched()
    modifies gas
    ensures gas.Conserved() && gas.gasUsed == 0 && !gas.gasValid
    ensures err.None? <==> InBalance(tx)
    ensures err.None? ==> Balanced(tx, gas.assetValue) && gas.storageGas == StorageGas(tx)
  {
    hide SourceSum, DestSum, MuxForm, HasSource;
    var sums := AddSources(tx);
    if sums.Err? {
      return Some(sums.error);
    }
    var differences := SubtractDests(tx, sums.value);
    if differences.Err? {
      return Some(differences.error);
    }
    var parity := differences.value;
    var todo := parity.Keys;
    while todo != {}
      invariant todo <= parity.Keys
      invariant forall a :: a in parity && a !in todo && a != NATIVE ==> parity[a] == 0
      invariant gas.Conserved() && gas.gasUsed == 0 && !gas.gasValid
      invariant if NATIVE in parity && NATIVE !in todo
                then gas.assetValue == parity[NATIVE] && gas.storageGas == AsSigned(tx.size) else gas.Untouched()
      decreases |todo|
    {
      var a :| a in todo;
      todo := todo - {a};
      if a == NATIVE {
        err := gas.SetGas(parity[a], tx.size);
        if err.Some? {
          NotInBalance(tx, parity, a);
          return;
        }
      } else if parity[a] != 0 {
        NotInBalance(tx, parity, a);
        return Some(Unbalanced);
      }
    }
    ParityBalances(tx, parity, gas.assetValue);
    return None;
  }

  lemma NotInBalance(tx: Transaction, parity: map<Hash, int>, a: Hash)
    requires MuxForm(tx) && ParityOf(tx, parity, |Mux(tx).sources|, |Mux(tx).dests|) && a in parity
    requires if a == NATIVE then parity[a] < 0 else parity[a] != 0
    ensures !InBalance(tx)
  {
    hide MuxForm, SourceSum, DestSum, HasSource;
    assert TotalSources(tx, a) - TotalDests(tx, a) == parity[a];
  }

  lemma ParityBalances(tx: Transaction, parity: map<Hash, int>, surplus: nat)
    requires MuxForm(tx) && AmountsFit(tx) && ParityOf(tx, parity, |Mux(tx).sources|, |Mux(tx).dests|)
    requires forall a :: a in parity && a != NATIVE ==> parity[a] == 0
    requires surplus == if NATIVE in parity then parity[NATIVE] else 0
    ensures Balanced(tx, surplus) && InBalance(tx)
  {
    hide MuxForm, SourceSum, DestSum, HasSource, AmountsFit;
  }
}
