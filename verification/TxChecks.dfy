// protocol/validation/tx.go: walking the entries of a transaction.  Results are
// memoised per entry, and the first error ends the walk.
module TxChecks {
  import opened Wrappers
  import opened Bc
  import opened VmTypes
  import opened TxEntries
  import opened TxValidation

  // ------------------------------------------------------------- what is checked

  /** A program run: the entry it belongs to and whether it is its first or second program, the account state before
      and after, the gas it was given, the gas it left if it was accepted, and whether the check passed. */
  datatype ProgramRun = ProgramRun(id: Hash, which: nat, before: nat, after: nat, limit: int, left: Option<int>,
                                   ok: bool)

  /** The run is what the machine did; it can pass only if the machine accepted and returned gas. */
  predicate Genuine(verify: (nat, Hash, nat, int) -> (nat, Option<int>), run: ProgramRun) {
    && verify(run.before, run.id, run.which, run.limit) == (run.after, run.left)
    && (run.ok ==> run.left.Some? && run.left.value >= 0)
  }

  /** Every run goes on with the account state that the one before it left. */
  predicate Threaded(ran: seq<ProgramRun>, first: nat, last: nat) {
    if ran == [] then first == last
    else
      var run := ran[|ran| - 1];
      run.after == last && Threaded(ran[..|ran| - 1], first, run.before)
  }

  /** The gas a run took. */
  function GasOf(run: ProgramRun): int {
    if run.left.Some? && run.left.value >= 0 then run.limit - run.left.value else 0
  }

  predicate HasSecond(kind: InputKind) {
    IsContract(kind) || kind == Withdrawal
  }

  predicate IsContract(kind: InputKind) {
    kind == Creation || kind == Call || kind == Contract
  }

  /** The programs that have to pass for an entry. */
  predicate Needs(tx: Transaction, id: Hash, which: nat)
    requires id in tx.entries
  {
    match tx.entries[id]
    case InputEntry(kind, _, _, _, second, _) => (which == 0 && kind != Coinbase)
      || (which == 1 && second && HasSecond(kind))
    case ResultEntry(kind, _, runs) => which == 0 && kind == Deposit && runs
    case MuxEntry(_, _) => false
  }

  predicate OnDemand(tx: Transaction, run: ProgramRun) {
    run.id in tx.entries && Needs(tx, run.id, run.which)
  }

  predicate Passed(ran: seq<ProgramRun>, id: Hash, which: nat) {
    exists k :: 0 <= k < |ran| && ran[k].id == id && ran[k].which == which && ran[k].ok
  }

  predicate Authorised(tx: Transaction, ran: seq<ProgramRun>, id: Hash)
    requires id in tx.entries
  {
    && (Needs(tx, id, 0) ==> Passed(ran, id, 0))
    && (Needs(tx, id, 1) ==> Passed(ran, id, 1))
  }

  predicate Once(ran: seq<ProgramRun>) {
    forall i, j :: 0 <= i < j < |ran| ==> !(ran[i].id == ran[j].id && ran[i].which == ran[j].which)
  }

  predicate AllPassed(ran: seq<ProgramRun>) {
    forall k :: 0 <= k < |ran| ==> ran[k].ok
  }

  predicate RanFor(ran: seq<ProgramRun>, ids: set<Hash>) {
    forall k :: 0 <= k < |ran| ==> ran[k].id in ids
  }

  /** The gas that the programs of some entries have taken. */
  function UsedBy(ran: seq<ProgramRun>, ids: set<Hash>): int {
    if ran == [] then 0
    else
      var last := ran[|ran| - 1];
      UsedBy(ran[..|ran| - 1], ids) + if last.id in ids then GasOf(last) else 0
  }

  /** The gas that all programs together have taken. */
  function Used(ran: seq<ProgramRun>): int {
    if ran == [] then 0 else Used(ran[..|ran| - 1]) + GasOf(ran[|ran| - 1])
  }

  ghost function GasInputs(tx: Transaction): set<Hash> {
    set g | g in tx.gasInputIds
  }

  /** What the native surplus pays for, less what the programs of the inputs that pay for gas have taken, covers the
      storage.  It is asked for only if there are such inputs. */
  ghost predicate StorageCovered(tx: Transaction, ran: seq<ProgramRun>)
    requires MuxForm(tx)
  {
    tx.gasInputIds != [] && TotalSources(tx, NATIVE) >= TotalDests(tx, NATIVE) ==>
      0 <= Budget(TotalSources(tx, NATIVE) - TotalDests(tx, NATIVE)) - UsedBy(ran, GasInputs(tx)) - StorageGas(tx)
      <= MAX_INT64
  }

  /** Storage is charged if there are inputs that pay for gas. */
  function StorageCharge(tx: Transaction): int
    requires MuxForm(tx)
  {
    if tx.gasInputIds == [] then 0 else StorageGas(tx)
  }

  lemma UsedOneMore(ran: seq<ProgramRun>, run: ProgramRun)
    ensures Used(ran + [run]) == Used(ran) + GasOf(run)
  {
    assert (ran + [run])[..|ran|] == ran;
  }

  lemma NothingUsed()
    ensures Used([]) == 0
  {
  }

  lemma {:induction false} UsedByAll(ran: seq<ProgramRun>, ids: set<Hash>)
    requires RanFor(ran, ids)
    ensures UsedBy(ran, ids) == Used(ran)
  {
    if ran != [] {
      UsedByAll(ran[..|ran| - 1], ids);
    }
  }

  /** Programs of other entries do not change what some entries have taken. */
  lemma {:induction false} UsedByOthers(before: seq<ProgramRun>, after: seq<ProgramRun>, ids: set<Hash>)
    requires before <= after && forall k :: |before| <= k < |after| ==> after[k].id !in ids
    ensures UsedBy(after, ids) == UsedBy(before, ids)
    decreases |after|
  {
    if |before| < |after| {
      UsedByOthers(before, after[..|after| - 1], ids);
    } else {
      assert after == before;
    }
  }

  /** The checks of an input apart from its programs. */
  predicate InputFine(tx: Transaction, id: Hash)
    requires id in tx.entries && tx.entries[id].InputEntry?
  {
    var e := tx.entries[id];
    && (e.kind == Issuance || e.kind == Coinbase ==> e.passes)
    && (e.kind == Coinbase ==> e.dest.value.asset == NATIVE)
    && SpendExact(tx, id)
    && (IsContract(e.kind) || CheckDest(tx, id, e.dest, 0).None?)
    && (IsContract(e.kind) && e.second ==> e.ready)
  }

  ghost predicate MuxFine(tx: Transaction)
    requires MuxForm(tx)
  {
    && InBalance(tx) && MuxTied(tx)
    && (forall g :: g in tx.gasInputIds ==> g in tx.entries && InputFine(tx, g))
    && (forall i :: 0 <= i < |Mux(tx).sources| ==> InputFine(tx, Mux(tx).sources[i].ref))
  }

  /** What it means that an entry has been found valid. */
  ghost predicate EntryFine(tx: Transaction, id: Hash)
    requires MuxForm(tx) && id in tx.entries
  {
    match tx.entries[id]
    case InputEntry(_, _, _, _, _, _) => InputFine(tx, id)
    case MuxEntry(_, _) => MuxFine(tx)
    case ResultEntry(_, _, _) => id in tx.resultIds && ResultTied(tx, id)
  }

  lemma DestChecked(tx: Transaction, j: nat)
    requires MuxForm(tx) && j < |Mux(tx).dests|
    ensures CheckDest(tx, tx.muxId, Mux(tx).dests[j], j).None? <==> DestTied(tx, j)
  {
  }

  /** The record shows every run of the machine with its result, in order, and no run is there twice or without need. */
  ghost predicate TrueRecord(tx: Transaction, verify: (nat, Hash, nat, int) -> (nat, Option<int>), ran: seq<ProgramRun>,
                             first: nat, last: nat) {
    && Once(ran) && Threaded(ran, first, last)
    && forall k :: 0 <= k < |ran| ==> Genuine(verify, ran[k]) && OnDemand(tx, ran[k])
  }

  lemma RunRecorded(tx: Transaction, verify: (nat, Hash, nat, int) -> (nat, Option<int>), ran: seq<ProgramRun>,
                    first: nat, run: ProgramRun)
    requires TrueRecord(tx, verify, ran, first, run.before) && Genuine(verify, run) && OnDemand(tx, run)
    requires forall k :: 0 <= k < |ran| ==> !(ran[k].id == run.id && ran[k].which == run.which)
    ensures TrueRecord(tx, verify, ran + [run], first, run.after)
  {
    hide Genuine, OnDemand, Once, Threaded;
    OnceMore(ran, run);
    ThreadedMore(ran, first, run);
    var all := ran + [run];
    forall k | 0 <= k < |all|
      ensures Genuine(verify, all[k]) && OnDemand(tx, all[k])
    {
      assert all[k] == if k < |ran| then ran[k] else run;
    }
  }

  lemma OnceMore(ran: seq<ProgramRun>, run: ProgramRun)
    requires Once(ran) && forall k :: 0 <= k < |ran| ==> !(ran[k].id == run.id && ran[k].which == run.which)
    ensures Once(ran + [run])
  {
  }

  lemma ThreadedMore(ran: seq<ProgramRun>, first: nat, run: ProgramRun)
    requires Threaded(ran, first, run.before)
    ensures Threaded(ran + [run], first, run.after)
  {
    assert (ran + [run])[..|ran|] == ran;
  }

  lemma RunAppended(ran: seq<ProgramRun>, run: ProgramRun)
    ensures AllPassed(ran + [run]) <==> AllPassed(ran) && run.ok
    ensures run.ok ==> Passed(ran + [run], run.id, run.which)
  {
    var all := ran + [run];
    assert all[|ran|] == run && forall k :: 0 <= k < |ran| ==> ran[k] == all[k];
  }

  // -------------------------------------------------------------------- the walk

  class Validation {
    const tx: Transaction
    /** Runs a program: from account state, entry, number of the program and gas limit to the new account state and,
        if the program is accepted, the gas left. */
    const verify: (nat, Hash, nat, int) -> (nat, Option<int>)
    const gas: GasState
    var cache: map<Hash, Option<TxError>>
    var world: nat
    /** All program runs. */
    ghost var ran: seq<ProgramRun>
    /** The account state at the beginning. */
    ghost const origin: nat

    constructor (tx: Transaction, verify: (nat, Hash, nat, int) -> (nat, Option<int>), world: nat)
      requires MuxForm(tx)
      ensures this.tx == tx && this.verify == verify && origin == world
      ensures Sound() && cache == map[] && ran == [] && fresh(gas)
    {
      this.tx, this.verify, this.world, this.origin, cache, ran := tx, verify, world, world, map[], [];
      gas := new GasState();
    }

    ghost predicate Recorded()
      reads this`ran, this`world
    {
      TrueRecord(tx, verify, ran, origin, world)
    }

    /** As long as no error has occurred: what is remembered is valid, all programs run so far belong to remembered
        entries and have passed, none was run twice, and gas is conserved. */
    ghost predicate Going()
      reads this, gas
    {
      && MuxForm(tx) && gas.Conserved() && Recorded() && AllPassed(ran) && RanFor(ran, cache.Keys)
      && forall id :: id in cache ==>
           id in tx.entries && cache[id].None? && EntryFine(tx, id) && Authorised(tx, ran, id)
    }

    /** Between results: nothing is checked before the mux. */
    ghost predicate Sound()
      reads this, gas
    {
      && Going()
      && (if tx.muxId in cache then Balanced(tx, gas.assetValue) && SourcesSeen() && GasSettled() else
            cache == map[] && ran == [] && gas.Untouched())
    }

    /** The inputs that pay for gas have been checked, the storage is covered, and the gas left is the budget less what
        all programs have taken and less the storage. */
    ghost predicate GasSettled()
      requires MuxForm(tx)
      reads this, gas
    {
      && GasInputs(tx) <= cache.Keys && StorageCovered(tx, ran)
      && gas.gasLeft + Used(ran) + StorageCharge(tx) == Budget(gas.assetValue)
    }

    ghost predicate SourcesSeen()
      requires MuxForm(tx)
      reads this
    {
      forall i :: 0 <= i < |Mux(tx).sources| ==> Mux(tx).sources[i].ref in cache
    }

    /** Whatever the outcome: no program was run twice, and gas is conserved if the transaction counts as gas valid. */
    ghost predicate Stopped()
      reads this, gas
    {
      Recorded() && (gas.gasValid ==> gas.Conserved())
    }

    method RunProgram(id: Hash, which: nat) returns (err: Option<TxError>)
      requires gas.Conserved() && Recorded() && AllPassed(ran) && id in tx.entries && Needs(tx, id, which)
      requires forall k :: 0 <= k < |ran| ==> !(ran[k].id == id && ran[k].which == which)
      modifies this`world, this`ran, gas
      ensures gas.Conserved() && gas.assetValue == old(gas.assetValue) && gas.gasValid == old(gas.gasValid)
      ensures gas.storageGas == old(gas.storageGas)
      ensures var left := verify(old(world), id, which, old(gas.gasLeft)).1;
              && ran == old(ran) + [ProgramRun(id, which, old(world), world, old(gas.gasLeft), left, err.None?)]
              && (err.None? <==>
                    && left.Some? && left.value >= 0
                    && (gas.gasValid || (gas.gasUsed <= DEFAULT_GAS_CREDIT && gas.storageGas <= gas.gasLeft)))
      ensures Recorded() && gas.gasLeft + Used(ran) == old(gas.gasLeft) + Used(old(ran))
      ensures (AllPassed(ran) <==> err.None?) && (err.None? ==> Passed(ran, id, which))
    {
      hide TrueRecord, AllPassed, Passed, Used, Budget;
      var (w, left) := verify(world, id, which, gas.gasLeft);
      world := w;
      if left.None? {
        err := Some(ProgramFailed);
      } else {
        err := gas.UpdateUsage(left.value);
      }
      ghost var run := ProgramRun(id, which, old(world), w, old(gas.gasLeft), left, err.None?);
      RunRecorded(tx, verify, ran, origin, run);
      RunAppended(ran, run);
      UsedOneMore(ran, run);
      ran := ran + [run];
    }

    /** The runs added for one entry. */
    ghost predicate AddedFor(before: seq<ProgramRun>, id: Hash)
      reads this
    {
      before <= ran && forall k :: |before| <= k < |ran| ==> ran[k].id == id
    }

    /** The runs added since then are not those of entries that were remembered then. */
    ghost predicate NewRuns(before: seq<ProgramRun>, known: set<Hash>)
      reads this
    {
      before <= ran && forall k :: |before| <= k < |ran| ==> ran[k].id !in known
    }

    method InspectInput(id: Hash) returns (err: Option<TxError>)
      requires id in tx.entries && tx.entries[id].InputEntry? && Going() && id !in cache
      modifies this`world, this`ran, gas
      ensures gas.Conserved() && gas.assetValue == old(gas.assetValue)
      ensures tx.entries[id].kind != Coinbase ==> gas.gasValid == old(gas.gasValid)
      ensures gas.gasLeft + Used(ran) == old(gas.gasLeft) + Used(old(ran)) && gas.storageGas == old(gas.storageGas)
      ensures Recorded() && AddedFor(old(ran), id)
      ensures err.None? <==> InputFine(tx, id) && AllPassed(ran)
      ensures err.None? ==> Authorised(tx, ran, id)
    {
      hide Used, CheckDest, Recorded, EntryFine, MuxForm, Balanced, Passed;
      var e := tx.entries[id];
      if (e.kind == Issuance || e.kind == Coinbase) && !e.passes {
        return Some(Rejected);
      }
      if e.kind == Coinbase {
        if e.dest.value.asset != NATIVE {
          return Some(WrongCoinbaseAsset);
        }
        err := CheckDest(tx, id, e.dest, 0);
        if err.None? {
          gas.gasValid := true;
        }
        return;
      }
      if e.kind == Spend {
        if e.spent !in tx.entries {
          return Some(MissingEntry);
        }
        if !tx.entries[e.spent].ResultEntry? || tx.entries[e.spent].resultKind != PlainOutput {
          return Some(WrongEntryType);
        }
      }
      err := RunProgram(id, 0);
      if err.Some? {
        return;
      }
      if e.kind == Spend && tx.entries[e.spent].source.value != e.dest.value {
        return Some(MismatchedValue);
      }
      if e.kind == Issuance || e.kind == Spend || e.kind == Withdrawal {
        err := CheckDest(tx, id, e.dest, 0);
        if err.Some? {
          return;
        }
      }
      if HasSecond(e.kind) && e.second {
        if IsContract(e.kind) && !e.ready {
          return Some(Rejected);
        }
        ghost var before := ran;
        err := RunProgram(id, 1);
        StillPassed(before, ran, id, 0);
      }
    }

    method CheckInput(id: Hash) returns (err: Option<TxError>)
      requires Going() && id in tx.entries && tx.entries[id].InputEntry?
      modifies this`world, this`ran, this`cache, gas
      ensures gas.Conserved() && gas.assetValue == old(gas.assetValue) && Recorded()
      ensures NewRuns(old(ran), old(cache.Keys)) && gas.storageGas == old(gas.storageGas)
      ensures gas.gasLeft + Used(ran) == old(gas.gasLeft) + Used(old(ran))
      ensures tx.entries[id].kind != Coinbase ==> gas.gasValid == old(gas.gasValid)
      ensures err.None? <==> InputFine(tx, id) && AllPassed(ran)
      ensures err.None? ==> Going() && cache.Keys == old(cache.Keys) + {id}
    {
      if id in cache {
        return cache[id];
      }
      err := InspectInput(id);
      cache := cache[id := err];
      if err.None? {
        StillAuthorised(tx, old(ran), ran, old(cache.Keys));
      }
    }

    /** The inputs that pay for gas are checked first. */
    method CheckGasInputs() returns (err: Option<TxError>)
      requires Going() && !gas.gasValid
      modifies this`world, this`ran, this`cache, gas
      ensures gas.Conserved() && gas.assetValue == old(gas.assetValue) && !gas.gasValid && Recorded()
      ensures gas.gasLeft + Used(ran) == old(gas.gasLeft) + Used(old(ran)) && gas.storageGas == old(gas.storageGas)
      ensures err.None? <==> (forall g :: g in tx.gasInputIds ==> g in tx.entries && InputFine(tx, g)) && AllPassed(ran)
      ensures err.None? ==> Going() && cache.Keys == old(cache.Keys) + GasInputs(tx)
    {
      hide InputFine, EntryFine, Used, Recorded, Authorised, RanFor, AllPassed;
      ghost var before, done := cache.Keys, {};
      for i := 0 to |tx.gasInputIds|
        invariant Going() && gas.assetValue == old(gas.assetValue) && !gas.gasValid
        invariant gas.gasLeft + Used(ran) == old(gas.gasLeft) + Used(old(ran)) && gas.storageGas == old(gas.storageGas)
        invariant cache.Keys == before + done && done <= GasInputs(tx)
        invariant forall k :: 0 <= k < i ==> tx.gasInputIds[k] in done
        invariant forall k :: 0 <= k < i ==> tx.gasInputIds[k] in tx.entries && InputFine(tx, tx.gasInputIds[k])
      {
        var g := tx.gasInputIds[i];
        if g !in tx.entries {
          return Some(MissingEntry);
        }
        err := CheckInput(g);
        if err.Some? {
          return;
        }
        done := done + {g};
      }
      assert done == GasInputs(tx);
      return None;
    }

    ghost predicate OnlyInputs(ids: set<Hash>) {
      forall id :: id in ids ==> id in tx.entries && tx.entries[id].InputEntry?
    }

    method CheckDests() returns (err: Option<TxError>)
      requires MuxForm(tx)
      ensures err.None? <==> forall j :: 0 <= j < |Mux(tx).dests| ==> DestTied(tx, j)
    {
      hide DestTied, CheckDest;
      var dests := Mux(tx).dests;
      for j := 0 to |dests|
        invariant forall k :: 0 <= k < j ==> DestTied(tx, k)
      {
        DestChecked(tx, j);
        err := CheckDest(tx, tx.muxId, dests[j], j);
        if err.Some? {
          return;
        }
      }
      return None;
    }

    /** Source i of the mux: the input itself, and that the two agree. */
    method CheckSource(i: nat) returns (err: Option<TxError>)
      requires Going() && i < |Mux(tx).sources|
      modifies this`world, this`ran, this`cache, gas
      ensures gas.Conserved() && gas.assetValue == old(gas.assetValue) && Recorded()
              && NewRuns(old(ran), old(cache.Keys))
      ensures gas.gasLeft + Used(ran) == old(gas.gasLeft) + Used(old(ran))
      ensures err.None? <==> InputFine(tx, Mux(tx).sources[i].ref) && SourceTied(tx, i) && AllPassed(ran)
      ensures err.None? ==> Going() && cache.Keys == old(cache.Keys) + {Mux(tx).sources[i].ref}
    {
      hide InputFine, EntryFine, Recorded, Authorised, Used, AllPassed, RanFor;
      var s := Mux(tx).sources[i];
      err := CheckInput(s.ref);
      if err.Some? {
        return;
      }
      if s.position != 0 {
        return Some(WrongPosition);
      }
      err := CompareDest(tx.entries[s.ref].dest, tx.muxId, i, s.value);
    }

    method CheckSources() returns (err: Option<TxError>)
      requires Going()
      modifies this`world, this`ran, this`cache, gas
      ensures gas.Conserved() && gas.assetValue == old(gas.assetValue) && Recorded()
              && NewRuns(old(ran), old(cache.Keys))
      ensures gas.gasLeft + Used(ran) == old(gas.gasLeft) + Used(old(ran))
      ensures err.None? <==>
                && (forall i :: 0 <= i < |Mux(tx).sources| ==>
                    InputFine(tx, Mux(tx).sources[i].ref) && SourceTied(tx, i))
                && AllPassed(ran)
      ensures err.None? ==>
              Going() && OnlyInputs(cache.Keys - old(cache.Keys)) && SourcesSeen() && old(cache.Keys) <= cache.Keys
    {
      hide InputFine, EntryFine, SourceTied, Recorded, Authorised, Used, AllPassed, RanFor;
      ghost var before := cache.Keys;
      for i := 0 to |Mux(tx).sources|
        invariant Going() && gas.assetValue == old(gas.assetValue) && OnlyInputs(cache.Keys - before)
        invariant NewRuns(old(ran), before) && before <= cache.Keys
        invariant gas.gasLeft + Used(ran) == old(gas.gasLeft) + Used(old(ran))
        invariant forall k :: 0 <= k < i ==>
                    Mux(tx).sources[k].ref in cache && InputFine(tx, Mux(tx).sources[k].ref) && SourceTied(tx, k)
      {
        err := CheckSource(i);
        if err.Some? {
          return;
        }
      }
      return None;
    }

    method InspectMux() returns (err: Option<TxError>)
      requires Sound() && tx.muxId !in cache
      modifies this`world, this`ran, this`cache, gas
      ensures Stopped()
      ensures err.None? <==> MuxFine(tx) && AllPassed(ran) && StorageCovered(tx, ran)
      ensures err.None? ==>
        Going() && OnlyInputs(cache.Keys) && Balanced(tx, gas.assetValue) && SourcesSeen() && GasSettled()
    {
      hide InputFine, EntryFine, SourceTied, DestTied, InBalance, SpendExact, Used, UsedBy, StorageGas, Budget,
        Recorded;
      FineInputsAreExact(tx);
      err := SettleParity(tx, gas);
      if err.Some? {
        return;
      }
      err := CheckGasInputs();
      if err.Some? {
        return;
      }
      err := CheckDests();
      if err.Some? {
        return;
      }
      UsedByAll(ran, GasInputs(tx));
      NothingUsed();
      assert StorageCovered(tx, ran) <==>
             (tx.gasInputIds != [] ==> 0 <= gas.gasLeft - gas.storageGas <= MAX_INT64);
      if |tx.gasInputIds| > 0 {
        err := gas.SetGasValid();
        if err.Some? {
          return;
        }
      }
      ghost var before := ran;
      err := CheckSources();
      UsedByOthers(before, ran, GasInputs(tx));
    }

    method CheckMux() returns (err: Option<TxError>)
      requires Sound()
      modifies this`world, this`ran, this`cache, gas
      ensures Stopped()
      ensures err.None? <==> MuxFine(tx) && AllPassed(ran) && StorageCovered(tx, ran)
      ensures err.None? ==> Sound() && tx.muxId in cache && OnlyInputs(cache.Keys - old(cache.Keys) - {tx.muxId})
      ensures old(cache.Keys) <= cache.Keys
    {
      hide MuxFine, InputFine, Balanced, Recorded, Used;
      if tx.muxId in cache {
        return cache[tx.muxId];
      }
      err := InspectMux();
      cache := cache[tx.muxId := err];
    }

    method InspectResult(r: Hash) returns (err: Option<TxError>)
      requires Sound() && r in tx.resultIds && r !in cache
      modifies this`world, this`ran, this`cache, gas
      ensures Stopped()
      ensures err.None? <==> MuxFine(tx) && ResultTied(tx, r) && AllPassed(ran) && StorageCovered(tx, ran)
      ensures err.None? ==> r !in cache && tx.muxId in cache && Authorised(tx, ran, r) && Checking(r)
      ensures old(cache.Keys) <= cache.Keys
    {
      hide MuxFine, InputFine, Balanced, EntryFine, UsedBy, Recorded, Used;
      err := CheckMux();
      if err.Some? {
        return;
      }
      var e := tx.entries[r];
      if e.source.position >= |Mux(tx).dests| {
        return Some(WrongPosition);
      }
      err := CompareDest(Mux(tx).dests[e.source.position], r, 0, e.source.value);
      if err.Some? {
        return;
      }
      if e.resultKind == Deposit && e.runs {
        ghost var before := ran;
        err := RunProgram(r, 0);
        StillAuthorised(tx, before, ran, cache.Keys);
        UsedByOthers(before, ran, GasInputs(tx));
      }
    }

    /** Sound, while an entry that is not remembered yet is being checked. */
    ghost predicate Checking(r: Hash)
      reads this, gas
    {
      && MuxForm(tx) && gas.Conserved() && Recorded() && AllPassed(ran) && RanFor(ran, cache.Keys + {r})
      && (forall id :: id in cache ==>
            id in tx.entries && cache[id].None? && EntryFine(tx, id) && Authorised(tx, ran, id))
      && Balanced(tx, gas.assetValue) && SourcesSeen() && GasSettled()
    }

    method CheckResult(r: Hash) returns (err: Option<TxError>)
      requires Sound() && r in tx.resultIds
      modifies this`world, this`ran, this`cache, gas
      ensures Stopped()
      ensures err.None? <==> MuxFine(tx) && ResultTied(tx, r) && AllPassed(ran) && StorageCovered(tx, ran)
      ensures err.None? ==> Sound() && tx.muxId in cache && old(cache.Keys) + {r} <= cache.Keys
    {
      hide MuxFine, InputFine, Balanced, Authorised, Recorded, Used;
      if r in cache {
        return cache[r];
      }
      err := InspectResult(r);
      cache := cache[r := err];
    }

    /** All results; and the mux on its own if a version 1 transaction has no results. */
    method CheckHeader() returns (err: Option<TxError>)
      requires Sound()
      modifies this`world, this`ran, this`cache, gas
      ensures Stopped()
      ensures err.None? <==> TxFine(tx) && AllPassed(ran) && (LooksAtMux(tx) ==> StorageCovered(tx, ran))
      ensures err.None? && LooksAtMux(tx) ==> Sound() && tx.muxId in cache
      ensures err.None? ==> forall r :: r in tx.resultIds ==> Authorised(tx, ran, r)
    {
      hide MuxFine, InputFine, Balanced, ResultTied, Authorised, Recorded, Used;
      for i := 0 to |tx.resultIds|
        invariant Sound() && (i > 0 ==> MuxFine(tx) && tx.muxId in cache)
        invariant forall k :: 0 <= k < i ==> ResultTied(tx, tx.resultIds[k]) && tx.resultIds[k] in cache
      {
        err := CheckResult(tx.resultIds[i]);
        if err.Some? {
          return;
        }
      }
      if tx.version == 1 && |tx.resultIds| == 0 {
        err := CheckMux();
        return;
      }
      return None;
    }
  }

  /** A transaction of another version that has no results is accepted without a look at its mux. */
  predicate LooksAtMux(tx: Transaction) {
    tx.resultIds != [] || tx.version == 1
  }

  ghost predicate TxFine(tx: Transaction)
    requires MuxForm(tx)
  {
    (LooksAtMux(tx) ==> MuxFine(tx)) && forall r :: r in tx.resultIds ==> ResultTied(tx, r)
  }

  /** `admissible` stands for the checks of version, size, time range and standard programs that come first.  A
      transaction is accepted exactly when its graph is fine, all programs that were run have passed and what the gas
      inputs leave of the gas budget covers the storage.  Whatever the outcome, no program was run twice, and gas used
      and left add up to the budget if the transaction counts as gas valid. */
  method ValidateTx(tx: Transaction, admissible: bool, verify: (nat, Hash, nat, int) -> (nat, Option<int>), world: nat)
    returns (vs: Validation, err: Option<TxError>)
    requires MuxForm(tx)
    ensures vs.tx == tx && vs.verify == verify && vs.origin == world && vs.Stopped()
    ensures err.None? <==>
            admissible && TxFine(tx) && AllPassed(vs.ran) && (LooksAtMux(tx) ==> StorageCovered(tx, vs.ran))
    ensures err.None? && LooksAtMux(tx) ==> Accepted(tx, vs.gas.assetValue, vs.ran)
  {
    hide MuxFine, InputFine, Balanced, ResultTied, Authorised, EntryFine, Accepted, InBalance;
    vs := new Validation(tx, verify, world);
    if !admissible {
      return vs, Some(Rejected);
    }
    err := vs.CheckHeader();
    if err.None? && LooksAtMux(tx) {
      SettledIsAccepted(vs);
    }
  }

  lemma FineIsTied(tx: Transaction)
    requires MuxForm(tx)
    ensures MuxFine(tx) ==> MuxTied(tx)
  {
  }

  /** Who had to agree to an input, and what it had to meet, by kind. */
  predicate InputAgreed(tx: Transaction, ran: seq<ProgramRun>, id: Hash)
    requires id in tx.entries && tx.entries[id].InputEntry?
  {
    var e := tx.entries[id];
    match e.kind
    case Coinbase => e.passes && e.dest.value.asset == NATIVE
    case Issuance => e.passes && Passed(ran, id, 0)
    case Spend =>
      && Passed(ran, id, 0) && e.spent in tx.entries && tx.entries[e.spent].ResultEntry?
      && tx.entries[e.spent].resultKind == PlainOutput && tx.entries[e.spent].source.value == e.dest.value
    case Withdrawal => Passed(ran, id, 0) && (e.second ==> Passed(ran, id, 1))
    case Creation => Passed(ran, id, 0) && (e.second ==> e.ready && Passed(ran, id, 1))
    case Call => Passed(ran, id, 0) && (e.second ==> e.ready && Passed(ran, id, 1))
    case Contract => Passed(ran, id, 0) && (e.second ==> e.ready && Passed(ran, id, 1))
  }

  /** What acceptance means for the flow of values, for who had to agree, and for gas. */
  ghost predicate Accepted(tx: Transaction, surplus: nat, ran: seq<ProgramRun>)
    requires MuxForm(tx)
  {
    && MuxTied(tx) && Balanced(tx, surplus) && (forall r :: r in tx.resultIds ==> ResultTied(tx, r))
    && (forall a: Hash :: TotalSources(tx, a) <= MAX_INT64)
    && (forall i :: 0 <= i < |Mux(tx).sources| ==> InputAgreed(tx, ran, Mux(tx).sources[i].ref))
    && (forall g :: g in tx.gasInputIds ==> g in tx.entries && InputAgreed(tx, ran, g))
    && (forall r :: r in tx.resultIds && tx.entries[r].resultKind == Deposit && tx.entries[r].runs ==>
          Passed(ran, r, 0))
    && Used(ran) + (if tx.gasInputIds == [] then 0 else StorageGas(tx)) <= Budget(surplus)
  }

  lemma FineIsAgreed(tx: Transaction, ran: seq<ProgramRun>, id: Hash)
    requires id in tx.entries && tx.entries[id].InputEntry? && InputFine(tx, id) && Authorised(tx, ran, id)
    ensures InputAgreed(tx, ran, id)
  {
    hide Passed, CheckDest;
  }

  lemma FittingSources(tx: Transaction, n: nat, asset: Hash)
    requires MuxForm(tx) && n <= |Mux(tx).sources| && forall i :: 0 <= i < n ==> SourceFits(tx, i)
    ensures SourceSum(Mux(tx).sources, n, asset) <= MAX_INT64
  {
    if n > 0 {
      assert SourceFits(tx, n - 1);
      FittingSources(tx, n - 1, asset);
    }
  }

  lemma SettledIsAccepted(vs: Validation)
    requires vs.Sound() && vs.tx.muxId in vs.cache && TxFine(vs.tx) && LooksAtMux(vs.tx)
    requires forall r :: r in vs.tx.resultIds ==> Authorised(vs.tx, vs.ran, r)
    ensures Accepted(vs.tx, vs.gas.assetValue, vs.ran)
  {
    hide MuxTied, InputFine, Balanced, ResultTied, SourceFits, DestFits, Passed, Once, Genuine, Threaded, Used,
      InputAgreed, UsedBy, Budget, StorageGas;
    var tx := vs.tx;
    forall a: Hash
      ensures TotalSources(tx, a) <= MAX_INT64
    {
      FittingSources(tx, |Mux(tx).sources|, a);
    }
    forall i | 0 <= i < |Mux(tx).sources|
      ensures InputAgreed(tx, vs.ran, Mux(tx).sources[i].ref)
    {
      FineIsAgreed(tx, vs.ran, Mux(tx).sources[i].ref);
    }
    forall g | g in tx.gasInputIds
      ensures g in tx.entries && InputAgreed(tx, vs.ran, g)
    {
      assert g in vs.cache;
      FineIsAgreed(tx, vs.ran, g);
    }
  }

  /** In an accepted transaction the results of every asset total at most what the inputs bring; apart from the native
      asset the mux sends on exactly what it receives, and of the native asset it keeps exactly the surplus. */
  lemma AcceptedConserves(tx: Transaction, surplus: nat, ran: seq<ProgramRun>, asset: Hash)
    requires MuxForm(tx) && Accepted(tx, surplus, ran)
    ensures Total(tx, Results(tx), asset) + (if asset == NATIVE then surplus else 0) <= Total(tx, Inputs(tx), asset)
    ensures TotalSources(tx, asset) == TotalDests(tx, asset) + if asset == NATIVE then surplus else 0
  {
    hide MuxForm, MuxTied, ResultTied, Total, TotalSources, TotalDests, Authorised;
    FlowIsBounded(tx, asset);
  }

  /** No program is run that the kind of its entry does not call for. */
  lemma OnlyTheseRun(vs: Validation, k: nat)
    requires vs.Recorded() && k < |vs.ran|
    ensures vs.ran[k].id in vs.tx.entries
    ensures var e := vs.tx.entries[vs.ran[k].id];
            || (e.InputEntry? && vs.ran[k].which == 0 && e.kind != Coinbase)
            || (e.InputEntry? && vs.ran[k].which == 1 && e.second && e.kind in {Creation, Call, Contract, Withdrawal})
            || (e.ResultEntry? && vs.ran[k].which == 0 && e.resultKind == Deposit && e.runs)
  {
    assert OnDemand(vs.tx, vs.ran[k]);
  }

  /** A surplus pays for just so much gas. */
  lemma BudgetExactly(assetValue: nat, amount: nat)
    ensures amount <= Budget(assetValue) <==> amount <= MAX_GAS_AMOUNT && amount * VM_GAS_RATE <= assetValue
  {
  }

  /** Gas used is covered by the native surplus and by the limit for one transaction. */
  lemma GasIsPaidFor(assetValue: nat, left: nat, used: int)
    requires left + used == Budget(assetValue)
    ensures used <= MAX_GAS_AMOUNT && used * VM_GAS_RATE <= assetValue
  {
  }

  lemma StillPassed(before: seq<ProgramRun>, after: seq<ProgramRun>, id: Hash, which: nat)
    requires before <= after
    ensures Passed(before, id, which) ==> Passed(after, id, which)
  {
    if Passed(before, id, which) {
      var k :| 0 <= k < |before| && before[k].id == id && before[k].which == which && before[k].ok;
      assert after[k] == before[k];
    }
  }

  lemma StillAuthorised(tx: Transaction, before: seq<ProgramRun>, after: seq<ProgramRun>, ids: set<Hash>)
    requires before <= after && forall id :: id in ids ==> id in tx.entries && Authorised(tx, before, id)
    ensures forall id :: id in ids ==> Authorised(tx, after, id)
  {
    forall id | id in ids
      ensures Authorised(tx, after, id)
    {
      StillPassed(before, after, id, 0);
      StillPassed(before, after, id, 1);
    }
  }

  lemma FineInputsAreExact(tx: Transaction)
    requires MuxForm(tx)
    ensures forall id :: id in tx.entries && tx.entries[id].InputEntry? && InputFine(tx, id) ==> SpendExact(tx, id)
  {
  }
}
