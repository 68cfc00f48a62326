// core/account/utxo_keeper.go: reserving outputs for transactions that are
// being built.  Two maps record the reservations and must agree.
module UtxoKeeper {
  import opened Wrappers
  import opened Bc
  import opened Utxos

  datatype Reservation = Reservation(id: nat, utxos: seq<Utxo>, change: nat, expiry: int)

  datatype ReserveError = ErrInsufficient | ErrImmature | ErrReserved | ErrMatchUtxo | Panic

  function Ids(utxos: seq<Utxo>): set<Hash> {
    set u | u in utxos :: u.outputId
  }

  // ----------------------------------------------------- the two maps as a value

  datatype Book = Book(reserved: map<Hash, nat>, reservations: map<nat, Reservation>)

  /** An output is reserved for r exactly when the live reservation r lists it. */
  predicate Agrees(b: Book) {
    && (forall o :: o in b.reserved ==>
        b.reserved[o] in b.reservations && o in Ids(b.reservations[b.reserved[o]].utxos))
    && (forall r, o :: r in b.reservations && o in Ids(b.reservations[r].utxos) ==>
        o in b.reserved && b.reserved[o] == r)
  }

  function Enter(b: Book, res: Reservation): Book {
    Book(map o | o in b.reserved.Keys + Ids(res.utxos) :: if o in Ids(res.utxos) then res.id else b.reserved[o],
         b.reservations[res.id := res])
  }

  function Drop(b: Book, rid: nat): Book {
    if rid !in b.reservations then b
    else Book(b.reserved - Ids(b.reservations[rid].utxos), b.reservations - {rid})
  }

  /** Live reservations never share an output. */
  lemma LiveReservationsDisjoint(b: Book, r: nat, s: nat)
    requires Agrees(b) && r in b.reservations && s in b.reservations && r != s
    ensures Ids(b.reservations[r].utxos) !! Ids(b.reservations[s].utxos)
  {
    forall o | o in Ids(b.reservations[r].utxos)
      ensures o !in Ids(b.reservations[s].utxos)
    {
      assert b.reserved[o] == r;
    }
  }

  lemma EnterAgrees(b: Book, res: Reservation)
    requires Agrees(b) && res.id !in b.reservations && Ids(res.utxos) !! b.reserved.Keys
    ensures Agrees(Enter(b, res))
  {
    hide Ids;
    var e, ids := Enter(b, res), Ids(res.utxos);
    forall o | o in e.reserved
      ensures e.reserved[o] in e.reservations && o in Ids(e.reservations[e.reserved[o]].utxos)
    {
      if o !in ids {
        assert o in b.reserved && b.reserved[o] != res.id;
      }
    }
    forall r, o | r in e.reservations && o in Ids(e.reservations[r].utxos)
      ensures o in e.reserved && e.reserved[o] == r
    {
      if r != res.id {
        assert o in b.reserved && b.reserved[o] == r && o !in ids;
      }
    }
  }

  lemma DropAgrees(b: Book, rid: nat)
    requires Agrees(b)
    ensures Agrees(Drop(b, rid))
  {
    hide Ids;
    if rid in b.reservations {
      var d, ids := Drop(b, rid), Ids(b.reservations[rid].utxos);
      forall o | o in d.reserved
        ensures d.reserved[o] in d.reservations && o in Ids(d.reservations[d.reserved[o]].utxos)
      {
        assert o in b.reserved && o !in ids && b.reserved[o] != rid;
      }
      forall r, o | r in d.reservations && o in Ids(d.reservations[r].utxos)
        ensures o in d.reserved && d.reserved[o] == r
      {
        LiveReservationsDisjoint(b, r, rid);
        assert o in b.reserved && b.reserved[o] == r && o !in ids;
      }
    }
  }

  /** The reservations determine which outputs are reserved. */
  lemma AgreementDetermines(a: Book, b: Book)
    requires Agrees(a) && Agrees(b) && a.reservations == b.reservations
    ensures a == b
  {
    forall o | o in a.reserved
      ensures o in b.reserved && b.reserved[o] == a.reserved[o]
    {
    }
    forall o | o in b.reserved
      ensures o in a.reserved
    {
    }
    assert a.reserved == b.reserved;
  }

  /** Cancelling a new reservation undoes it. */
  lemma DropUndoesEnter(b: Book, res: Reservation)
    requires Agrees(b) && res.id !in b.reservations && Ids(res.utxos) !! b.reserved.Keys
    ensures Drop(Enter(b, res), res.id) == b
  {
    EnterAgrees(b, res);
    DropAgrees(Enter(b, res), res.id);
    assert Drop(Enter(b, res), res.id).reservations == b.reservations;
    AgreementDetermines(Drop(Enter(b, res), res.id), b);
  }

  // ---------------------------------------------------- what is there to be reserved

  /** Outputs are kept under their ids. */
  predicate Keyed(m: map<Hash, Utxo>) {
    forall h :: h in m ==> m[h].outputId == h
  }

  /** The outputs of an account and asset that are mature, or that are not. */
  ghost function Matching(m: multiset<Utxo>, account: nat, asset: Hash, height: nat, mature: bool): multiset<Utxo> {
    Keep(m, (u: Utxo) => u.accountId == account && u.assetId == asset && (u.validHeight <= height) == mature)
  }

  ghost function Locked(m: multiset<Utxo>, reserved: map<Hash, nat>): multiset<Utxo> {
    Keep(m, (u: Utxo) => u.outputId in reserved)
  }

  ghost function Free(m: multiset<Utxo>, reserved: map<Hash, nat>): multiset<Utxo> {
    Keep(m, (u: Utxo) => u.outputId !in reserved)
  }

  lemma LockedAndFree(m: multiset<Utxo>, reserved: map<Hash, nat>)
    ensures Total(Locked(m, reserved)) + Total(Free(m, reserved)) == Total(m)
  {
    KeepBoth(m, (u: Utxo) => u.outputId in reserved, (u: Utxo) => u.outputId !in reserved);
  }

  // ------------------------------------------------------------------ the keeper

  class UtxoKeeper {
    var nextIndex: nat
    var standard: map<Hash, Utxo>    // stored outputs
    var contract: map<Hash, Utxo>    // stored outputs of contracts, found by hash only
    var currentHeight: nat
    var unconfirmed: map<Hash, Utxo>
    var reserved: map<Hash, nat>
    var reservations: map<nat, Reservation>

    constructor ()
      ensures Valid() && Bookkeeping() == Book(map[], map[])
      ensures standard == unconfirmed == contract == map[]
    {
      nextIndex, standard, contract, currentHeight := 0, map[], map[], 0;
      unconfirmed, reserved, reservations := map[], map[], map[];
    }

    function Bookkeeping(): Book
      reads this
    {
      Book(reserved, reservations)
    }

    /** In every reachable state the two maps agree, reservation numbers have been handed out, and outputs are kept
        under their ids.  An output may be stored and unconfirmed at the same time. */
    ghost predicate Valid()
      reads this
    {
      && Agrees(Bookkeeping())
      && (forall r :: r in reservations ==> r <= nextIndex && reservations[r].id == r)
      && Keyed(unconfirmed) && Keyed(standard) && Keyed(contract)
    }

    /** Every output the keeper can offer, twice if it is stored and unconfirmed. */
    ghost function Offered(useUnconfirmed: bool): multiset<Utxo>
      reads this`standard, this`unconfirmed
    {
      multiset(standard.Values) + if useUnconfirmed then multiset(unconfirmed.Values) else multiset{}
    }

    ghost function Mature(account: nat, asset: Hash, useUnconfirmed: bool): multiset<Utxo>
      reads this
    {
      Matching(Offered(useUnconfirmed), account, asset, currentHeight, true)
    }

    ghost function Immature(account: nat, asset: Hash, useUnconfirmed: bool): multiset<Utxo>
      reads this
    {
      Matching(Offered(useUnconfirmed), account, asset, currentHeight, false)
    }

    /** The wallet stores and removes outputs, and the chain grows, while the keeper is in use. */
    method WalletUpdates(standard: map<Hash, Utxo>, contract: map<Hash, Utxo>, height: nat)
      requires Valid() && Keyed(standard) && Keyed(contract)
      modifies this`standard, this`contract, this`currentHeight
      ensures Valid() && this.standard == standard && this.contract == contract && currentHeight == height
    {
      this.standard, this.contract, currentHeight := standard, contract, height;
    }

    method AddUnconfirmedUtxo(utxos: seq<Utxo>)
      requires Valid()
      modifies this`unconfirmed
      ensures Valid() && Bookkeeping() == old(Bookkeeping())
      ensures unconfirmed.Keys == old(unconfirmed.Keys) + Ids(utxos)
      ensures forall h :: h in old(unconfirmed) && h !in Ids(utxos) ==> unconfirmed[h] == old(unconfirmed)[h]
      ensures forall h :: h in Ids(utxos) ==> unconfirmed[h] in utxos
    {
      for i := 0 to |utxos|
        invariant Valid() && Bookkeeping() == old(Bookkeeping())
        invariant unconfirmed.Keys == old(unconfirmed.Keys) + Ids(utxos[..i])
        invariant forall h :: h in old(unconfirmed) && h !in Ids(utxos[..i]) ==> unconfirmed[h] == old(unconfirmed)[h]
        invariant forall h :: h in Ids(utxos[..i]) ==> unconfirmed[h] in utxos
      {
        assert utxos[..i + 1] == utxos[..i] + [utxos[i]];
        assert Ids(utxos[..i + 1]) == Ids(utxos[..i]) + {utxos[i].outputId};
        unconfirmed := unconfirmed[utxos[i].outputId := utxos[i]];
      }
      assert utxos[..|utxos|] == utxos;
    }

    method RemoveUnconfirmedUtxo(hashes: seq<Hash>)
      requires Valid()
      modifies this`unconfirmed
      ensures Valid() && Bookkeeping() == old(Bookkeeping())
      ensures unconfirmed == old(unconfirmed) - (set h | h in hashes)
    {
      for i := 0 to |hashes|
        invariant Valid() && Bookkeeping() == old(Bookkeeping())
        invariant unconfirmed == old(unconfirmed) - (set h | h in hashes[..i])
      {
        unconfirmed := unconfirmed - {hashes[i]};
      }
      assert hashes[..|hashes|] == hashes;
    }

    method Cancel(rid: nat)
      requires Valid()
      modifies this`reserved, this`reservations
      ensures Valid() && Bookkeeping() == Drop(old(Bookkeeping()), rid)
    {
      if rid !in reservations {
        return;
      }
      ghost var before := Bookkeeping();
      DropAgrees(before, rid);
      var utxos := reservations[rid].utxos;
      reservations := reservations - {rid};
      reserved := Unmark(reserved, utxos);
      assert Bookkeeping() == Drop(before, rid);
    }

    /** What is left while the reservations in rids have not been looked at yet. */
    static ghost function Kept(start: map<nat, Reservation>, rids: set<nat>, now: int): map<nat, Reservation> {
      map r | r in start && (r in rids || start[r].expiry >= now) :: start[r]
    }

    static lemma KeptEnds(start: map<nat, Reservation>, now: int)
      ensures Kept(start, start.Keys, now) == start
      ensures Kept(start, {}, now) == map r | r in start && start[r].expiry >= now :: start[r]
    {
    }

    static lemma KeptStep(book: Book, start: map<nat, Reservation>, rids: set<nat>, rid: nat, now: int)
      requires rid in rids && rid in start && book.reservations == Kept(start, rids, now)
      ensures rid in book.reservations
      ensures Kept(start, rids - {rid}, now) ==
              if book.reservations[rid].expiry < now then Drop(book, rid).reservations else book.reservations
    {
    }

    method ExpireReservation(now: int)
      requires Valid()
      modifies this`reserved, this`reservations
      ensures Valid()
      ensures reservations ==
              map r | r in old(reservations) && old(reservations)[r].expiry >= now :: old(reservations)[r]
    {
      hide Agrees, Drop, Kept;
      var rids := reservations.Keys;
      ghost var start := reservations;
      KeptEnds(start, now);
      while rids != {}
        invariant Valid() && rids <= start.Keys && reservations == Kept(start, rids, now)
        decreases |rids|
      {
        var rid :| rid in rids;
        KeptStep(Bookkeeping(), start, rids, rid, now);
        rids := rids - {rid};
        if rid in reservations && reservations[rid].expiry < now {
          Cancel(rid);
        }
      }
    }

    /** Splits off the reserved outputs and chooses among the others. */
    method OptUtxos(utxos: seq<Utxo>, amount: nat)
      returns (panics: bool, opt: seq<Utxo>, optAmount: nat, reservedAmount: nat)
      ensures panics <==> amount == 0 && Free(multiset(utxos), reserved) != multiset{}
      ensures reservedAmount == Total(Locked(multiset(utxos), reserved)) % TWO_64
      ensures !panics ==> Selects(Free(multiset(utxos), reserved), amount, opt, optAmount)
      ensures !panics && optAmount >= amount > 0 && Total(Free(multiset(utxos), reserved)) < TWO_64 ==>
                Economical(Free(multiset(utxos), reserved), amount, opt)
    {
      hide Descending, Above, Total, Selects, Free, Locked, Add64, Settles;
      var sorted := SortByAmount(utxos);
      var list := [];
      reservedAmount := 0;
      DividedNone(sorted, reserved);
      for i := 0 to |sorted|
        invariant multiset(list) == Free(multiset(sorted[..i]), reserved)
        invariant Descending(list) && Above(list, sorted, i)
        invariant reservedAmount == Total(Locked(multiset(sorted[..i]), reserved)) % TWO_64
      {
        DividedStep(sorted, i, list, reserved);
        if sorted[i].outputId in reserved {
          reservedAmount := Add64(reservedAmount, sorted[i].amount);
        } else {
          list := list + [sorted[i]];
        }
      }
      assert sorted[..|sorted|] == sorted;
      panics, opt, optAmount := Select(list, amount);
    }

    /** The matching mature outputs, and the total of the matching immature ones. */
    method FindUtxos(account: nat, asset: Hash, useUnconfirmed: bool) returns (utxos: seq<Utxo>, immature: nat)
      requires Valid()
      ensures multiset(utxos) == Mature(account, asset, useUnconfirmed)
      ensures immature == Total(Immature(account, asset, useUnconfirmed)) % TWO_64
    {
      hide Total, Matching;
      var listed := ListValues(standard);
      if useUnconfirmed {
        var more := ListValues(unconfirmed);
        listed := listed + more;
      }
      assert multiset(listed) == Offered(useUnconfirmed);
      utxos, immature := Split(listed, account, asset, currentHeight);
    }

    /** Chooses outputs for the amount, or says why it cannot be reserved. */
    method Choose(account: nat, asset: Hash, amount: nat, useUnconfirmed: bool)
      returns (opt: seq<Utxo>, optAmount: nat, err: Option<ReserveError>)
      requires Valid()
      ensures var mature := Mature(account, asset, useUnconfirmed);
              var immature := Immature(account, asset, useUnconfirmed);
              && (err == Some(Panic) <==> amount == 0 && Free(mature, reserved) != multiset{})
              && (err != Some(Panic) ==> Selects(Free(mature, reserved), amount, opt, optAmount))
              && (err == None ==> optAmount >= amount)
              && (err == None && amount > 0 && Total(Free(mature, reserved)) < TWO_64 ==>
                    Economical(Free(mature, reserved), amount, opt))
              && (err != Some(Panic) && Total(mature) + Total(immature) < TWO_64 ==>
                    err == Verdict(Total(Free(mature, reserved)), Total(Locked(mature, reserved)), Total(immature),
                                   amount))
    {
      hide Valid, Free, Locked, Total, Selects, Mature, Immature, Economical;
      var utxos, immature := FindUtxos(account, asset, useUnconfirmed);
      ghost var mature := Mature(account, asset, useUnconfirmed);
      var panics, reservedAmount;
      panics, opt, optAmount, reservedAmount := OptUtxos(utxos, amount);
      if panics {
        err := Some(Panic);
        return;
      }
      err := Classify(optAmount, reservedAmount, immature, amount);
      VerdictReached(mature, reserved, Immature(account, asset, useUnconfirmed), amount, opt, optAmount);
    }

    /** Records a new reservation of unreserved outputs in both maps. */
    method Record(utxos: seq<Utxo>, change: nat, expiry: int) returns (res: Reservation)
      requires Valid() && Ids(utxos) !! reserved.Keys
      modifies this`nextIndex, this`reserved, this`reservations
      ensures Valid() && nextIndex == old(nextIndex) + 1
      ensures res == Reservation(old(nextIndex) + 1, utxos, change, expiry)
      ensures Bookkeeping() == Enter(old(Bookkeeping()), res) && res.id !in old(reservations)
    {
      hide Agrees;
      res := Reservation(nextIndex + 1, utxos, change, expiry);
      ghost var before := Bookkeeping();
      EnterAgrees(before, res);
      nextIndex := nextIndex + 1;
      reservations := reservations[res.id := res];
      reserved := Mark(reserved, utxos, res.id);
      assert Bookkeeping() == Enter(before, res);
    }

    /** Reserves enough unreserved mature outputs, or says exactly why it cannot: not even with the immature and
        the reserved ones, only with the immature ones, or only with outputs that are already reserved.  The reasons
        and the coverage are right as long as the totals of the matching outputs do not overflow. */
    method Reserve(account: nat, asset: Hash, amount: nat, useUnconfirmed: bool, expiry: int)
      returns (r: Result<Reservation, ReserveError>)
      requires Valid()
      modifies this`nextIndex, this`reserved, this`reservations
      ensures Valid()
      ensures r == Err(Panic) <==>
              amount == 0 && Free(old(Mature(account, asset, useUnconfirmed)), old(reserved)) != multiset{}
      ensures r.Err? ==> Bookkeeping() == old(Bookkeeping()) && nextIndex == old(nextIndex)
      ensures r.Ok? ==>
        && nextIndex == old(nextIndex) + 1 == r.value.id && r.value.expiry == expiry
        && Bookkeeping() == Enter(old(Bookkeeping()), r.value) && r.value.id !in old(reservations)
        && Ids(r.value.utxos) !! old(reserved.Keys)
        && Selects(Free(old(Mature(account, asset, useUnconfirmed)), old(reserved)), amount,
                   r.value.utxos, amount + r.value.change)
        && (forall u :: u in r.value.utxos ==>
              u.accountId == account && u.assetId == asset && u.validHeight <= currentHeight)
        && (var free := Free(old(Mature(account, asset, useUnconfirmed)), old(reserved));
            amount > 0 && Total(free) < TWO_64 ==> Economical(free, amount, r.value.utxos))
      ensures var mature := old(Mature(account, asset, useUnconfirmed));
              var immature := old(Immature(account, asset, useUnconfirmed));
              r != Err(Panic) && Total(mature) + Total(immature) < TWO_64 ==>
                (if r.Ok? then None else Some(r.error)) ==
                Verdict(Total(Free(mature, old(reserved))), Total(Locked(mature, old(reserved))), Total(immature),
                        amount)
    {
      hide Economical, Selects, Total, Free, Locked;
      var opt, optAmount, err := Choose(account, asset, amount, useUnconfirmed);
      if err.Some? {
        return Err(err.value);
      }
      SelectedAreFree(Mature(account, asset, useUnconfirmed), reserved, amount, opt, optAmount);
      SelectedMatch(Offered(useUnconfirmed), account, asset, currentHeight, reserved, amount, opt, optAmount);
      var res := Record(opt, optAmount - amount, expiry);
      return Ok(res);
    }

    method ReserveParticular(hash: Hash, useUnconfirmed: bool, expiry: int)
      returns (r: Result<Reservation, ReserveError>)
      requires Valid()
      modifies this`nextIndex, this`reserved, this`reservations
      ensures Valid()
      ensures r == Err(ErrReserved) <==> hash in old(reserved)
      ensures r == Err(ErrMatchUtxo) <==> hash !in old(reserved) && old(Find(hash, useUnconfirmed)).None?
      ensures r == Err(ErrImmature) <==>
              hash !in old(reserved) && old(Find(hash, useUnconfirmed)).Some?
              && old(Find(hash, useUnconfirmed)).value.validHeight > currentHeight
      ensures r.Err? ==> r.error in {ErrReserved, ErrMatchUtxo, ErrImmature}
      ensures r.Err? ==> Bookkeeping() == old(Bookkeeping()) && nextIndex == old(nextIndex)
      ensures r.Ok? ==>
        && nextIndex == old(nextIndex) + 1 == r.value.id && r.value.expiry == expiry
        && Bookkeeping() == Enter(old(Bookkeeping()), r.value) && r.value.id !in old(reservations)
        && old(Find(hash, useUnconfirmed)).Some?
        && r.value.utxos == [old(Find(hash, useUnconfirmed)).value] && Ids(r.value.utxos) == {hash}
        && (if useUnconfirmed && hash in unconfirmed then r.value.utxos == [unconfirmed[hash]]
            else if hash in standard then r.value.utxos == [standard[hash]]
            else hash in contract && r.value.utxos == [contract[hash]])
    {
      if hash in reserved {
        return Err(ErrReserved);
      }
      var found := FindUtxo(hash, useUnconfirmed);
      if found.None? {
        return Err(ErrMatchUtxo);
      }
      if found.value.validHeight > currentHeight {
        return Err(ErrImmature);
      }
      assert Ids([found.value]) == {hash};
      var res := Record([found.value], 0, expiry);
      return Ok(res);
    }

    /** The output known under a hash: unconfirmed if asked for, else stored, else of a contract. */
    ghost function Find(hash: Hash, useUnconfirmed: bool): (r: Option<Utxo>)
      requires Valid()
      reads this
      ensures r.Some? ==> r.value.outputId == hash
      ensures r.Some? <==> (useUnconfirmed && hash in unconfirmed) || hash in standard || hash in contract
    {
      if useUnconfirmed && hash in unconfirmed then Some(unconfirmed[hash])
      else if hash in standard then Some(standard[hash])
      else if hash in contract then Some(contract[hash])
      else None
    }

    method FindUtxo(hash: Hash, useUnconfirmed: bool) returns (r: Option<Utxo>)
      requires Valid()
      ensures r == Find(hash, useUnconfirmed)
    {
      if useUnconfirmed && hash in unconfirmed {
        return Some(unconfirmed[hash]);
      }
      if hash in standard {
        return Some(standard[hash]);
      }
      if hash in contract {
        return Some(contract[hash]);
      }
      return None;
    }
  }

  // ------------------------------------------------------------- reserving

  /** The amount is covered by the free outputs, or only with the reserved, or only with the immature, or not at all. */
  function Verdict(free: nat, locked: nat, immature: nat, amount: nat): Option<ReserveError> {
    if free >= amount then None
    else if free + locked >= amount then Some(ErrReserved)
    else if free + locked + immature >= amount then Some(ErrImmature)
    else Some(ErrInsufficient)
  }

  /** The checks in the order the keeper makes them, in 64-bit arithmetic. */
  function Classify(optAmount: nat, reservedAmount: nat, immature: nat, amount: nat): Option<ReserveError> {
    if Add64(Add64(optAmount, reservedAmount), immature) < amount then Some(ErrInsufficient)
    else if Add64(optAmount, reservedAmount) < amount then Some(ErrImmature)
    else if optAmount < amount then Some(ErrReserved)
    else None
  }

  lemma ClassifyIsVerdict(optAmount: nat, free: nat, locked: nat, immature: nat, amount: nat)
    requires free + locked + immature < TWO_64
    requires optAmount <= free && (optAmount < amount ==> optAmount == free)
    ensures Classify(optAmount, locked, immature, amount) == Verdict(free, locked, immature, amount)
  {
    hide Add64;
    NoOverflow(optAmount, locked);
    NoOverflow(optAmount + locked, immature);
  }

  lemma NoOverflow(a: nat, b: nat)
    requires a + b < TWO_64
    ensures Add64(a, b) == a + b
  {
  }

  lemma VerdictReached(mature: multiset<Utxo>, reserved: map<Hash, nat>, immature: multiset<Utxo>, amount: nat,
                       opt: seq<Utxo>, optAmount: nat)
    requires Selects(Free(mature, reserved), amount, opt, optAmount)
    ensures Total(mature) + Total(immature) < TWO_64 ==>
            Classify(optAmount, Total(Locked(mature, reserved)) % TWO_64, Total(immature) % TWO_64, amount) ==
            Verdict(Total(Free(mature, reserved)), Total(Locked(mature, reserved)), Total(immature), amount)
  {
    hide Total, Free, Locked, NeedsAtLeast, Classify, Verdict;
    if Total(mature) + Total(immature) < TWO_64 {
      LockedAndFree(mature, reserved);
      TotalMonotone(multiset(opt), Free(mature, reserved));
      ClassifyIsVerdict(optAmount, Total(Free(mature, reserved)), Total(Locked(mature, reserved)), Total(immature),
                        amount);
    }
  }

  lemma SelectedAreFree(mature: multiset<Utxo>, reserved: map<Hash, nat>, amount: nat, opt: seq<Utxo>, sum: nat)
    requires Selects(Free(mature, reserved), amount, opt, sum)
    ensures Ids(opt) !! reserved.Keys
  {
    hide Total, NeedsAtLeast;
    forall u | u in opt
      ensures u.outputId !in reserved
    {
      assert u in multiset(opt);
    }
  }

  lemma SelectedMatch(all: multiset<Utxo>, account: nat, asset: Hash, height: nat, reserved: map<Hash, nat>,
                      amount: nat, opt: seq<Utxo>, sum: nat)
    requires Selects(Free(Matching(all, account, asset, height, true), reserved), amount, opt, sum)
    ensures forall u :: u in opt ==> u.accountId == account && u.assetId == asset && u.validHeight <= height
  {
    hide Total, NeedsAtLeast;
    forall u | u in opt
      ensures u.accountId == account && u.assetId == asset && u.validHeight <= height
    {
      assert u in multiset(opt);
    }
  }

  /** Every output of the list is worth at least as much as those from the n-th on in the other. */
  predicate Above(s: seq<Utxo>, t: seq<Utxo>, n: nat) {
    forall i, j :: 0 <= i < |s| && n <= j < |t| ==> s[i].amount >= t[j].amount
  }

  lemma DividedNone(sorted: seq<Utxo>, reserved: map<Hash, nat>)
    ensures Free(multiset{}, reserved) == multiset{} && Total(Locked(multiset{}, reserved)) == 0
    ensures Descending([]) && Above([], sorted, 0)
  {
    assert Locked(multiset{}, reserved) == multiset{};
  }

  lemma FreeOneMore(m: multiset<Utxo>, u: Utxo, reserved: map<Hash, nat>)
    ensures Free(m + multiset{u}, reserved) == Free(m, reserved) + if u.outputId in reserved then multiset{}
            else multiset{u}
  {
    KeepAdd(m, u, (x: Utxo) => x.outputId !in reserved);
  }

  lemma LockedOneMore(m: multiset<Utxo>, u: Utxo, reserved: map<Hash, nat>)
    ensures Locked(m + multiset{u}, reserved) ==
            if u.outputId in reserved then Locked(m, reserved) + multiset{u} else Locked(m, reserved)
  {
    KeepAdd(m, u, (x: Utxo) => x.outputId in reserved);
  }

  /** One output more goes to the free ones, which stay in order, or is counted as reserved. */
  lemma DividedStep(sorted: seq<Utxo>, i: nat, list: seq<Utxo>, reserved: map<Hash, nat>)
    requires Descending(sorted) && i < |sorted| && Descending(list) && Above(list, sorted, i)
    ensures var before, after, u := multiset(sorted[..i]), multiset(sorted[..i + 1]), sorted[i];
            && Free(after, reserved) ==
               Free(before, reserved) + (if u.outputId in reserved then multiset{} else multiset{u})
            && Total(Locked(after, reserved)) % TWO_64 ==
               (if u.outputId in reserved then Add64(Total(Locked(before, reserved)) % TWO_64, u.amount)
                else Total(Locked(before, reserved)) % TWO_64)
    ensures Above(list, sorted, i + 1) && Descending(list + [sorted[i]]) && Above(list + [sorted[i]], sorted, i + 1)
  {
    hide Total, Add64, Free, Locked;
    var u := sorted[i];
    TotalOfPrefix(sorted, i);
    FreeOneMore(multiset(sorted[..i]), u, reserved);
    LockedOneMore(multiset(sorted[..i]), u, reserved);
    TotalAdd(Locked(multiset(sorted[..i]), reserved), u);
    Wraps(Total(Locked(multiset(sorted[..i]), reserved)), u.amount);
  }

  method Mark(reserved: map<Hash, nat>, utxos: seq<Utxo>, id: nat) returns (r: map<Hash, nat>)
    ensures r == map o | o in reserved.Keys + Ids(utxos) :: if o in Ids(utxos) then id else reserved[o]
  {
    r := reserved;
    for i := 0 to |utxos|
      invariant r == map o | o in reserved.Keys + Ids(utxos[..i]) :: if o in Ids(utxos[..i]) then id else reserved[o]
    {
      IdsPrefix(utxos, i);
      r := r[utxos[i].outputId := id];
    }
    assert utxos[..|utxos|] == utxos;
  }

  method Unmark(reserved: map<Hash, nat>, utxos: seq<Utxo>) returns (r: map<Hash, nat>)
    ensures r == reserved - Ids(utxos)
  {
    r := reserved;
    for i := 0 to |utxos|
      invariant r == reserved - Ids(utxos[..i])
    {
      IdsPrefix(utxos, i);
      r := r - {utxos[i].outputId};
    }
    assert utxos[..|utxos|] == utxos;
  }

  lemma IdsPrefix(utxos: seq<Utxo>, i: nat)
    requires i < |utxos|
    ensures Ids(utxos[..i + 1]) == Ids(utxos[..i]) + {utxos[i].outputId}
  {
    assert utxos[..i + 1] == utxos[..i] + [utxos[i]];
  }

  // --------------------------------------------------------- listing candidates

  /** The outputs under some keys of a map keyed by output id. */
  ghost function Picked(m: map<Hash, Utxo>, keys: set<Hash>): set<Utxo> {
    set h | h in keys && h in m :: m[h]
  }

  lemma PickOneMore(m: map<Hash, Utxo>, keys: set<Hash>, h: Hash)
    requires h in m && h !in keys && Keyed(m)
    ensures multiset(Picked(m, keys + {h})) == multiset(Picked(m, keys)) + multiset{m[h]}
  {
    assert Picked(m, keys + {h}) == Picked(m, keys) + {m[h]} && m[h] !in Picked(m, keys);
  }

  /** Together the stored and the unconfirmed outputs have different ids exactly if none is both. */
  lemma OfferedOnceExactly(standard: map<Hash, Utxo>, unconfirmed: map<Hash, Utxo>)
    requires Keyed(standard) && Keyed(unconfirmed)
    ensures DistinctIds(multiset(standard.Values) + multiset(unconfirmed.Values)) <==> standard.Keys !! unconfirmed.Keys
  {
    var s, t := multiset(standard.Values), multiset(unconfirmed.Values);
    if standard.Keys !! unconfirmed.Keys {
      forall u, v | u in s + t && v in s + t - multiset{u}
        ensures u.outputId != v.outputId
      {
        assert u.outputId == v.outputId ==> u == v;
        assert s[u] <= 1 && t[u] <= 1 && (s[u] == 0 || t[u] == 0);
      }
    } else {
      var h :| h in standard && h in unconfirmed;
      assert standard[h] in s && unconfirmed[h] in t;
      assert unconfirmed[h] in s + t - multiset{standard[h]};
    }
  }

  /** The values of a map, in any order. */
  method ListValues(m: map<Hash, Utxo>) returns (r: seq<Utxo>)
    requires Keyed(m)
    ensures multiset(r) == multiset(m.Values)
  {
    r := [];
    var left := m.Keys;
    while left != {}
      invariant left <= m.Keys && multiset(r) == multiset(Picked(m, m.Keys - left))
      decreases |left|
    {
      var h :| h in left;
      PickOneMore(m, m.Keys - left, h);
      assert m.Keys - left + {h} == m.Keys - (left - {h});
      r := r + [m[h]];
      left := left - {h};
    }
    assert m.Keys - left == m.Keys && Picked(m, m.Keys) == m.Values;
  }

  /** The matching outputs, divided by maturity. */
  method Split(listed: seq<Utxo>, account: nat, asset: Hash, height: nat) returns (utxos: seq<Utxo>, immature: nat)
    ensures multiset(utxos) == Matching(multiset(listed), account, asset, height, true)
    ensures immature == Total(Matching(multiset(listed), account, asset, height, false)) % TWO_64
  {
    hide Total, Matching, Add64;
    utxos, immature := [], 0;
    MatchingNone(account, asset, height);
    for i := 0 to |listed|
      invariant multiset(utxos) == Matching(multiset(listed[..i]), account, asset, height, true)
      invariant immature == Total(Matching(multiset(listed[..i]), account, asset, height, false)) % TWO_64
    {
      var u := listed[i];
      MatchingStep(listed, i, account, asset, height);
      if u.accountId == account && u.assetId == asset {
        if u.validHeight > height {
          immature := Add64(immature, u.amount);
        } else {
          utxos := utxos + [u];
        }
      }
    }
    assert listed[..|listed|] == listed;
  }

  lemma MatchingNone(account: nat, asset: Hash, height: nat)
    ensures Matching(multiset{}, account, asset, height, true) == multiset{}
    ensures Total(Matching(multiset{}, account, asset, height, false)) == 0
  {
    assert Matching(multiset{}, account, asset, height, false) == multiset{};
  }

  lemma MatchingStep(listed: seq<Utxo>, i: nat, account: nat, asset: Hash, height: nat)
    requires i < |listed|
    ensures var u, before, after := listed[i], multiset(listed[..i]), multiset(listed[..i + 1]);
            var fits := u.accountId == account && u.assetId == asset;
            && Matching(after, account, asset, height, true) ==
               Matching(before, account, asset, height, true)
               + (if fits && u.validHeight <= height then multiset{u} else multiset{})
            && Total(Matching(after, account, asset, height, false)) % TWO_64 ==
               (if fits && u.validHeight > height
                then Add64(Total(Matching(before, account, asset, height, false)) % TWO_64, u.amount)
                else Total(Matching(before, account, asset, height, false)) % TWO_64)
  {
    hide Total, Add64, Matching;
    var u, before := listed[i], multiset(listed[..i]);
    TotalOfPrefix(listed, i);
    MatchingOneMore(before, u, account, asset, height, true);
    MatchingOneMore(before, u, account, asset, height, false);
    TotalAdd(Matching(before, account, asset, height, false), u);
    Wraps(Total(Matching(before, account, asset, height, false)), u.amount);
  }

  lemma MatchingOneMore(m: multiset<Utxo>, u: Utxo, account: nat, asset: Hash, height: nat, mature: bool)
    ensures Matching(m + multiset{u}, account, asset, height, mature) ==
            if u.accountId == account && u.assetId == asset && (u.validHeight <= height) == mature
            then Matching(m, account, asset, height, mature) + multiset{u}
              else Matching(m, account, asset, height, mature)
  {
    KeepAdd(m, u, (x: Utxo) => x.accountId == account && x.assetId == asset && (x.validHeight <= height) == mature);
  }
}
