// core/txbuilder and core/account/builder.go: building a transaction runs a
// list of actions that reserve outputs, and takes every reservation back when
// anything fails.
module TxBuilder {
  import opened Wrappers
  import opened Bc
  import opened Utxos
  import opened UtxoKeeper

  /** An action with the outcomes of the steps that do not touch the keeper: `ready` for the checks before
      reserving, `finishes` for creating inputs, change output and signing instructions afterwards. */
  datatype Action =
    | SpendAccount(ready: bool, account: nat, asset: Hash, amount: nat, useUnconfirmed: bool, finishes: bool)
    | SpendOutput(output: Option<Hash>, useUnconfirmed: bool, finishes: bool)
    | OtherAction(finishes: bool)

  /** How a build, or a part of it, ends; a panic leaves at once, without taking anything back. */
  datatype Built = Done | Failed | Panicked

  /** What an action has reserved: outputs of the account and asset worth the amount and the change, or the one output
      it names. */
  ghost predicate Serves(action: Action, res: Reservation) {
    match action
    case SpendAccount(_, account, asset, amount, _, _) =>
      && (forall u :: u in res.utxos ==> u.accountId == account && u.assetId == asset)
      && Total(multiset(res.utxos)) % TWO_64 == amount + res.change
    case SpendOutput(output, _, _) =>
      |res.utxos| == 1 && output == Some(res.utxos[0].outputId)
    case OtherAction(_) => false
  }

  /** Every action has finished, and those that spend have their own new reservations. */
  ghost predicate AllServed(actions: seq<Action>, start: map<nat, Reservation>, now: map<nat, Reservation>,
                            served: seq<nat>) {
    && |served| == |actions|
    && (forall i :: 0 <= i < |actions| ==>
          actions[i].finishes && (actions[i].OtherAction? || HasServed(actions[i], start, now, served[i])))
    && (forall i, j :: 0 <= i < j < |actions| && !actions[i].OtherAction? && !actions[j].OtherAction? ==>
          served[i] != served[j])
  }

  ghost predicate HasServed(action: Action, start: map<nat, Reservation>, now: map<nat, Reservation>, rid: nat) {
    rid in now && rid !in start && Serves(action, now[rid])
  }

  lemma ServedMore(actions: seq<Action>, i: nat, start: map<nat, Reservation>, before: map<nat, Reservation>,
                   now: map<nat, Reservation>, served: seq<nat>, rid: nat)
    requires i < |actions| && AllServed(actions[..i], start, before, served) && actions[i].finishes
    requires forall r :: r in before ==> r in now && now[r] == before[r]
    requires !actions[i].OtherAction? ==> HasServed(actions[i], start, now, rid) && rid !in before
    ensures AllServed(actions[..i + 1], start, now, served + [rid])
  {
    hide Serves;
    var more := actions[..i + 1];
    forall k | 0 <= k < i + 1
      ensures more[k].finishes && (more[k].OtherAction? || HasServed(more[k], start, now, (served + [rid])[k]))
    {
      assert k < i ==> more[k] == actions[..i][k];
    }
    forall j, k | 0 <= j < k < i + 1 && !more[j].OtherAction? && !more[k].OtherAction?
      ensures (served + [rid])[j] != (served + [rid])[k]
    {
      assert more[j] == actions[..i][j];
      assert k < i ==> more[k] == actions[..i][k];
    }
  }

  /** Relative to the book at the start, exactly the listed reservations are new, they expire at maxTime, and the rest
      is untouched. */
  predicate Tracks(start: Book, now: Book, rollbacks: seq<nat>, maxTime: int) {
    && (forall r :: r in start.reservations ==> r in now.reservations && now.reservations[r] == start.reservations[r])
    && (forall r :: r in now.reservations ==>
          r in start.reservations || (r in rollbacks && now.reservations[r].expiry == maxTime))
    && (forall r :: r in rollbacks ==> r !in start.reservations)
  }

  lemma TracksMore(start: Book, now: Book, rollbacks: seq<nat>, res: Reservation, maxTime: int)
    requires Tracks(start, now, rollbacks, maxTime) && res.id !in now.reservations && res.expiry == maxTime
    ensures Tracks(start, Enter(now, res), rollbacks + [res.id], maxTime)
  {
  }

  /** Cancelling everything that was tracked leads back to the start, in whatever order it happened. */
  lemma NothingLeft(start: Book, now: Book, maxTime: int)
    requires Agrees(start) && Agrees(now) && Tracks(start, now, [], maxTime)
    ensures now == start
  {
    assert now.reservations == start.reservations;
    AgreementDetermines(now, start);
  }

  lemma AccountServed(action: Action, free: multiset<Utxo>, res: Reservation)
    requires action.SpendAccount? && Selects(free, action.amount, res.utxos, action.amount + res.change)
    requires forall u :: u in res.utxos ==> u.accountId == action.account && u.assetId == action.asset
    ensures Serves(action, res)
  {
  }

  lemma OutputServed(action: Action, res: Reservation)
    requires action.SpendOutput? && action.output.Some? && |res.utxos| == 1 && Ids(res.utxos) == {action.output.value}
    ensures Serves(action, res)
  {
    assert res.utxos[0].outputId in Ids(res.utxos);
  }

  class TemplateBuilder {
    const keeper: UtxoKeeper
    const maxTime: int
    var rollbacks: seq<nat>

    constructor (keeper: UtxoKeeper, maxTime: int)
      ensures this.keeper == keeper && this.maxTime == maxTime && rollbacks == []
    {
      this.keeper, this.maxTime, rollbacks := keeper, maxTime, [];
    }

    method OnRollback(rid: nat)
      modifies this`rollbacks
      ensures rollbacks == old(rollbacks) + [rid]
    {
      rollbacks := rollbacks + [rid];
    }

    /** spendAction.Build: the reservation is followed at once by the registration of its rollback. */
    method BuildSpendAccount(action: Action, ghost start: Book) returns (outcome: Built)
      requires action.SpendAccount?
      requires keeper.Valid() && Tracks(start, keeper.Bookkeeping(), rollbacks, maxTime)
      modifies this`rollbacks, keeper`nextIndex, keeper`reserved, keeper`reservations
      ensures keeper.Valid() && Tracks(start, keeper.Bookkeeping(), rollbacks, maxTime)
      ensures forall r :: r in old(keeper.reservations) ==>
                r in keeper.reservations && keeper.reservations[r] == old(keeper.reservations)[r]
      ensures outcome.Panicked? <==>
              && action.ready && action.amount == 0
              && Free(old(keeper.Mature(action.account, action.asset, action.useUnconfirmed)), old(keeper.reserved)) !=
                 multiset{}
      ensures outcome.Panicked? ==> keeper.Bookkeeping() == old(keeper.Bookkeeping())
      ensures outcome.Done? ==>
        && action.finishes
        && |rollbacks| == |old(rollbacks)| + 1
        && HasServed(action, old(keeper.reservations), keeper.reservations, rollbacks[|rollbacks| - 1])
      ensures !outcome.Panicked? ==>
        var mature := old(keeper.Mature(action.account, action.asset, action.useUnconfirmed));
        var immature := old(keeper.Immature(action.account, action.asset, action.useUnconfirmed));
        Total(mature) + Total(immature) < TWO_64 ==>
          (outcome.Done? <==>
             action.ready && action.finishes && Total(Free(mature, old(keeper.reserved))) >= action.amount)
    {
      hide Tracks, Agrees, Selects, Total, Free, Locked, Serves, Economical;
      if !action.ready {
        return Failed;
      }
      ghost var before := keeper.Bookkeeping();
      ghost var free := Free(keeper.Mature(action.account, action.asset, action.useUnconfirmed), keeper.reserved);
      var res := keeper.Reserve(action.account, action.asset, action.amount, action.useUnconfirmed, maxTime);
      if res.Err? {
        return if res.error == Panic then Panicked else Failed;
      }
      TracksMore(start, before, rollbacks, res.value, maxTime);
      OnRollback(res.value.id);
      AccountServed(action, free, res.value);
      return if action.finishes then Done else Failed;
    }

    /** spendUTXOAction.Build. */
    method BuildSpendOutput(action: Action, ghost start: Book) returns (outcome: Built)
      requires action.SpendOutput?
      requires keeper.Valid() && Tracks(start, keeper.Bookkeeping(), rollbacks, maxTime)
      modifies this`rollbacks, keeper`nextIndex, keeper`reserved, keeper`reservations
      ensures keeper.Valid() && Tracks(start, keeper.Bookkeeping(), rollbacks, maxTime)
      ensures forall r :: r in old(keeper.reservations) ==>
                r in keeper.reservations && keeper.reservations[r] == old(keeper.reservations)[r]
      ensures !outcome.Panicked?
      ensures outcome.Done? ==>
        && action.finishes
        && |rollbacks| == |old(rollbacks)| + 1
        && HasServed(action, old(keeper.reservations), keeper.reservations, rollbacks[|rollbacks| - 1])
      ensures
        (outcome.Done? <==>
           && action.finishes && action.output.Some? && action.output.value !in old(keeper.reserved)
           && var found := old(keeper.Find(action.output.value, action.useUnconfirmed));
              found.Some? && found.value.validHeight <= keeper.currentHeight)
    {
      hide Tracks, Agrees, Serves;
      if action.output.None? {
        return Failed;
      }
      ghost var before := keeper.Bookkeeping();
      var res := keeper.ReserveParticular(action.output.value, action.useUnconfirmed, maxTime);
      if res.Err? {
        return Failed;
      }
      TracksMore(start, before, rollbacks, res.value, maxTime);
      OnRollback(res.value.id);
      OutputServed(action, res.value);
      return if action.finishes then Done else Failed;
    }

    /** Action.Build: whether an action is done is decided by its own steps and by what the keeper has free. */
    method BuildAction(action: Action, ghost start: Book) returns (outcome: Built)
      requires keeper.Valid() && Tracks(start, keeper.Bookkeeping(), rollbacks, maxTime)
      modifies this`rollbacks, keeper`nextIndex, keeper`reserved, keeper`reservations
      ensures keeper.Valid() && Tracks(start, keeper.Bookkeeping(), rollbacks, maxTime)
      ensures forall r :: r in old(keeper.reservations) ==>
                r in keeper.reservations && keeper.reservations[r] == old(keeper.reservations)[r]
      ensures outcome.Panicked? <==>
              && action.SpendAccount? && action.ready && action.amount == 0
              && Free(old(keeper.Mature(action.account, action.asset, action.useUnconfirmed)), old(keeper.reserved)) !=
                 multiset{}
      ensures outcome.Panicked? ==> keeper.Bookkeeping() == old(keeper.Bookkeeping())
      ensures outcome.Done? ==> action.finishes
      ensures outcome.Done? && !action.OtherAction? ==>
        && |rollbacks| == |old(rollbacks)| + 1
        && HasServed(action, old(keeper.reservations), keeper.reservations, rollbacks[|rollbacks| - 1])
      ensures action.OtherAction? ==> (outcome.Done? <==> action.finishes)
      ensures action.SpendOutput? ==>
        (outcome.Done? <==>
           && action.finishes && action.output.Some? && action.output.value !in old(keeper.reserved)
           && var found := old(keeper.Find(action.output.value, action.useUnconfirmed));
              found.Some? && found.value.validHeight <= keeper.currentHeight)
      ensures action.SpendAccount? && !outcome.Panicked? ==>
        var mature := old(keeper.Mature(action.account, action.asset, action.useUnconfirmed));
        var immature := old(keeper.Immature(action.account, action.asset, action.useUnconfirmed));
        Total(mature) + Total(immature) < TWO_64 ==>
          (outcome.Done? <==>
             action.ready && action.finishes && Total(Free(mature, old(keeper.reserved))) >= action.amount)
    {
      hide Tracks, Agrees, Total, Free, HasServed;
      match action {
        case OtherAction(finishes) => outcome := if finishes then Done else Failed;
        case SpendAccount(_, _, _, _, _, _) => outcome := BuildSpendAccount(action, start);
        case SpendOutput(_, _, _) => outcome := BuildSpendOutput(action, start);
      }
    }

    method Rollback(ghost start: Book)
      requires keeper.Valid() && Agrees(start)
      requires Tracks(start, keeper.Bookkeeping(), rollbacks, maxTime)
      modifies keeper`reserved, keeper`reservations
      ensures keeper.Valid() && keeper.Bookkeeping() == start
    {
      for i := 0 to |rollbacks|
        invariant keeper.Valid() && Tracks(start, keeper.Bookkeeping(), rollbacks[i..], maxTime)
      {
        assert rollbacks[i..] == [rollbacks[i]] + rollbacks[i + 1..];
        keeper.Cancel(rollbacks[i]);
      }
      NothingLeft(start, keeper.Bookkeeping(), maxTime);
    }
  }

  /** Runs all actions even after one has failed; `template` and `balanced` are the outcomes of the two steps that
      follow.  A failed build leaves both reservation maps exactly as it found them; after a panic what was reserved
      stays reserved until it expires. */
  method Build(keeper: UtxoKeeper, actions: seq<Action>, maxTime: int, template: bool, balanced: bool)
    returns (outcome: Built)
    requires keeper.Valid()
    modifies keeper`nextIndex, keeper`reserved, keeper`reservations
    ensures keeper.Valid()
    ensures outcome.Failed? ==> keeper.Bookkeeping() == old(keeper.Bookkeeping())
    ensures forall r :: r in old(keeper.reservations) ==>
              r in keeper.reservations && keeper.reservations[r] == old(keeper.reservations)[r]
    ensures forall r :: r in keeper.reservations && r !in old(keeper.reservations) ==>
              keeper.reservations[r].expiry == maxTime
    ensures outcome.Done? ==>
              && template && balanced
              && exists served :: AllServed(actions, old(keeper.reservations), keeper.reservations, served)
    ensures outcome.Failed? && template && balanced ==> exists a :: a in actions && !(a.OtherAction? && a.finishes)
    ensures outcome.Panicked? ==> exists a :: a in actions && a.SpendAccount? && a.ready && a.amount == 0
  {
    ghost var start := keeper.Bookkeeping();
    var builder := new TemplateBuilder(keeper, maxTime);
    var errs := 0;
    ghost var served := [];
    for i := 0 to |actions|
      invariant errs == 0 ==> AllServed(actions[..i], start.reservations, keeper.reservations, served)
      invariant errs > 0 ==> exists a :: a in actions && !(a.OtherAction? && a.finishes)
      invariant builder.keeper == keeper && builder.maxTime == maxTime && keeper.Valid()
      invariant Tracks(start, keeper.Bookkeeping(), builder.rollbacks, maxTime)
    {
      ghost var before := keeper.reservations;
      var done := builder.BuildAction(actions[i], start);
      if done.Panicked? {
        return Panicked;
      } else if done.Failed? {
        assert actions[i] in actions;
        errs := errs + 1;
      } else if errs == 0 {
        ghost var rid := if builder.rollbacks == [] then 0 else builder.rollbacks[|builder.rollbacks| - 1];
        ServedMore(actions, i, start.reservations, before, keeper.reservations, served, rid);
        served := served + [rid];
      }
    }
    assert actions[..|actions|] == actions;
    if errs > 0 || !template || !balanced {
      builder.Rollback(start);
      return Failed;
    }
    return Done;
  }
}
