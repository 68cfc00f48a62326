// Detaching the last blocks of an accepted history and attaching others, on the
// reference meaning of the unspent-output set (protocol/block.go,
// reorganizeChain): exactly when this leads to the replay of the new history.
module Rewind {
  import opened Wrappers
  import opened Bc
  import opened Ledger

  /** The actions of blocks one after the other. */
  function Flat(bs: seq<seq<Action>>): seq<Action> {
    if bs == [] then [] else Flat(bs[..|bs| - 1]) + bs[|bs| - 1]
  }

  /** What detaching the blocks does: the last block first, but inside each block in forward order. */
  function Undo(bs: seq<seq<Action>>): seq<Action> {
    if bs == [] then [] else InvertAll(bs[|bs| - 1]) + Undo(bs[..|bs| - 1])
  }

  /** The block creates and spends the output. */
  predicate PassesThrough(acts: seq<Action>, id: Hash) {
    Creates(acts, id) && Spends(acts, id)
  }

  predicate PassesThroughSome(bs: seq<seq<Action>>, id: Hash) {
    exists i :: 0 <= i < |bs| && PassesThrough(bs[i], id)
  }

  /** The actions create the output before they do anything else with it. */
  predicate CreatesFirst(acts: seq<Action>, id: Hash) {
    On(acts, id) != [] && On(acts, id)[0].Create?
  }

  lemma OnlyParts(a: seq<Action>, b: seq<Action>)
    requires OnlySpendsAndCreates(a + b)
    ensures OnlySpendsAndCreates(a) && OnlySpendsAndCreates(b)
  {
    forall x | x in a
      ensures x.Spend? || x.Create?
    {
      assert x in a + b;
    }
    forall x | x in b
      ensures x.Spend? || x.Create?
    {
      assert x in a + b;
    }
  }

  /** The actions on one output in an accepted history: none, its creation, or its creation and its spend. */
  lemma Life(acts: seq<Action>, id: Hash)
    requires OnlySpendsAndCreates(acts) && CreatedOnce(acts) && ActAll(None, On(acts, id)).Some?
    ensures var own := On(acts, id);
            |own| <= 2 && (|own| >= 1 ==> own[0].Create?) && (|own| == 2 ==> own[1].Spend?)
  {
    OnIds(acts, id);
    OnCreatedOnce(acts, id);
    var own := On(acts, id);
    assert forall i :: 0 <= i < |own| ==> own[i] in own;
    LivesOfAnOutput(own);
  }

  lemma OnThrough(acts: seq<Action>, id: Hash)
    ensures PassesThrough(acts, id) <==>
            (exists a :: a in On(acts, id) && a.Create?) && (exists a :: a in On(acts, id) && a.Spend?)
  {
    OnIds(acts, id);
  }

  /** Undoing the last block of a history restores an output that does not pass through it. */
  lemma UndoLastOne(low: seq<Action>, last: seq<Action>, id: Hash)
    requires OnlySpendsAndCreates(low + last) && CreatedOnce(low + last) && ActAll(None, On(low + last, id)).Some?
    requires !PassesThrough(last, id)
    ensures ActAll(None, On(low, id)).Some?
    ensures ActAll(ActAll(None, On(low + last, id)).value, InvertAll(On(last, id))) == ActAll(None, On(low, id))
  {
    OnConcat(low, last, id);
    ActAllConcat(None, On(low, id), On(last, id));
    Life(low + last, id);
    OnThrough(last, id);
    OnIds(last, id);
    OnlyParts(low, last);
    var own := On(low + last, id);
    assert own == On(low, id) + On(last, id);
    if On(last, id) != [] {
      assert On(last, id)[0] in On(last, id);
      assert own[|On(low, id)|] == On(last, id)[0];
    }
    UndoOne(ActAll(None, On(low, id)).value, On(last, id));
  }

  lemma {:induction false} UndoRestores(low: seq<Action>, bs: seq<seq<Action>>, id: Hash)
    requires OnlySpendsAndCreates(low + Flat(bs)) && CreatedOnce(low + Flat(bs))
    requires ActAll(None, On(low + Flat(bs), id)).Some?
    requires !PassesThroughSome(bs, id)
    ensures ActAll(ActAll(None, On(low + Flat(bs), id)).value, On(Undo(bs), id)) == ActAll(None, On(low, id))
  {
    if bs == [] {
      assert low + Flat(bs) == low;
    } else {
      var init, last := bs[..|bs| - 1], bs[|bs| - 1];
      assert low + Flat(bs) == (low + Flat(init)) + last;
      UndoLastOne(low + Flat(init), last, id);
      OnlyParts(low + Flat(init), last);
      CreatedOncePrefix(low + Flat(init), last);
      assert !PassesThroughSome(init, id) by {
        assert forall i :: 0 <= i < |init| ==> init[i] == bs[i];
      }
      UndoRestores(low, init, id);
      OnConcat(InvertAll(last), Undo(init), id);
      OnInvert(last, id);
      ActAllConcat(ActAll(None, On(low + Flat(bs), id)).value, InvertAll(On(last, id)), On(Undo(init), id));
    }
  }

  lemma CreatedOncePrefix(a: seq<Action>, b: seq<Action>)
    requires CreatedOnce(a + b)
    ensures CreatedOnce(a)
  {
    assert forall i :: 0 <= i < |a| ==> a[i] == (a + b)[i];
  }

  // ------------------------------------------------- outputs that pass through a block

  lemma {:induction false} UndoSize(bs: seq<seq<Action>>, id: Hash)
    ensures |On(Undo(bs), id)| == |On(Flat(bs), id)|
  {
    if bs != [] {
      var init, last := bs[..|bs| - 1], bs[|bs| - 1];
      UndoSize(init, id);
      OnConcat(InvertAll(last), Undo(init), id);
      OnConcat(Flat(init), last, id);
      OnInvert(last, id);
    }
  }

  lemma TwoActions(acts: seq<Action>, id: Hash)
    requires PassesThrough(acts, id)
    ensures |On(acts, id)| >= 2
  {
    OnThrough(acts, id);
    var a :| a in On(acts, id) && a.Create?;
    var b :| b in On(acts, id) && b.Spend?;
    var i :| 0 <= i < |On(acts, id)| && On(acts, id)[i] == a;
    var j :| 0 <= j < |On(acts, id)| && On(acts, id)[j] == b;
  }

  /** An output that passes through a block has no other actions, so it is removed and then taken for unspent. */
  lemma {:induction false} UndoOfThrough(low: seq<Action>, bs: seq<seq<Action>>, id: Hash)
    requires OnlySpendsAndCreates(low + Flat(bs)) && CreatedOnce(low + Flat(bs))
    requires ActAll(None, On(low + Flat(bs), id)).Some? && PassesThroughSome(bs, id)
    ensures On(low, id) == [] && On(Undo(bs), id) == [Remove(id), Unspend(id)]
  {
    hide On, ActAll, CreatedOnce, OnlySpendsAndCreates, PassesThrough, InvertAll;
    var init, last := bs[..|bs| - 1], bs[|bs| - 1];
    assert low + Flat(bs) == (low + Flat(init)) + last;
    OnConcat(low + Flat(init), last, id);
    OnConcat(low, Flat(init), id);
    OnConcat(InvertAll(last), Undo(init), id);
    OnInvert(last, id);
    UndoSize(init, id);
    Life(low + Flat(bs), id);
    if PassesThrough(last, id) {
      ThroughLast(low + Flat(init), last, id);
    } else {
      var i :| 0 <= i < |bs| && PassesThrough(bs[i], id);
      assert init[i] == bs[i];
      OnlyParts(low + Flat(init), last);
      CreatedOncePrefix(low + Flat(init), last);
      ActAllConcat(None, On(low + Flat(init), id), On(last, id));
      UndoOfThrough(low, init, id);
      assert InvertAll(On(last, id)) == [];
    }
  }

  lemma ThroughLast(low: seq<Action>, last: seq<Action>, id: Hash)
    requires OnlySpendsAndCreates(low + last) && CreatedOnce(low + last) && ActAll(None, On(low + last, id)).Some?
    requires PassesThrough(last, id)
    ensures On(low, id) == [] && InvertAll(On(last, id)) == [Remove(id), Unspend(id)]
  {
    hide On, ActAll, CreatedOnce, OnlySpendsAndCreates, PassesThrough;
    OnConcat(low, last, id);
    Life(low + last, id);
    TwoActions(last, id);
    OnIds(last, id);
    var own := On(last, id);
    assert On(low + last, id) == own;
    assert own[0] in own && own[1] in own;
  }

  /** Detaching is never refused; it restores an output exactly if it does not pass through one of the blocks. */
  lemma UndoOneExactly(low: seq<Action>, bs: seq<seq<Action>>, id: Hash)
    requires OnlySpendsAndCreates(low + Flat(bs)) && CreatedOnce(low + Flat(bs))
    requires ActAll(None, On(low + Flat(bs), id)).Some?
    ensures ActAll(None, On(low, id)).Some?
    ensures ActAll(ActAll(None, On(low + Flat(bs), id)).value, On(Undo(bs), id)) ==
            if PassesThroughSome(bs, id) then Some(Some(Plain)) else ActAll(None, On(low, id))
    ensures PassesThroughSome(bs, id) ==> ActAll(None, On(low, id)) == Some(None)
  {
    OnConcat(low, Flat(bs), id);
    ActAllConcat(None, On(low, id), On(Flat(bs), id));
    if PassesThroughSome(bs, id) {
      UndoOfThrough(low, bs, id);
      var s := ActAll(None, On(low + Flat(bs), id)).value;
      var undo := [Remove(id), Unspend(id)];
      assert undo[..1] == [Remove(id)] && undo[..1][..0] == [];
      assert ActAll(s, undo[..1]) == Some(None);
    } else {
      UndoRestores(low, bs, id);
    }
  }

  /** Detaching the last blocks of a history leaves the replay of the rest exactly if no output passes through one of
      them. */
  lemma RewindExactly(low: seq<Action>, bs: seq<seq<Action>>, coins: Coins)
    requires OnlySpendsAndCreates(low + Flat(bs)) && CreatedOnce(low + Flat(bs))
    requires DoAll(map[], low + Flat(bs)) == Some(coins)
    ensures DoAll(coins, Undo(bs)).Some? && DoAll(map[], low).Some?
    ensures DoAll(coins, Undo(bs)) == DoAll(map[], low) <==> forall id :: !PassesThroughSome(bs, id)
  {
    var empty: Coins := map[];
    DoAllPointwise(empty, low + Flat(bs));
    DoAllPointwise(coins, Undo(bs));
    DoAllPointwise(empty, low);
    forall id
      ensures Get(empty, id) == None && ActAll(None, On(low, id)).Some?
              && ActAll(Get(coins, id), On(Undo(bs), id)).Some?
      ensures ActAll(Get(coins, id), On(Undo(bs), id)) == ActAll(None, On(low, id)) <==> !PassesThroughSome(bs, id)
    {
      assert ActAll(Get(empty, id), On(low + Flat(bs), id)).Some?;
      UndoOneExactly(low, bs, id);
    }
    var a, b := DoAll(coins, Undo(bs)).value, DoAll(empty, low).value;
    if forall id :: !PassesThroughSome(bs, id) {
      forall id
        ensures Get(a, id) == Get(b, id)
      {
        assert ActAll(Get(coins, id), On(Undo(bs), id)) == ActAll(Get(empty, id), On(low, id));
      }
      CoinsEqual(a, b);
    } else {
      var id :| PassesThroughSome(bs, id);
      assert ActAll(Get(coins, id), On(Undo(bs), id)) != ActAll(Get(empty, id), On(low, id));
      assert Get(a, id) != Get(b, id);
    }
  }

  /** What the new blocks make of a phantom and of nothing is the same exactly if they create the output first. */
  lemma PhantomOverwritten(up: seq<Action>, id: Hash)
    requires OnlySpendsAndCreates(up) && ActAll(Some(Plain), On(up, id)).Some?
    ensures ActAll(None, On(up, id)) == ActAll(Some(Plain), On(up, id)) <==> CreatesFirst(up, id)
  {
    var own := On(up, id);
    OnIds(up, id);
    if own != [] {
      assert own[0] in own;
      assert own == own[..1] + own[1..] && own[..1][..0] == [];
      ActAllConcat(None, own[..1], own[1..]);
      ActAllConcat(Some(Plain), own[..1], own[1..]);
    }
  }

  /** Detaching the last blocks of a history and attaching others, if it is not refused, leads to the replay of the new
      history exactly if every output that passes through a detached block is created first by the new blocks. */
  lemma SwitchExactly(low: seq<Action>, bs: seq<seq<Action>>, up: seq<Action>, coins: Coins, end: Coins)
    requires OnlySpendsAndCreates(low + Flat(bs)) && CreatedOnce(low + Flat(bs)) && OnlySpendsAndCreates(up)
    requires DoAll(map[], low + Flat(bs)) == Some(coins) && DoAll(coins, Undo(bs) + up) == Some(end)
    ensures DoAll(map[], low + up) == Some(end) <==> forall id :: PassesThroughSome(bs, id) ==> CreatesFirst(up, id)
  {
    var empty: Coins := map[];
    DoAllPointwise(empty, low + Flat(bs));
    DoAllPointwise(coins, Undo(bs) + up);
    DoAllPointwise(empty, low + up);
    forall id
      ensures ActAll(Get(empty, id), On(low + up, id)) == Some(Get(end, id)) <==>
              (PassesThroughSome(bs, id) ==> CreatesFirst(up, id))
    {
      assert ActAll(Get(empty, id), On(low + Flat(bs), id)).Some?;
      assert ActAll(Get(coins, id), On(Undo(bs) + up, id)) == Some(Get(end, id));
      UndoOneExactly(low, bs, id);
      OnConcat(Undo(bs), up, id);
      OnConcat(low, up, id);
      ActAllConcat(Get(coins, id), On(Undo(bs), id), On(up, id));
      ActAllConcat(None, On(low, id), On(up, id));
      if PassesThroughSome(bs, id) {
        PhantomOverwritten(up, id);
      }
    }
    if forall id :: PassesThroughSome(bs, id) ==> CreatesFirst(up, id) {
      assert DoAll(empty, low + up).Some?;
      CoinsEqual(DoAll(empty, low + up).value, end);
    }
  }
}
