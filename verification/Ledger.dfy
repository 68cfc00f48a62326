// The reference meaning of an unspent-output set: one small state machine per
// output id.  A block is a list of actions; detaching it is the same list with
// every action inverted, in the same order.
module Ledger {
  import opened Wrappers
  import opened Bc
  import opened UtxoView

  /** What can be observed of an output: a spent plain output is the same as none. */
  datatype Coin = Plain | Coinbase(height: nat, spent: bool)

  type Coins = map<Hash, Coin>

  datatype Action =
    | Spend(id: Hash, height: nat)
    | Create(id: Hash, coin: Coin)
    | Unspend(id: Hash)
    | Remove(id: Hash)

  /** The transition of a single output; None as the outer result means rejection. */
  function Act(s: Option<Coin>, a: Action): Option<Option<Coin>> {
    match a
    case Spend(_, h) => (
      match s
      case Some(Plain) => Some(None)
      case Some(Coinbase(ch, false)) =>
        if ch + COINBASE_PENDING_BLOCK_NUMBER > h then None else Some(Some(Coinbase(ch, true)))
      case _ => None)
    case Create(_, coin) => Some(Some(coin))
    case Unspend(_) => (
      match s
      case None => Some(Some(Plain))
      case Some(Coinbase(ch, true)) => Some(Some(Coinbase(ch, false)))
      case _ => None)
    case Remove(_) => Some(None)
  }

  function ActAll(s: Option<Coin>, acts: seq<Action>): Option<Option<Coin>> {
    if acts == [] then Some(s)
    else
      match ActAll(s, acts[..|acts| - 1])
      case None => None
      case Some(s') => Act(s', acts[|acts| - 1])
  }

  function Get(c: Coins, id: Hash): Option<Coin> {
    if id in c then Some(c[id]) else None
  }

  function Put(c: Coins, id: Hash, s: Option<Coin>): (c': Coins)
    ensures forall x :: Get(c', x) == if x == id then s else Get(c, x)
  {
    match s
    case None => c - {id}
    case Some(coin) => c[id := coin]
  }

  function Do(c: Coins, a: Action): Option<Coins> {
    match Act(Get(c, a.id), a)
    case None => None
    case Some(s) => Some(Put(c, a.id, s))
  }

  function DoAll(c: Coins, acts: seq<Action>): Option<Coins> {
    if acts == [] then Some(c)
    else
      match DoAll(c, acts[..|acts| - 1])
      case None => None
      case Some(c') => Do(c', acts[|acts| - 1])
  }

  /** The actions on one output id, in order. */
  function On(acts: seq<Action>, id: Hash): seq<Action> {
    if acts == [] then []
    else
      var rest := On(acts[..|acts| - 1], id);
      if acts[|acts| - 1].id == id then rest + [acts[|acts| - 1]] else rest
  }

  function Invert(a: Action): Action {
    match a
    case Spend(id, _) => Unspend(id)
    case Create(id, _) => Remove(id)
    case Unspend(_) => a
    case Remove(_) => a
  }

  function InvertAll(acts: seq<Action>): (r: seq<Action>)
    ensures |r| == |acts| && forall k :: 0 <= k < |r| ==> r[k] == Invert(acts[k])
  {
    seq(|acts|, k requires 0 <= k < |acts| => Invert(acts[k]))
  }

  // ------------------------------------------------------- algebra of actions

  lemma {:induction false} DoAllConcat(c: Coins, a: seq<Action>, b: seq<Action>)
    ensures DoAll(c, a + b) == match DoAll(c, a) case None => None case Some(c') => DoAll(c', b)
  {
    if b == [] {
      assert a + b == a;
    } else {
      DoAllConcat(c, a, b[..|b| - 1]);
      assert (a + b)[..|a + b| - 1] == a + b[..|b| - 1];
    }
  }

  lemma {:induction false} OnConcat(a: seq<Action>, b: seq<Action>, id: Hash)
    ensures On(a + b, id) == On(a, id) + On(b, id)
  {
    if b == [] {
      assert a + b == a;
    } else {
      OnConcat(a, b[..|b| - 1], id);
      assert (a + b)[..|a + b| - 1] == a + b[..|b| - 1];
    }
  }

  lemma {:induction false} ActAllConcat(s: Option<Coin>, a: seq<Action>, b: seq<Action>)
    ensures ActAll(s, a + b) == match ActAll(s, a) case None => None case Some(s') => ActAll(s', b)
  {
    if b == [] {
      assert a + b == a;
    } else {
      ActAllConcat(s, a, b[..|b| - 1]);
      assert (a + b)[..|a + b| - 1] == a + b[..|b| - 1];
    }
  }

  lemma {:induction false} OnInvert(acts: seq<Action>, id: Hash)
    ensures On(InvertAll(acts), id) == InvertAll(On(acts, id))
  {
    if acts != [] {
      OnInvert(acts[..|acts| - 1], id);
      assert InvertAll(acts)[..|acts| - 1] == InvertAll(acts[..|acts| - 1]);
    }
  }

  lemma {:induction false} OnIds(acts: seq<Action>, id: Hash)
    ensures forall a :: a in On(acts, id) <==> a in acts && a.id == id
  {
    if acts != [] {
      OnIds(acts[..|acts| - 1], id);
      assert acts == acts[..|acts| - 1] + [acts[|acts| - 1]];
    }
  }

  /** Outputs are independent: a list of actions is accepted on the whole set exactly when
      each output accepts its own actions, and each output ends where its own actions lead. */
  lemma {:induction false} DoAllPointwise(c: Coins, acts: seq<Action>)
    ensures DoAll(c, acts).Some? <==> forall id :: ActAll(Get(c, id), On(acts, id)).Some?
    ensures DoAll(c, acts).Some? ==>
              forall id :: ActAll(Get(c, id), On(acts, id)) == Some(Get(DoAll(c, acts).value, id))
  {
    if acts != [] {
      var init, a := acts[..|acts| - 1], acts[|acts| - 1];
      DoAllPointwise(c, init);
      assert forall id :: On(acts, id) == if a.id == id then On(init, id) + [a] else On(init, id);
      assert (On(init, a.id) + [a])[..|On(init, a.id)|] == On(init, a.id);
      if DoAll(c, init).None? {
        var id :| ActAll(Get(c, id), On(init, id)).None?;
        assert ActAll(Get(c, id), On(acts, id)).None?;
      } else if DoAll(c, acts).None? {
        assert ActAll(Get(c, a.id), On(acts, a.id)).None?;
      }
    }
  }

  lemma CoinsEqual(c: Coins, d: Coins)
    requires forall id :: Get(c, id) == Get(d, id)
    ensures c == d
  {
    forall id | id in c || id in d
      ensures id in c && id in d && c[id] == d[id]
    {
      assert Get(c, id) == Get(d, id);
    }
  }

  // ------------------------------------------------------ undoing a list

  predicate OnlySpendsAndCreates(acts: seq<Action>) {
    forall a :: a in acts ==> a.Spend? || a.Create?
  }

  predicate Creates(acts: seq<Action>, id: Hash) {
    exists a :: a in acts && a.Create? && a.id == id
  }

  predicate Spends(acts: seq<Action>, id: Hash) {
    exists a :: a in acts && a.Spend? && a.id == id
  }

  /** No output is both created and spent by the list. */
  predicate NoInternalSpend(acts: seq<Action>) {
    forall a, b :: a in acts && b in acts && a.Create? && b.Spend? ==> a.id != b.id
  }

  /** No output is created twice by the list. */
  predicate CreatedOnce(acts: seq<Action>) {
    forall i, j :: 0 <= i < j < |acts| && acts[i].Create? && acts[j].Create? ==> acts[i].id != acts[j].id
  }

  predicate CreatesFresh(c: Coins, acts: seq<Action>) {
    forall a :: a in acts && a.Create? ==> a.id !in c
  }

  /** Spending one output twice in a row is always refused. */
  lemma TwoSpendsRejected(s: Option<Coin>, acts: seq<Action>)
    requires |acts| >= 2
    requires acts[|acts| - 2].Spend? && acts[|acts| - 1].Spend?
    ensures ActAll(s, acts).None?
  {
    var n := |acts|;
    assert acts[..n - 1][..n - 2] == acts[..n - 2];
  }

  /** An accepted list that only spends one output spends it once. */
  lemma SpendsOnlyOnce(s: Option<Coin>, acts: seq<Action>)
    requires forall a :: a in acts ==> a.Spend?
    requires ActAll(s, acts).Some?
    ensures |acts| <= 1
    ensures |acts| == 1 ==> ActAll(s, acts) == Act(s, acts[0])
  {
    if |acts| >= 2 {
      TwoSpendsRejected(s, acts);
    }
  }

  lemma {:induction false} CreatesThenRemoves(s: Option<Coin>, acts: seq<Action>)
    requires forall a :: a in acts ==> a.Create?
    ensures ActAll(s, InvertAll(acts)) == if acts == [] then Some(s) else Some(None)
  {
    if acts != [] {
      var init := acts[..|acts| - 1];
      CreatesThenRemoves(s, init);
      assert InvertAll(acts)[..|acts| - 1] == InvertAll(init);
      assert acts[|acts| - 1].Create?;
    }
  }

  lemma {:induction false} UndoOne(s: Option<Coin>, acts: seq<Action>)
    requires OnlySpendsAndCreates(acts)
    requires (forall a :: a in acts ==> a.Spend?) || (s.None? && forall a :: a in acts ==> a.Create?)
    requires ActAll(s, acts).Some?
    ensures ActAll(ActAll(s, acts).value, InvertAll(acts)) == Some(s)
  {
    var t := ActAll(s, acts).value;
    if forall a :: a in acts ==> a.Spend? {
      SpendsOnlyOnce(s, acts);
      if |acts| == 1 {
        assert acts[0].Spend?;
        assert ActAll(t, InvertAll(acts)[..0]) == Some(t);
      }
    } else {
      CreatesThenRemoves(t, acts);
    }
  }

  /** Inverting in forward order restores the set when nothing is spent in the list that made it. */
  lemma UndoAll(c: Coins, acts: seq<Action>)
    requires OnlySpendsAndCreates(acts) && CreatesFresh(c, acts)
    requires NoInternalSpend(acts)
    requires DoAll(c, acts).Some?
    ensures DoAll(DoAll(c, acts).value, InvertAll(acts)) == Some(c)
  {
    var d := DoAll(c, acts).value;
    DoAllPointwise(c, acts);
    DoAllPointwise(d, InvertAll(acts));
    forall id
      ensures ActAll(Get(d, id), On(InvertAll(acts), id)) == Some(Get(c, id))
    {
      OnInvert(acts, id);
      OnIds(acts, id);
      var own := On(acts, id);
      if a :| a in own && a.Create? {
        assert forall b :: b in own ==> b.Create?;
      }
      UndoOne(Get(c, id), own);
    }
    CoinsEqual(DoAll(d, InvertAll(acts)).value, c);
  }

  lemma FirstActionCreates(acts: seq<Action>)
    requires acts != [] && (acts[0].Spend? || acts[0].Create?)
    requires ActAll(None, acts).Some?
    ensures acts[0].Create? && ActAll(None, acts[..1]) == Some(Some(acts[0].coin))
  {
    ActAllConcat(None, acts[..1], acts[1..]);
    assert acts == acts[..1] + acts[1..];
    assert acts[..1][..0] == [];
  }

  /** An output created and spent in the list comes back as a phantom: the created output
      is removed first and then "unspent". */
  lemma {:induction false} InternalSpendLeavesPhantom(s: Option<Coin>, acts: seq<Action>)
    requires OnlySpendsAndCreates(acts) && CreatedOnce(acts)
    requires forall i, j :: 0 <= i < |acts| && 0 <= j < |acts| ==> acts[i].id == acts[j].id
    requires exists a :: a in acts && a.Create?
    requires exists a :: a in acts && a.Spend?
    requires s.None? && ActAll(s, acts).Some?
    ensures ActAll(ActAll(s, acts).value, InvertAll(acts)) != Some(s)
  {
    assert acts[0] in acts;
    FirstActionCreates(acts);
    var rest := acts[1..];
    assert acts == acts[..1] + rest;
    assert forall a :: a in rest ==> a.Spend? by {
      forall a | a in rest
        ensures a.Spend?
      {
        var k :| 0 <= k < |rest| && rest[k] == a;
        assert rest[k] == acts[k + 1] && acts[k + 1] in acts;
      }
    }
    ActAllConcat(s, acts[..1], rest);
    SpendsOnlyOnce(Some(acts[0].coin), rest);
    assert |rest| == 1 by {
      var a :| a in acts && a.Spend?;
      assert a in rest;
    }
    var t := ActAll(s, acts).value;
    var inv := InvertAll(acts);
    assert |inv| == 2 && inv[0].Remove? && inv[1].Unspend?;
    assert inv[..1][..0] == [];
    assert ActAll(t, inv[..1]) == Some(None);
  }

  /** Detaching right after applying restores the set if and only if the list spends nothing it created. */
  lemma UndoExactly(c: Coins, acts: seq<Action>)
    requires OnlySpendsAndCreates(acts) && CreatesFresh(c, acts) && CreatedOnce(acts)
    requires DoAll(c, acts).Some?
    ensures DoAll(DoAll(c, acts).value, InvertAll(acts)) == Some(c) <==> NoInternalSpend(acts)
  {
    if NoInternalSpend(acts) {
      UndoAll(c, acts);
    } else {
      var a, b :| a in acts && b in acts && a.Create? && b.Spend? && a.id == b.id;
      var id, d := a.id, DoAll(c, acts).value;
      DoAllPointwise(c, acts);
      DoAllPointwise(d, InvertAll(acts));
      OnInvert(acts, id);
      OnIds(acts, id);
      OnCreatedOnce(acts, id);
      var own := On(acts, id);
      assert forall i :: 0 <= i < |own| ==> own[i] in own;
      InternalSpendLeavesPhantom(Get(c, id), own);
      assert ActAll(Get(d, id), On(InvertAll(acts), id)) != Some(Get(c, id));
    }
  }

  lemma {:induction false} OnCreatedOnce(acts: seq<Action>, id: Hash)
    requires CreatedOnce(acts)
    ensures CreatedOnce(On(acts, id))
  {
    if acts != [] {
      var init, a := acts[..|acts| - 1], acts[|acts| - 1];
      OnCreatedOnce(init, id);
      OnIds(init, id);
      if a.id == id && a.Create? {
        forall b | b in On(init, id)
          ensures !b.Create?
        {
          var k :| 0 <= k < |init| && init[k] == b;
          assert acts[k] == b;
        }
      }
    }
  }

  // ------------------------------------------- what an accepted history means

  /** In an accepted history from nothing where no id is created twice, each output has one of three
      lives: never made, made and still there, or made and spent once; a coinbase output is spent
      only after its maturity. */
  lemma {:induction false} LivesOfAnOutput(acts: seq<Action>)
    requires OnlySpendsAndCreates(acts) && CreatedOnce(acts)
    requires forall i, j :: 0 <= i < |acts| && 0 <= j < |acts| ==> acts[i].id == acts[j].id
    requires ActAll(None, acts).Some?
    ensures |acts| <= 2
    ensures |acts| >= 1 ==> acts[0].Create?
    ensures |acts| == 2 ==> acts[1].Spend? && Act(Some(acts[0].coin), acts[1]).Some?
    ensures ActAll(None, acts) ==
      if acts == [] then Some(None) else if |acts| == 1 then Some(Some(acts[0].coin))
        else Act(Some(acts[0].coin), acts[1])
  {
    if acts != [] {
      assert acts[0] in acts;
      FirstActionCreates(acts);
      ActAllConcat(None, acts[..1], acts[1..]);
      assert acts == acts[..1] + acts[1..];
      var rest := acts[1..];
      forall a | a in rest
        ensures a.Spend?
      {
        var k :| 0 <= k < |rest| && rest[k] == a;
        assert rest[k] == acts[k + 1] && acts[k + 1] in acts;
      }
      SpendsOnlyOnce(Some(acts[0].coin), rest);
    }
  }
}
