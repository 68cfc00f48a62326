// core/account/utxo_keeper.go, the choice of outputs: sums over collections of
// outputs, in which one output may occur twice, and the greedy selection with its
// bounded replacement phase.
module Utxos {
  import opened Bc

  const DESIRE_UTXO_COUNT := 5
  const TWO_64 := 0x1_0000_0000_0000_0000

  datatype Utxo = Utxo(outputId: Hash, accountId: nat, assetId: Hash, amount: nat, validHeight: nat)

  /** Unsigned 64-bit addition and subtraction. */
  function Add64(a: nat, b: nat): nat {
    (a + b) % TWO_64
  }

  function Sub64(a: nat, b: nat): nat {
    (a - b) % TWO_64
  }

  lemma Wraps(total: nat, x: nat)
    ensures Add64(total % TWO_64, x) == (total + x) % TWO_64
    ensures total >= x ==> Sub64(total % TWO_64, x) == (total - x) % TWO_64
  {
    var low := total % TWO_64;
    Shifted(low + x, total / TWO_64);
    Shifted(low - x, total / TWO_64);
  }

  lemma Shifted(a: int, q: int)
    ensures (a + TWO_64 * q) % TWO_64 == a % TWO_64
  {
  }

  // ------------------------------------------------------------------- totals

  ghost function Total(m: multiset<Utxo>): nat
    decreases |m|
  {
    if m == multiset{} then 0
    else
      var u :| u in m;
      u.amount + Total(m - multiset{u})
  }

  lemma {:induction false} TotalRemove(m: multiset<Utxo>, u: Utxo)
    requires u in m
    ensures Total(m) == u.amount + Total(m - multiset{u})
    decreases |m|
  {
    var v :| v in m && Total(m) == v.amount + Total(m - multiset{v});
    if v != u {
      TotalRemove(m - multiset{v}, u);
      TotalRemove(m - multiset{u}, v);
      assert m - multiset{v} - multiset{u} == m - multiset{u} - multiset{v};
    }
  }

  lemma TotalAdd(m: multiset<Utxo>, u: Utxo)
    ensures Total(m + multiset{u}) == Total(m) + u.amount
  {
    TotalRemove(m + multiset{u}, u);
    assert m + multiset{u} - multiset{u} == m;
  }

  lemma {:induction false} TotalUnion(a: multiset<Utxo>, b: multiset<Utxo>)
    ensures Total(a + b) == Total(a) + Total(b)
    decreases |b|
  {
    if b == multiset{} {
      assert a + b == a;
    } else {
      var u :| u in b;
      TotalRemove(b, u);
      TotalUnion(a, b - multiset{u});
      TotalAdd(a + (b - multiset{u}), u);
      assert a + (b - multiset{u}) + multiset{u} == a + b;
    }
  }

  lemma TotalMonotone(a: multiset<Utxo>, b: multiset<Utxo>)
    requires a <= b
    ensures Total(b) == Total(a) + Total(b - a)
  {
    TotalUnion(a, b - a);
    assert a + (b - a) == b;
  }

  lemma TotalOfPrefix(s: seq<Utxo>, k: nat)
    requires k < |s|
    ensures multiset(s[..k + 1]) == multiset(s[..k]) + multiset{s[k]}
    ensures Total(multiset(s[..k + 1])) == Total(multiset(s[..k])) + s[k].amount
  {
    assert s[..k + 1] == s[..k] + [s[k]];
    TotalAdd(multiset(s[..k]), s[k]);
  }

  // ----------------------------------------------------------------- filtering

  /** The outputs with a property, as often as they occur. */
  ghost function Keep(m: multiset<Utxo>, f: Utxo -> bool): (r: multiset<Utxo>)
    ensures forall u :: r[u] == if f(u) then m[u] else 0
    decreases |m|
  {
    if m == multiset{} then multiset{}
    else
      var u :| u in m;
      var rest := Keep(m - multiset{u}, f);
      if f(u) then rest + multiset{u} else rest
  }

  lemma KeepAdd(m: multiset<Utxo>, u: Utxo, f: Utxo -> bool)
    ensures Keep(m + multiset{u}, f) == if f(u) then Keep(m, f) + multiset{u} else Keep(m, f)
  {
  }

  lemma KeepBoth(m: multiset<Utxo>, f: Utxo -> bool, g: Utxo -> bool)
    requires forall u :: f(u) <==> !g(u)
    ensures Total(Keep(m, f)) + Total(Keep(m, g)) == Total(m)
  {
    TotalUnion(Keep(m, f), Keep(m, g));
    assert Keep(m, f) + Keep(m, g) == m;
  }

  // ------------------------------------------------------------------- sorting

  predicate Descending(s: seq<Utxo>) {
    forall i, j :: 0 <= i < j < |s| ==> s[i].amount >= s[j].amount
  }

  method SortByAmount(s: seq<Utxo>) returns (r: seq<Utxo>)
    ensures Descending(r) && multiset(r) == multiset(s)
  {
    r := [];
    for i := 0 to |s|
      invariant Descending(r) && multiset(r) == multiset(s[..i])
    {
      assert s[..i + 1] == s[..i] + [s[i]];
      r := InsertByAmount(r, s[i]);
    }
    assert s[..|s|] == s;
  }

  method InsertByAmount(s: seq<Utxo>, u: Utxo) returns (r: seq<Utxo>)
    requires Descending(s)
    ensures Descending(r) && multiset(r) == multiset(s) + multiset{u}
  {
    var k := |s|;
    while k > 0 && s[k - 1].amount < u.amount
      invariant 0 <= k <= |s|
      invariant forall i :: k <= i < |s| ==> s[i].amount < u.amount
    {
      k := k - 1;
    }
    r := Inserted(s, u, k);
  }

  function Inserted(s: seq<Utxo>, u: Utxo, k: nat): (r: seq<Utxo>)
    requires k <= |s|
    ensures |r| == |s| + 1 && r[k] == u && multiset(r) == multiset(s) + multiset{u}
    ensures forall i :: 0 <= i < k ==> r[i] == s[i]
    ensures forall i :: k < i < |r| ==> r[i] == s[i - 1]
  {
    assert s == s[..k] + s[k..];
    s[..k] + [u] + s[k..]
  }

  /** The largest outputs are worth at least as much as any other choice of that many. */
  ghost predicate Beats(s: seq<Utxo>, t: multiset<Utxo>, n: nat) {
    |t| <= n <= |s| && Total(t) <= Total(multiset(s[..|t|]))
  }

  lemma NoTotal()
    ensures Total(multiset{}) == 0
  {
  }

  lemma AddSmaller(s: seq<Utxo>, t: multiset<Utxo>, n: nat)
    requires Descending(s) && n < |s| && s[n] in t && Beats(s, t - multiset{s[n]}, n)
    ensures Beats(s, t, n + 1)
  {
    hide Total;
    TotalRemove(t, s[n]);
    var k := |t - multiset{s[n]}|;
    assert |t| == k + 1;
    TotalOfPrefix(s, k);
  }

  lemma {:induction false} LargestAreBest(s: seq<Utxo>, t: multiset<Utxo>, n: nat)
    requires Descending(s) && n <= |s| && t <= multiset(s[..n])
    ensures Beats(s, t, n)
  {
    hide Total, Descending, Beats;
    if n == 0 {
      NothingBeaten(s, t);
    } else {
      TotalOfPrefix(s, n - 1);
      var x := s[n - 1];
      if x in t {
        LargestAreBest(s, t - multiset{x}, n - 1);
        AddSmaller(s, t, n - 1);
      } else {
        LargestAreBest(s, t, n - 1);
        BeatsMore(s, t, n - 1);
      }
    }
  }

  lemma NothingBeaten(s: seq<Utxo>, t: multiset<Utxo>)
    requires t <= multiset(s[..0])
    ensures Beats(s, t, 0)
  {
    assert t == multiset{};
  }

  lemma BeatsMore(s: seq<Utxo>, t: multiset<Utxo>, n: nat)
    requires Beats(s, t, n) && n < |s|
    ensures Beats(s, t, n + 1)
  {
  }

  // ------------------------------------------------------------ the selection

  /** The loop state: the chosen outputs come from the first i of the list, and `sum` is their total in 64 bits. */
  ghost predicate Chosen(list: seq<Utxo>, i: nat, opt: seq<Utxo>, sum: nat) {
    i <= |list| && multiset(opt) <= multiset(list[..i]) && sum == Total(multiset(opt)) % TWO_64
  }

  /** No choice of fewer than k outputs covers the amount. */
  ghost predicate NeedsAtLeast(all: multiset<Utxo>, amount: nat, k: nat) {
    forall t: multiset<Utxo> :: t <= all && Total(t) >= amount ==> |t| >= k
  }

  /** What a selection achieves: outputs of the collection, all of them if they do not cover the amount; and if the
      total does not overflow, enough whenever that is possible, and never more than five unless fewer cannot cover the
      amount. */
  ghost predicate Selects(all: multiset<Utxo>, amount: nat, opt: seq<Utxo>, sum: nat) {
    && multiset(opt) <= all && sum == Total(multiset(opt)) % TWO_64
    && (sum < amount ==> multiset(opt) == all)
    && (Total(all) < TWO_64 ==>
          && sum == Total(multiset(opt)) && (Total(all) >= amount ==> sum >= amount)
          && (|opt| <= DESIRE_UTXO_COUNT || NeedsAtLeast(all, amount, |opt|)))
  }

  lemma ChosenAppend(list: seq<Utxo>, i: nat, opt: seq<Utxo>, sum: nat)
    requires i < |list| && Chosen(list, i, opt, sum)
    ensures Chosen(list, i + 1, opt + [list[i]], Add64(sum, list[i].amount))
  {
    hide Total, Add64;
    TotalOfPrefix(list, i);
    TotalAdd(multiset(opt), list[i]);
    Wraps(Total(multiset(opt)), list[i].amount);
  }

  lemma DropFirst(s: seq<Utxo>)
    requires s != []
    ensures multiset(s[1..]) == multiset(s) - multiset{s[0]}
  {
    assert s == [s[0]] + s[1..];
  }

  lemma ChosenDropFirst(list: seq<Utxo>, i: nat, opt: seq<Utxo>, sum: nat)
    requires Chosen(list, i, opt, sum) && opt != []
    ensures Chosen(list, i, opt[1..], Sub64(sum, opt[0].amount))
  {
    hide Total, Sub64;
    DropFirst(opt);
    TotalRemove(multiset(opt), opt[0]);
    Wraps(Total(multiset(opt)), opt[0].amount);
  }

  lemma ChosenWiden(list: seq<Utxo>, i: nat, j: nat, opt: seq<Utxo>, sum: nat)
    requires i <= j <= |list| && Chosen(list, i, opt, sum)
    ensures Chosen(list, j, opt, sum)
  {
    assert list[..j] == list[..i] + list[i..j];
  }

  lemma GreedyIsFewest(list: seq<Utxo>, amount: nat, k: nat)
    requires Descending(list) && 0 < k <= |list| && Total(multiset(list[..k - 1])) < amount
    ensures NeedsAtLeast(multiset(list), amount, k)
  {
    forall t: multiset<Utxo> | t <= multiset(list) && Total(t) >= amount
      ensures |t| >= k
    {
      assert list[..|list|] == list;
      LargestAreBest(list, t, |list|);
      if |t| < k {
        assert list[..k - 1] == list[..|t|] + list[|t|..k - 1];
        TotalMonotone(multiset(list[..|t|]), multiset(list[..k - 1]));
      }
    }
  }

  /** The worth of a stretch of a list. */
  ghost function Worth(list: seq<Utxo>, a: nat, b: nat): nat
    requires a <= b <= |list|
  {
    Total(multiset(list[a..b]))
  }

  /** The same without its first output. */
  ghost function Others(list: seq<Utxo>, a: nat, b: nat): nat
    requires a < b <= |list|
  {
    Worth(list, a + 1, b)
  }

  /** The outputs from a to b cover the amount, and without the last of them they do not. */
  ghost predicate Tight(list: seq<Utxo>, a: nat, b: nat, amount: nat) {
    && a < b <= |list| && Worth(list, a, b) >= amount
    && Worth(list, a, b - 1) < amount
  }

  /** The largest of them cannot be replaced by the ones that follow, as many as five in all allow and one more. */
  ghost predicate Stuck(list: seq<Utxo>, a: nat, b: nat, amount: nat)
    requires a < b <= |list|
  {
    forall m :: b < m <= |list| && m - a <= DESIRE_UTXO_COUNT + 1 ==> Others(list, a, m) < amount
  }

  /** What is chosen is a stretch of the list that covers the amount tightly and cannot be moved down. */
  ghost predicate Settles(list: seq<Utxo>, amount: nat, opt: seq<Utxo>) {
    exists a, b :: 0 <= a < b <= |list| && opt == list[a..b] && Tight(list, a, b, amount) && Stuck(list, a, b, amount)
  }

  /** The same for a collection: of some arrangement from the largest down. */
  ghost predicate Economical(all: multiset<Utxo>, amount: nat, opt: seq<Utxo>) {
    exists list: seq<Utxo> :: multiset(list) == all && Descending(list) && Settles(list, amount, opt)
  }

  lemma ExactSum(list: seq<Utxo>, i: nat, opt: seq<Utxo>, sum: nat)
    requires Chosen(list, i, opt, sum) && Total(multiset(list)) < TWO_64
    ensures sum == Total(multiset(opt))
  {
    hide Total;
    assert list == list[..i] + list[i..];
    TotalMonotone(multiset(opt), multiset(list));
  }

  lemma StretchLonger(list: seq<Utxo>, a: nat, b: nat)
    requires a <= b < |list|
    ensures list[a..b + 1] == list[a..b] + [list[b]]
    ensures Worth(list, a, b + 1) == Worth(list, a, b) + list[b].amount
  {
    hide Total;
    assert list[a..b + 1] == list[a..b] + [list[b]];
    TotalAdd(multiset(list[a..b]), list[b]);
  }

  lemma StretchShorter(list: seq<Utxo>, a: nat, b: nat)
    requires a < b <= |list|
    ensures list[a..b][1..] == list[a + 1..b]
    ensures Worth(list, a, b) == list[a].amount + Worth(list, a + 1, b)
  {
    hide Total;
    DropFirst(list[a..b]);
    TotalRemove(multiset(list[a..b]), list[a]);
  }

  /** Without the largest, a tight stretch does not cover the amount either. */
  lemma TightWithoutLargest(list: seq<Utxo>, a: nat, b: nat, amount: nat)
    requires Descending(list) && Tight(list, a, b, amount)
    ensures Worth(list, a + 1, b) < amount
  {
    hide Total;
    StretchShorter(list, a, b);
    StretchLonger(list, a, b - 1);
  }

  lemma WithoutOne(list: seq<Utxo>, a: nat, b: nat, k: nat, amount: nat)
    requires Descending(list) && Tight(list, a, b, amount) && a <= k < b
    ensures Worth(list, a, b) - list[k].amount < amount
  {
    hide Worth;
    StretchLonger(list, a, b - 1);
  }

  lemma LessOne(s: seq<Utxo>, k: nat)
    requires k < |s|
    ensures Total(multiset(s) - multiset{s[k]}) == Total(multiset(s)) - s[k].amount
  {
    TotalRemove(multiset(s), s[k]);
  }

  /** No output of a tight stretch can be left out. */
  lemma NoneCanBeLeftOut(list: seq<Utxo>, amount: nat, opt: seq<Utxo>, k: nat)
    requires Descending(list) && Settles(list, amount, opt) && k < |opt|
    ensures Total(multiset(opt)) >= amount > Total(multiset(opt) - multiset{opt[k]})
  {
    hide Total, Stuck, Descending;
    var a, b :| 0 <= a < b <= |list| && opt == list[a..b] && Tight(list, a, b, amount) && Stuck(list, a, b, amount);
    WithoutOne(list, a, b, a + k, amount);
    LessOne(opt, k);
  }

  /** Chooses from a descending list: first the largest until the amount is covered, then replaces the largest by
      several smaller ones while the count stays within five.  An amount of zero is covered at once, and then there is
      no largest to replace: the keeper panics if there is an output to replace it with. */
  method Select(list: seq<Utxo>, amount: nat) returns (panics: bool, opt: seq<Utxo>, sum: nat)
    requires Descending(list)
    ensures panics <==> amount == 0 && list != []
    ensures !panics ==> Selects(multiset(list), amount, opt, sum)
    ensures !panics && sum >= amount > 0 && Total(multiset(list)) < TWO_64 ==> Settles(list, amount, opt)
  {
    hide Chosen, Selects, NeedsAtLeast, Descending, Tight, Total;
    var i;
    opt, sum, i := TakeLargest(list, amount);
    panics := i < |list| && opt == [];
    if !panics {
      ghost var taken := i;
      if i < |list| {
        opt, sum := ReplaceLargest(list, i, opt, sum, amount);
      } else if sum >= amount > 0 && Total(multiset(list)) < TWO_64 {
        TightIs(list, 0, i, amount);
      }
      ChosenIsSelected(list, amount, taken, opt, sum);
    }
  }

  lemma TightIs(list: seq<Utxo>, a: nat, b: nat, amount: nat)
    requires Tight(list, a, b, amount)
    ensures a < b <= |list|
  {
  }

  lemma ChosenIsSelected(list: seq<Utxo>, amount: nat, i: nat, opt: seq<Utxo>, sum: nat)
    requires Chosen(list, |list|, opt, sum) && (sum < amount ==> opt == list)
    requires Total(multiset(list)) < TWO_64 ==> NeedsAtLeast(multiset(list), amount, i)
    requires |opt| <= DESIRE_UTXO_COUNT || |opt| == i
    ensures Selects(multiset(list), amount, opt, sum)
  {
    hide Total, NeedsAtLeast;
    assert list[..|list|] == list;
    TotalMonotone(multiset(opt), multiset(list));
  }

  lemma TakenOneMore(list: seq<Utxo>, i: nat, sum: nat)
    requires i < |list| && Chosen(list, i, list[..i], sum)
    ensures Chosen(list, i + 1, list[..i + 1], Add64(sum, list[i].amount))
  {
    hide Add64;
    assert list[..i + 1] == list[..i] + [list[i]];
    ChosenAppend(list, i, list[..i], sum);
  }

  /** Before the last output was taken the amount was not covered, so no fewer outputs can cover it. */
  lemma TakenAreFewest(list: seq<Utxo>, amount: nat, i: nat, sum: nat)
    requires Descending(list) && i < |list| && Chosen(list, i, list[..i], sum) && sum < amount
    ensures Total(multiset(list)) < TWO_64 ==> NeedsAtLeast(multiset(list), amount, i + 1)
  {
    hide Total, NeedsAtLeast;
    if Total(multiset(list)) < TWO_64 {
      assert list == list[..i] + list[i..];
      TotalMonotone(multiset(list[..i]), multiset(list));
      GreedyIsFewest(list, amount, i + 1);
    }
  }

  lemma NoneChosen(list: seq<Utxo>, amount: nat)
    ensures Chosen(list, 0, [], 0) && NeedsAtLeast(multiset(list), amount, 0)
  {
  }

  /** The first phase: take from the front until the amount is covered. */
  method TakeLargest(list: seq<Utxo>, amount: nat) returns (opt: seq<Utxo>, sum: nat, i: nat)
    requires Descending(list)
    ensures i <= |list| && opt == list[..i] && Chosen(list, i, opt, sum)
    ensures sum < amount ==> i == |list|
    ensures i == 0 <==> amount == 0 || list == []
    ensures Total(multiset(list)) < TWO_64 ==> NeedsAtLeast(multiset(list), amount, i)
    ensures Total(multiset(list)) < TWO_64 && sum >= amount > 0 ==> Tight(list, 0, i, amount)
  {
    hide Chosen, NeedsAtLeast, Descending, Total, Add64, Tight;
    NoneChosen(list, amount);
    opt, sum, i := [], 0, 0;
    while i < |list| && sum < amount
      invariant i <= |list| && opt == list[..i] && Chosen(list, i, opt, sum)
      invariant i == 0 ==> sum == 0
      invariant i > 0 ==> amount > 0
      invariant Total(multiset(list)) < TWO_64 ==> NeedsAtLeast(multiset(list), amount, i)
      invariant Total(multiset(list)) < TWO_64 && sum >= amount > 0 ==> Tight(list, 0, i, amount)
    {
      TakenAreFewest(list, amount, i, sum);
      TakenOneMore(list, i, sum);
      TakenTight(list, amount, i, sum);
      opt := opt + [list[i]];
      sum := Add64(sum, list[i].amount);
      i := i + 1;
    }
  }

  lemma TakenTight(list: seq<Utxo>, amount: nat, i: nat, sum: nat)
    requires i < |list| && Chosen(list, i, list[..i], sum) && sum < amount
    ensures Total(multiset(list)) < TWO_64 && Add64(sum, list[i].amount) >= amount ==> Tight(list, 0, i + 1, amount)
  {
    hide Total, Add64, Chosen;
    TakenOneMore(list, i, sum);
    if Total(multiset(list)) < TWO_64 {
      ExactSum(list, i, list[..i], sum);
      ExactSum(list, i + 1, list[..i + 1], Add64(sum, list[i].amount));
      assert list[0..i + 1] == list[..i + 1] && list[0..i] == list[..i];
    }
  }

  lemma CoveredNotEmpty(list: seq<Utxo>, i: nat, opt: seq<Utxo>, sum: nat, amount: nat)
    requires Chosen(list, i, opt, sum) && sum >= amount > 0
    ensures opt != []
  {
    NoTotal();
  }

  /** The second phase of the loop, from the first node after the amount is covered. */
  method ReplaceLargest(list: seq<Utxo>, first: nat, chosen: seq<Utxo>, chosenSum: nat, amount: nat)
    returns (opt: seq<Utxo>, sum: nat)
    requires amount > 0 && Descending(list) && Chosen(list, first, chosen, chosenSum) && chosenSum >= amount
    requires chosen == list[..first] && (Total(multiset(list)) < TWO_64 ==> Tight(list, 0, first, amount))
    ensures Chosen(list, |list|, opt, sum) && sum >= amount
    ensures |opt| <= DESIRE_UTXO_COUNT || opt == chosen
    ensures Total(multiset(list)) < TWO_64 ==> Settles(list, amount, opt)
  {
    hide Chosen, Tight, Stuck, Descending, Total;
    opt, sum := chosen, chosenSum;
    var i := first;
    ChosenInside(list, i, opt, sum);
    CoveredNotEmpty(list, i, opt, sum, amount);
    var replaced := true;
    ghost var a, b := 0, first;
    while i < |list| && replaced
      invariant i <= |list| && Chosen(list, i, opt, sum) && sum >= amount
      invariant |opt| <= DESIRE_UTXO_COUNT || opt == chosen
      invariant a < b <= i && opt == list[a..b]
      invariant replaced ==> i == b
      invariant Total(multiset(list)) < TWO_64 ==>
                  Tight(list, a, b, amount) && (!replaced ==> Stuck(list, a, b, amount))
      decreases |list| - i, replaced
    {
      var candidate, candidateSum;
      candidate, candidateSum, replaced, i := TryReplace(list, i, opt, sum, amount, a);
      if replaced {
        opt, sum := candidate, candidateSum;
        a, b := a + 1, i;
      }
    }
    ChosenWiden(list, i, |list|, opt, sum);
    if replaced && Total(multiset(list)) < TWO_64 {
      StuckAtTheEnd(list, a, amount);
    }
  }

  lemma StuckAtTheEnd(list: seq<Utxo>, a: nat, amount: nat)
    requires a < |list|
    ensures Stuck(list, a, |list|, amount)
  {
  }

  lemma ChosenInside(list: seq<Utxo>, i: nat, opt: seq<Utxo>, sum: nat)
    requires Chosen(list, i, opt, sum)
    ensures i <= |list|
  {
  }

  /** Collects nodes until they make up for dropping the first chosen output, as long as the count allows.  The chosen
      ones are those from a on. */
  method TryReplace(list: seq<Utxo>, first: nat, opt: seq<Utxo>, sum: nat, amount: nat, ghost a: nat)
    returns (candidate: seq<Utxo>, candidateSum: nat, replaced: bool, next: nat)
    requires first < |list| && Chosen(list, first, opt, sum) && a < first && opt == list[a..first] && Descending(list)
    requires Total(multiset(list)) < TWO_64 ==> Tight(list, a, first, amount)
    ensures first <= next <= |list| && (replaced ==> first < next)
    ensures replaced ==>
      && Chosen(list, next, candidate, candidateSum) && candidateSum >= amount && |candidate| <= DESIRE_UTXO_COUNT
      && candidate == list[a + 1..next] && (Total(multiset(list)) < TWO_64 ==> Tight(list, a + 1, next, amount))
    ensures !replaced ==>
      Chosen(list, next, opt, sum) && (Total(multiset(list)) < TWO_64 ==> Stuck(list, a, first, amount))
  {
    hide Chosen, Add64, Sub64, Tight, Descending, Total, Stuck;
    ChosenDropFirst(list, first, opt, sum);
    StretchShorter(list, a, first);
    candidate, candidateSum := opt[1..], Sub64(sum, opt[0].amount);
    next := first;
    if Total(multiset(list)) < TWO_64 {
      TightWithoutLargest(list, a, first, amount);
    }
    while next < |list| && |candidate| - (|opt| - 1) <= DESIRE_UTXO_COUNT - |opt|
      invariant first <= next <= |list|
      invariant Chosen(list, next, candidate, candidateSum)
      invariant |candidate| == |opt| - 1 + (next - first) && candidate == list[a + 1..next]
      invariant Total(multiset(list)) < TWO_64 ==>
                  forall m :: first <= m <= next ==> Others(list, a, m) < amount
    {
      ChosenAppend(list, next, candidate, candidateSum);
      StretchLonger(list, a + 1, next);
      assert Total(multiset(list)) < TWO_64 ==> Others(list, a, next) < amount;
      candidate := candidate + [list[next]];
      candidateSum := Add64(candidateSum, list[next].amount);
      next := next + 1;
      if Total(multiset(list)) < TWO_64 {
        ExactSum(list, next, candidate, candidateSum);
      }
      if candidateSum >= amount {
        TightNow(list, a + 1, next, amount);
        return candidate, candidateSum, true, next;
      }
    }
    replaced := false;
    ChosenWiden(list, first, next, opt, sum);
    NoMoreFit(list, a, first, next, amount);
  }

  lemma TightNow(list: seq<Utxo>, a: nat, b: nat, amount: nat)
    requires a < b <= |list|
    ensures Worth(list, a, b) >= amount > Worth(list, a, b - 1) ==> Tight(list, a, b, amount)
  {
  }

  lemma NoMoreFit(list: seq<Utxo>, a: nat, b: nat, next: nat, amount: nat)
    requires a < b <= next <= |list| && (next == |list| || next - a > DESIRE_UTXO_COUNT)
    ensures (forall m :: b <= m <= next ==> Others(list, a, m) < amount) ==> Stuck(list, a, b, amount)
  {
  }

  // ------------------------------------------------- outputs that are listed twice

  predicate DistinctIds(m: multiset<Utxo>) {
    forall u, v :: u in m && v in m - multiset{u} ==> u.outputId != v.outputId
  }

  /** Whatever amount is asked for, what is selected is worth as much as it seems: no output is in it twice. */
  ghost predicate Honest(all: multiset<Utxo>) {
    forall amount: nat, opt: seq<Utxo>, sum: nat :: Selects(all, amount, opt, sum) && sum >= amount ==>
      DistinctIds(multiset(opt))
  }

  ghost function Listed(m: multiset<Utxo>): (r: seq<Utxo>)
    ensures multiset(r) == m
    decreases |m|
  {
    if m == multiset{} then []
    else
      var u :| u in m;
      Listed(m - multiset{u}) + [u]
  }

  lemma ZeroIsEmpty(m: multiset<Utxo>)
    requires Total(m) == 0 && forall u :: u in m ==> u.amount > 0
    ensures m == multiset{}
  {
  }

  lemma AllAreNeeded(all: multiset<Utxo>)
    requires forall u :: u in all ==> u.amount > 0
    ensures NeedsAtLeast(all, Total(all), |all|)
  {
    hide Total;
    forall t: multiset<Utxo> | t <= all && Total(t) >= Total(all)
      ensures |t| >= |all|
    {
      TotalMonotone(t, all);
      ZeroIsEmpty(all - t);
      assert t == all;
    }
  }

  lemma AllIsSelected(all: multiset<Utxo>)
    requires Total(all) < TWO_64 && forall u :: u in all ==> u.amount > 0
    ensures Selects(all, Total(all), Listed(all), Total(all))
  {
    hide Total, NeedsAtLeast, Listed;
    AllAreNeeded(all);
    assert |Listed(all)| == |multiset(Listed(all))|;
  }

  /** Selections are honest exactly if no two of the outputs on offer have the same id. */
  lemma HonestExactly(all: multiset<Utxo>)
    requires Total(all) < TWO_64 && forall u :: u in all ==> u.amount > 0
    ensures Honest(all) <==> DistinctIds(all)
  {
    hide Total, Selects;
    if DistinctIds(all) {
      forall amount: nat, opt: seq<Utxo>, sum: nat | Selects(all, amount, opt, sum)
        ensures DistinctIds(multiset(opt))
      {
        SelectsFrom(all, amount, opt, sum);
        FewerDistinct(multiset(opt), all);
      }
    } else {
      AllIsSelected(all);
      assert !DistinctIds(multiset(Listed(all)));
    }
  }

  lemma SelectsFrom(all: multiset<Utxo>, amount: nat, opt: seq<Utxo>, sum: nat)
    requires Selects(all, amount, opt, sum)
    ensures multiset(opt) <= all
  {
  }

  lemma FewerDistinct(m: multiset<Utxo>, all: multiset<Utxo>)
    requires m <= all && DistinctIds(all)
    ensures DistinctIds(m)
  {
    forall u, v | u in m && v in m - multiset{u}
      ensures u.outputId != v.outputId
    {
      assert v in all - multiset{u};
    }
  }

  /** An output of 10 that is on offer twice covers 15 with itself. */
  lemma SelectedTwice(u: Utxo, opt: seq<Utxo>, sum: nat)
    requires u.amount == 10 && Selects(multiset{u, u}, 15, opt, sum)
    ensures opt == [u, u] && sum == 20
  {
    hide NeedsAtLeast;
    TotalAdd(multiset{}, u);
    TotalAdd(multiset{u}, u);
    NoTotal();
    assert multiset{} + multiset{u} == multiset{u} && multiset{u} + multiset{u} == multiset{u, u};
    TotalMonotone(multiset(opt), multiset{u, u});
    assert |multiset(opt)| == |opt|;
    if |opt| <= 1 {
      assert multiset(opt) <= multiset{u};
      TotalMonotone(multiset(opt), multiset{u});
    }
    assert multiset(opt) == multiset{u, u};
    assert opt[0] in multiset(opt) && opt[1] in multiset(opt);
  }
}
