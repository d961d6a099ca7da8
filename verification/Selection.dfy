/** The choice of a task's memory items within a budget: apps take turns, each offering its
    failure lessons first. */
module Selection {
  import opened Wrappers

  datatype Item = Item(app: Option<string>, success: bool, title: string)

  function AppOf(item: Item): string {
    item.app.GetOr("")
  }

  function OfApp(items: seq<Item>, app: string): seq<Item> {
    if items == [] then [] else
      var before, last := OfApp(items[..|items| - 1], app), items[|items| - 1];
      if AppOf(last) == app then before + [last] else before
  }

  function WithSuccess(items: seq<Item>, success: bool): seq<Item> {
    if items == [] then []
    else if items[0].success == success then [items[0]] + WithSuccess(items[1..], success)
    else WithSuccess(items[1..], success)
  }

  /** The stable sort by "succeeded": failures keep their order, then successes keep theirs. */
  function FailuresFirst(items: seq<Item>): seq<Item> {
    WithSuccess(items, false) + WithSuccess(items, true)
  }

  /** What an app offers, in its order. */
  function Offer(items: seq<Item>, app: string): seq<Item> {
    FailuresFirst(OfApp(items, app))
  }

  /** The items of one outcome, in their order. */
  function Ended(items: seq<Item>, success: bool): seq<Item> {
    if items == [] then [] else
      var before, last := Ended(items[..|items| - 1], success), items[|items| - 1];
      if last.success == success then before + [last] else before
  }

  lemma {:induction false} EndedFromFront(items: seq<Item>, success: bool)
    requires items != []
    ensures Ended(items, success) == (if items[0].success == success then [items[0]] else []) + Ended(items[1..], success)
  {
    if |items| > 1 {
      EndedFromFront(items[..|items| - 1], success);
      assert items[..|items| - 1][1..] == items[1..][..|items[1..]| - 1];
    } else {
      assert items[..0] == [] && items[1..] == [];
    }
  }

  lemma {:induction false} WithSuccessIsEnded(items: seq<Item>, success: bool)
    ensures WithSuccess(items, success) == Ended(items, success)
    ensures forall x | x in WithSuccess(items, success) :: x.success == success
  {
    if items != [] {
      WithSuccessIsEnded(items[1..], success);
      EndedFromFront(items, success);
    }
  }

  lemma {:induction false} EndedOfBoth(a: seq<Item>, b: seq<Item>, success: bool)
    ensures Ended(a + b, success) == Ended(a, success) + Ended(b, success)
  {
    if b == [] {
      assert a + b == a;
    } else {
      EndedOfBoth(a, b[..|b| - 1], success);
      assert (a + b)[..|a + b| - 1] == a + b[..|b| - 1];
    }
  }

  lemma {:induction false} EndedOfSame(items: seq<Item>, outcome: bool, success: bool)
    requires forall x | x in items :: x.success == outcome
    ensures Ended(items, success) == if success == outcome then items else []
  {
    if items != [] {
      EndedOfSame(items[..|items| - 1], outcome, success);
      assert items == items[..|items| - 1] + [items[|items| - 1]];
    }
  }

  /** What an app offers is its own items, sorted: no failure comes after a success, and the failures
      keep their order, and so do the successes. */
  lemma OfferIsSorted(items: seq<Item>, app: string)
    ensures forall i, j | 0 <= i < j < |Offer(items, app)| && Offer(items, app)[i].success :: Offer(items, app)[j].success
    ensures forall success :: Ended(Offer(items, app), success) == Ended(OfApp(items, app), success)
  {
    var mine := OfApp(items, app);
    FailuresComeFirst(mine);
    forall success: bool ensures Ended(Offer(items, app), success) == Ended(mine, success) {
      SortIsStable(mine, success);
    }
  }

  lemma FailuresComeFirst(items: seq<Item>)
    ensures forall i, j | 0 <= i < j < |FailuresFirst(items)| && FailuresFirst(items)[i].success ::
              FailuresFirst(items)[j].success
  {
    var failures, successes := WithSuccess(items, false), WithSuccess(items, true);
    WithSuccessIsEnded(items, false);
    WithSuccessIsEnded(items, true);
    assert forall i | 0 <= i < |failures| :: failures[i] in failures;
    assert forall i | 0 <= i < |successes| :: successes[i] in successes;
  }

  lemma SortIsStable(items: seq<Item>, success: bool)
    ensures Ended(FailuresFirst(items), success) == Ended(items, success)
  {
    WithSuccessIsEnded(items, false);
    WithSuccessIsEnded(items, true);
    EndedOfParts(WithSuccess(items, false), WithSuccess(items, true), success);
  }

  lemma EndedOfParts(failures: seq<Item>, successes: seq<Item>, success: bool)
    requires (forall x | x in failures :: !x.success) && forall x | x in successes :: x.success
    ensures Ended(failures + successes, success) == if success then successes else failures
  {
    EndedOfBoth(failures, successes, success);
    EndedOfSame(failures, false, success);
    EndedOfSame(successes, true, success);
  }

  lemma OfAppAppend(items: seq<Item>, item: Item, app: string)
    ensures OfApp(items + [item], app) == if AppOf(item) == app then OfApp(items, app) + [item] else OfApp(items, app)
  {
    assert (items + [item])[..|items + [item]| - 1] == items;
  }

  lemma {:induction false} OfAppMembers(items: seq<Item>, app: string)
    ensures forall x | x in OfApp(items, app) :: x in items && AppOf(x) == app
    decreases |items|
  {
    if items != [] {
      OfAppMembers(items[..|items| - 1], app);
    }
  }

  // ----- multisets of selections ------------------------------------------------------

  lemma {:induction false} SortKeepsItems(items: seq<Item>)
    ensures multiset(FailuresFirst(items)) == multiset(items)
  {
    if items != [] {
      SortKeepsItems(items[1..]);
      assert items == [items[0]] + items[1..];
    }
  }

  lemma {:induction false} CountInApp(items: seq<Item>, x: Item)
    ensures multiset(OfApp(items, AppOf(x)))[x] == multiset(items)[x]
    decreases |items|
  {
    if items != [] {
      CountInApp(items[..|items| - 1], x);
      assert items == items[..|items| - 1] + [items[|items| - 1]];
    }
  }

  /** Selections compared app by app are compared as wholes. */
  lemma SubMultiset(s: seq<Item>, t: seq<Item>)
    requires forall app :: multiset(OfApp(s, app)) <= multiset(OfApp(t, app))
    ensures multiset(s) <= multiset(t) && |s| <= |t|
  {
    forall x ensures multiset(s)[x] <= multiset(t)[x] {
      CountInApp(s, x);
      CountInApp(t, x);
      assert multiset(OfApp(s, AppOf(x))) <= multiset(OfApp(t, AppOf(x)));
    }
    SizeOfSub(multiset(s), multiset(t));
  }

  lemma SizeOfSub(a: multiset<Item>, b: multiset<Item>)
    requires a <= b
    ensures |a| <= |b|
  {
    assert b == a + (b - a);
  }

  lemma PrefixIsSub(s: seq<Item>, t: seq<Item>)
    requires s <= t
    ensures multiset(s) <= multiset(t)
  {
    assert t == s + t[|s|..];
  }

  // ----- turns ----------------------------------------------------------------------------

  function Min(a: nat, b: nat): nat { if a <= b then a else b }

  lemma MultipleAtLeast(d: nat, n: nat) returns (dn: nat)
    requires d >= 1
    ensures dn == d * n && dn >= n
  {
    dn := d * n;
    assert dn == (d - 1) * n + n;
  }

  lemma MultiplesStep(p: nat, q: nat, n: nat)
    ensures p > q ==> p * n >= q * n + n
  {
    if p > q {
      var dn := MultipleAtLeast(p - q, n);
      assert p * n == q * n + dn;
    }
  }

  lemma ModIs(x: nat, n: nat, q: nat, r: nat)
    requires r < n && x == q * n + r
    ensures x % n == r
  {
    MultiplesStep(x / n, q, n);
    MultiplesStep(q, x / n, n);
  }

  /** The next turn is the next position, or the first one again. */
  lemma NextTurn(index: nat, n: nat)
    requires n > 0
    ensures (index + 1) % n == if index % n + 1 < n then index % n + 1 else 0
  {
    var q, r := index / n, index % n;
    if r + 1 < n {
      ModIs(index + 1, n, q, r + 1);
    } else {
      assert index + 1 == (q + 1) * n;
      ModIs(index + 1, n, q + 1, 0);
    }
  }

  /** How many items the app at position p has been asked for. */
  function Asked(rounds: nat, turn: nat, p: nat): nat {
    if p < turn then rounds + 1 else rounds
  }

  ghost predicate Distinct(order: seq<string>) {
    forall i, j | 0 <= i < j < |order| :: order[i] != order[j]
  }

  /** What is selected from the app at position p and what is left are its offer, and it gave as
      many items as it was asked for, or all it had. */
  ghost predicate TurnsTaken(items: seq<Item>, order: seq<string>, groups: map<string, seq<Item>>,
                             selected: seq<Item>, rounds: nat, turn: nat) {
    && Distinct(order)
    && (forall app :: app in groups <==> app in order)
    && (forall app | app !in order :: OfApp(selected, app) == [])
    && forall p | 0 <= p < |order| ::
         && OfApp(selected, order[p]) + groups[order[p]] == Offer(items, order[p])
         && |OfApp(selected, order[p])| == Min(|Offer(items, order[p])|, Asked(rounds, turn, p))
  }

  predicate AnyLeft(order: seq<string>, groups: map<string, seq<Item>>) {
    exists p :: 0 <= p < |order| && order[p] in groups && groups[order[p]] != []
  }

  lemma OfferMembers(items: seq<Item>, app: string)
    ensures multiset(Offer(items, app)) == multiset(OfApp(items, app)) <= multiset(items)
    ensures |Offer(items, app)| <= |items|
    ensures forall x | x in Offer(items, app) :: AppOf(x) == app
  {
    SortKeepsItems(OfApp(items, app));
    OfAppMembers(items, app);
    forall x ensures multiset(OfApp(items, app))[x] <= multiset(items)[x] {
      if x in OfApp(items, app) {
        CountInApp(items, x);
      }
    }
    SizeOfSub(multiset(OfApp(items, app)), multiset(items));
    forall x | x in Offer(items, app) ensures AppOf(x) == app {
      assert x in multiset(Offer(items, app));
    }
  }

  lemma TakeOne(items: seq<Item>, order: seq<string>, groups: map<string, seq<Item>>, selected: seq<Item>,
                rounds: nat, turn: nat)
    requires TurnsTaken(items, order, groups, selected, rounds, turn) && turn < |order|
    requires groups[order[turn]] != []
    ensures var app := order[turn];
            TurnsTaken(items, order, groups[app := groups[app][1..]], selected + [groups[app][0]], rounds, turn + 1)
  {
    var app := order[turn];
    var item := groups[app][0];
    var mine, offer := OfApp(selected, app), Offer(items, app);
    OfferMembers(items, app);
    assert offer[|mine|] == item && AppOf(item) == app;
    var left, chosen := groups[app := groups[app][1..]], selected + [item];
    assert mine + groups[app] == (mine + [item]) + left[app];
    forall a | a !in order ensures OfApp(chosen, a) == [] {
      OfAppAppend(selected, item, a);
    }
    forall p | 0 <= p < |order|
      ensures OfApp(chosen, order[p]) + left[order[p]] == Offer(items, order[p])
      ensures |OfApp(chosen, order[p])| == Min(|Offer(items, order[p])|, Asked(rounds, turn + 1, p))
    {
      OfAppAppend(selected, item, order[p]);
      if p != turn {
        assert order[p] != app && Asked(rounds, turn + 1, p) == Asked(rounds, turn, p);
      }
    }
  }

  lemma TakeNone(items: seq<Item>, order: seq<string>, groups: map<string, seq<Item>>, selected: seq<Item>,
                 rounds: nat, turn: nat)
    requires TurnsTaken(items, order, groups, selected, rounds, turn) && turn < |order|
    requires groups[order[turn]] == []
    ensures TurnsTaken(items, order, groups, selected, rounds, turn + 1)
  {
    assert OfApp(selected, order[turn]) == Offer(items, order[turn]);
    forall p | 0 <= p < |order|
      ensures |OfApp(selected, order[p])| == Min(|Offer(items, order[p])|, Asked(rounds, turn + 1, p))
    {
      assert p != turn ==> Asked(rounds, turn + 1, p) == Asked(rounds, turn, p);
    }
  }

  /** One turn of the loop: the app at position `turn` gives an item if it has one. */
  lemma TurnPasses(items: seq<Item>, order: seq<string>, groups: map<string, seq<Item>>, selected: seq<Item>,
                   rounds: nat, turn: nat)
    requires TurnsTaken(items, order, groups, selected, rounds, turn) && turn < |order|
    ensures var app := order[turn];
            var left := if groups[app] != [] then groups[app := groups[app][1..]] else groups;
            var chosen := if groups[app] != [] then selected + [groups[app][0]] else selected;
            if turn + 1 < |order| then TurnsTaken(items, order, left, chosen, rounds, turn + 1)
            else TurnsTaken(items, order, left, chosen, rounds + 1, 0)
  {
    var app := order[turn];
    if groups[app] != [] {
      TakeOne(items, order, groups, selected, rounds, turn);
    } else {
      TakeNone(items, order, groups, selected, rounds, turn);
    }
  }

  /** While something is left, there were fewer rounds than items. */
  lemma RoundsAreBounded(items: seq<Item>, order: seq<string>, groups: map<string, seq<Item>>, selected: seq<Item>,
                         rounds: nat, turn: nat)
    requires TurnsTaken(items, order, groups, selected, rounds, turn)
    requires AnyLeft(order, groups)
    ensures rounds < |items|
  {
    var p :| 0 <= p < |order| && order[p] in groups && groups[order[p]] != [];
    OfferMembers(items, order[p]);
    assert |OfApp(selected, order[p])| < |Offer(items, order[p])|;
  }

  ghost predicate Fair(items: seq<Item>, selected: seq<Item>) {
    && multiset(selected) <= multiset(items)
    && (forall app :: OfApp(selected, app) <= Offer(items, app))
    && (forall a, b :: |OfApp(selected, a)| > |OfApp(selected, b)| + 1 ==> OfApp(selected, b) == Offer(items, b))
  }

  lemma TurnsAreFair(items: seq<Item>, order: seq<string>, groups: map<string, seq<Item>>, selected: seq<Item>,
                     rounds: nat, turn: nat)
    requires TurnsTaken(items, order, groups, selected, rounds, turn)
    requires forall app | app !in order :: OfApp(items, app) == []
    ensures Fair(items, selected)
  {
    forall app ensures OfApp(selected, app) <= Offer(items, app) {
      if app in order {
        var p :| 0 <= p < |order| && order[p] == app;
        assert OfApp(selected, order[p]) + groups[order[p]] == Offer(items, order[p]);
      }
    }
    forall app ensures multiset(OfApp(selected, app)) <= multiset(OfApp(items, app)) {
      OfferMembers(items, app);
      PrefixIsSub(OfApp(selected, app), Offer(items, app));
    }
    SubMultiset(selected, items);
    forall a, b | |OfApp(selected, a)| > |OfApp(selected, b)| + 1 ensures OfApp(selected, b) == Offer(items, b) {
      assert a in order;
      var p :| 0 <= p < |order| && order[p] == a;
      assert |OfApp(selected, order[p])| <= rounds + 1;
      if b in order {
        var q :| 0 <= q < |order| && order[q] == b;
        assert |OfApp(selected, order[q])| == Min(|Offer(items, order[q])|, Asked(rounds, turn, q));
        assert |OfApp(selected, b)| == |Offer(items, b)|;
      }
    }
  }

  /** When nothing is left, everything was selected. */
  lemma NothingLeftMeansAll(items: seq<Item>, order: seq<string>, groups: map<string, seq<Item>>, selected: seq<Item>,
                            rounds: nat, turn: nat)
    requires TurnsTaken(items, order, groups, selected, rounds, turn)
    requires forall app | app !in order :: OfApp(items, app) == []
    requires !AnyLeft(order, groups)
    ensures |items| <= |selected|
  {
    forall app ensures multiset(OfApp(items, app)) <= multiset(OfApp(selected, app)) {
      OfferMembers(items, app);
      if app in order {
        var p :| 0 <= p < |order| && order[p] == app;
        assert OfApp(selected, order[p]) + groups[order[p]] == Offer(items, order[p]);
      }
    }
    SubMultiset(items, selected);
  }

  // ----- the order of turns -------------------------------------------------------------------

  /** Where an app is first met. */
  function FirstIndex(items: seq<Item>, app: string): (i: nat)
    ensures i <= |items| && (forall j | 0 <= j < i :: AppOf(items[j]) != app) && (i < |items| ==> AppOf(items[i]) == app)
  {
    if items == [] || AppOf(items[0]) == app then 0 else FirstIndex(items[1..], app) + 1
  }

  lemma FirstIndexStays(items: seq<Item>, item: Item, app: string)
    ensures FirstIndex(items, app) < |items| ==> FirstIndex(items + [item], app) == FirstIndex(items, app)
    ensures FirstIndex(items, app) == |items| && AppOf(item) == app ==> FirstIndex(items + [item], app) == |items|
  {
    var more := items + [item];
    var i, j := FirstIndex(items, app), FirstIndex(more, app);
    assert forall k | 0 <= k < |items| :: more[k] == items[k];
    assert more[|items|] == item;
  }

  /** The apps that occur, by where they are first met. */
  ghost predicate ByFirst(items: seq<Item>, order: seq<string>) {
    && (forall p | 0 <= p < |order| :: FirstIndex(items, order[p]) < |items|)
    && forall p, q | 0 <= p < q < |order| :: FirstIndex(items, order[p]) < FirstIndex(items, order[q])
  }

  /** How many items of its app were selected before the i-th one. */
  function Round(selected: seq<Item>, i: nat): nat
    requires i < |selected|
  {
    |OfApp(selected[..i], AppOf(selected[i]))|
  }

  /** An item of an earlier round comes first, and in one round the item of an app met earlier. */
  ghost predicate InTurns(items: seq<Item>, selected: seq<Item>) {
    forall i, j | 0 <= i < j < |selected| ::
      || Round(selected, i) < Round(selected, j)
      || (Round(selected, i) == Round(selected, j)
          && FirstIndex(items, AppOf(selected[i])) < FirstIndex(items, AppOf(selected[j])))
  }

  /** Everything selected so far comes before what is selected next. */
  ghost predicate Before(items: seq<Item>, order: seq<string>, selected: seq<Item>, rounds: nat, turn: nat) {
    forall i | 0 <= i < |selected| ::
      || Round(selected, i) < rounds
      || (Round(selected, i) == rounds
          && (turn < |order| ==> FirstIndex(items, AppOf(selected[i])) < FirstIndex(items, order[turn])))
  }

  lemma RoundStays(selected: seq<Item>, x: Item, i: nat)
    requires i < |selected|
    ensures (selected + [x])[i] == selected[i] && Round(selected + [x], i) == Round(selected, i)
  {
    assert (selected + [x])[..i] == selected[..i];
  }

  lemma RoundOfLast(selected: seq<Item>, x: Item)
    ensures Round(selected + [x], |selected|) == |OfApp(selected, AppOf(x))|
  {
    assert (selected + [x])[..|selected|] == selected;
  }

  lemma RoundsStay(selected: seq<Item>, x: Item, longer: seq<Item>)
    requires longer == selected + [x]
    ensures forall i: nat | i < |selected| :: longer[i] == selected[i] && Round(longer, i) == Round(selected, i)
    ensures longer[|selected|] == x && Round(longer, |selected|) == |OfApp(selected, AppOf(x))|
  {
    RoundOfLast(selected, x);
    forall i: nat | i < |selected| ensures longer[i] == selected[i] && Round(longer, i) == Round(selected, i) {
      RoundStays(selected, x, i);
    }
  }

  lemma SelectInTurn(items: seq<Item>, order: seq<string>, selected: seq<Item>, x: Item, longer: seq<Item>, rounds: nat,
                     turn: nat)
    requires ByFirst(items, order) && InTurns(items, selected) && Before(items, order, selected, rounds, turn)
    requires turn < |order| && AppOf(x) == order[turn] && |OfApp(selected, order[turn])| == rounds
    requires longer == selected + [x]
    ensures InTurns(items, longer)
  {
    RoundsStay(selected, x, longer);
  }

  lemma SelectBefore(items: seq<Item>, order: seq<string>, selected: seq<Item>, x: Item, longer: seq<Item>, rounds: nat,
                     turn: nat)
    requires ByFirst(items, order) && Before(items, order, selected, rounds, turn)
    requires turn < |order| && AppOf(x) == order[turn] && |OfApp(selected, order[turn])| == rounds
    requires longer == selected + [x]
    ensures Before(items, order, longer, rounds, turn + 1)
  {
    RoundsStay(selected, x, longer);
  }

  /** The app at position `turn` has had as many turns as there were rounds. */
  lemma NextIsOfRound(items: seq<Item>, order: seq<string>, groups: map<string, seq<Item>>, selected: seq<Item>,
                      rounds: nat, turn: nat)
    requires TurnsTaken(items, order, groups, selected, rounds, turn) && turn < |order| && groups[order[turn]] != []
    ensures |OfApp(selected, order[turn])| == rounds && AppOf(groups[order[turn]][0]) == order[turn]
  {
    var app := order[turn];
    var mine := OfApp(selected, app);
    OfferMembers(items, app);
    assert Offer(items, app)[|mine|] == groups[app][0];
  }

  lemma TurnInOrder(items: seq<Item>, order: seq<string>, groups: map<string, seq<Item>>, selected: seq<Item>,
                    rounds: nat, turn: nat)
    requires TurnsTaken(items, order, groups, selected, rounds, turn) && turn < |order|
    requires ByFirst(items, order) && InTurns(items, selected) && Before(items, order, selected, rounds, turn)
    ensures InTurns(items, NextSelected(order, groups, selected, turn))
    ensures Before(items, order, NextSelected(order, groups, selected, turn), rounds, turn + 1)
    ensures Before(items, order, NextSelected(order, groups, selected, turn), rounds + 1, 0)
  {
    if groups[order[turn]] != [] {
      NextIsOfRound(items, order, groups, selected, rounds, turn);
      var x := groups[order[turn]][0];
      SelectInTurn(items, order, selected, x, selected + [x], rounds, turn);
      SelectBefore(items, order, selected, x, selected + [x], rounds, turn);
    }
  }

  /** An app that got more than one that has items left is met earlier. */
  ghost predicate EarlierGetMore(items: seq<Item>, selected: seq<Item>) {
    forall a, b | |OfApp(selected, a)| > |OfApp(selected, b)| && OfApp(selected, b) != Offer(items, b) ::
      FirstIndex(items, a) < FirstIndex(items, b)
  }

  lemma LastRoundGoesByOrder(items: seq<Item>, order: seq<string>, groups: map<string, seq<Item>>, selected: seq<Item>,
                             rounds: nat, turn: nat)
    requires TurnsTaken(items, order, groups, selected, rounds, turn) && NoneElsewhere(items, order)
    requires ByFirst(items, order)
    ensures EarlierGetMore(items, selected)
  {
    forall a, b | |OfApp(selected, a)| > |OfApp(selected, b)| && OfApp(selected, b) != Offer(items, b)
      ensures FirstIndex(items, a) < FirstIndex(items, b)
    {
      MoreIsEarlier(items, order, groups, selected, rounds, turn, a, b);
    }
  }

  lemma MoreIsEarlier(items: seq<Item>, order: seq<string>, groups: map<string, seq<Item>>, selected: seq<Item>,
                      rounds: nat, turn: nat, a: string, b: string)
    requires TurnsTaken(items, order, groups, selected, rounds, turn) && NoneElsewhere(items, order)
    requires ByFirst(items, order)
    requires |OfApp(selected, a)| > |OfApp(selected, b)| && OfApp(selected, b) != Offer(items, b)
    ensures FirstIndex(items, a) < FirstIndex(items, b)
  {
    var p := PositionOf(items, order, groups, selected, rounds, turn, a);
    var q := PositionOf(items, order, groups, selected, rounds, turn, b);
    AskedLess(items, order, groups, selected, rounds, turn, p, q);
  }

  /** An app of which something was selected, or of which there is something left, is in the order. */
  lemma PositionOf(items: seq<Item>, order: seq<string>, groups: map<string, seq<Item>>, selected: seq<Item>,
                   rounds: nat, turn: nat, app: string) returns (p: nat)
    requires TurnsTaken(items, order, groups, selected, rounds, turn) && NoneElsewhere(items, order)
    requires OfApp(selected, app) != [] || OfApp(selected, app) != Offer(items, app)
    ensures p < |order| && order[p] == app
  {
    p :| p < |order| && order[p] == app;
  }

  lemma AskedLess(items: seq<Item>, order: seq<string>, groups: map<string, seq<Item>>, selected: seq<Item>,
                  rounds: nat, turn: nat, p: nat, q: nat)
    requires TurnsTaken(items, order, groups, selected, rounds, turn) && p < |order| && q < |order|
    requires |OfApp(selected, order[p])| > |OfApp(selected, order[q])| && OfApp(selected, order[q]) != Offer(items, order[q])
    ensures p < q
  {
    var mine := OfApp(selected, order[q]);
    assert mine + groups[order[q]] == Offer(items, order[q]);
    assert groups[order[q]] != [];
  }

  ghost predicate Grouped(items: seq<Item>, order: seq<string>, groups: map<string, seq<Item>>) {
    && Distinct(order) && ByFirst(items, order)
    && (forall app :: app in groups <==> app in order)
    && (forall app | app !in order :: OfApp(items, app) == [])
    && (forall app | app in order :: groups[app] == OfApp(items, app))
  }

  lemma {:induction false} NotMet(items: seq<Item>, app: string)
    ensures OfApp(items, app) == [] <==> FirstIndex(items, app) == |items|
  {
    if items != [] {
      var front, last := items[..|items| - 1], items[|items| - 1];
      NotMet(front, app);
      FirstIndexStays(front, last, app);
      assert items == front + [last];
    }
  }

  lemma OrderStays(items: seq<Item>, item: Item, order: seq<string>)
    requires ByFirst(items, order)
    ensures ByFirst(items + [item], order)
    ensures FirstIndex(items, AppOf(item)) == |items| ==> FirstIndex(items + [item], AppOf(item)) == |items|
    ensures forall p | 0 <= p < |order| :: FirstIndex(items + [item], order[p]) < |items|
  {
    FirstIndexStays(items, item, AppOf(item));
    forall p | 0 <= p < |order| ensures FirstIndex(items + [item], order[p]) == FirstIndex(items, order[p]) {
      FirstIndexStays(items, item, order[p]);
    }
  }

  lemma OrderGrows(items: seq<Item>, item: Item, order: seq<string>)
    requires ByFirst(items, order) && FirstIndex(items, AppOf(item)) == |items|
    ensures ByFirst(items + [item], order + [AppOf(item)])
  {
    OrderStays(items, item, order);
  }

  lemma GroupGrows(items: seq<Item>, item: Item, more: seq<Item>, order: seq<string>, groups: map<string, seq<Item>>)
    requires Grouped(items, order, groups) && more == items + [item]
    ensures var app := AppOf(item);
            Grouped(more, if app in groups then order else order + [app],
                    groups[app := (if app in groups then groups[app] else []) + [item]])
  {
    var app := AppOf(item);
    NotMet(items, app);
    OrderStays(items, item, order);
    if app !in groups {
      OrderGrows(items, item, order);
    }
    DistinctGrows(order, app);
    GroupsGrow(items, item, more, order, groups, if app in groups then order else order + [app],
               groups[app := (if app in groups then groups[app] else []) + [item]]);
  }

  lemma DistinctGrows(order: seq<string>, app: string)
    requires Distinct(order)
    ensures app !in order ==> Distinct(order + [app])
  {
  }

  lemma GroupsGrow(items: seq<Item>, item: Item, more: seq<Item>, order: seq<string>, groups: map<string, seq<Item>>,
                   longer: seq<string>, grown: map<string, seq<Item>>)
    requires Grouped(items, order, groups) && more == items + [item]
    requires longer == if AppOf(item) in groups then order else order + [AppOf(item)]
    requires grown == groups[AppOf(item) := (if AppOf(item) in groups then groups[AppOf(item)] else []) + [item]]
    ensures forall a :: a in grown <==> a in longer
    ensures forall a | a !in longer :: OfApp(more, a) == []
    ensures forall a | a in longer :: grown[a] == OfApp(more, a)
  {
    var app := AppOf(item);
    assert forall a :: a in longer <==> a in order || a == app;
    forall a ensures OfApp(more, a) == if app == a then OfApp(items, a) + [item] else OfApp(items, a) {
      OfAppAppend(items, item, a);
    }
  }

  /** The groups, and their keys in the order in which they first occur. */
  method GroupByApp(items: seq<Item>) returns (order: seq<string>, groups: map<string, seq<Item>>)
    ensures Grouped(items, order, groups)
    ensures items != [] ==> order != []
  {
    order, groups := [], map[];
    for i := 0 to |items|
      invariant Grouped(items[..i], order, groups)
      invariant i > 0 ==> order != []
    {
      var app := AppOf(items[i]);
      GroupGrows(items[..i], items[i], items[..i + 1], order, groups);
      order, groups := if app in groups then order else order + [app],
                       groups[app := (if app in groups then groups[app] else []) + [items[i]]];
    }
    assert items[..|items|] == items;
  }

  method SortGroups(items: seq<Item>, order: seq<string>, groups: map<string, seq<Item>>)
    returns (sorted: map<string, seq<Item>>)
    requires Grouped(items, order, groups)
    ensures Selecting(items, order, sorted, [], 0, 0)
  {
    sorted := groups;
    for i := 0 to |order|
      invariant SortedUpTo(items, order, sorted, i)
    {
      OneMoreSorted(items, order, sorted, i);
      sorted := sorted[order[i] := FailuresFirst(sorted[order[i]])];
    }
    NoneTaken(items, order, sorted);
  }

  /** The first n groups have been sorted. */
  ghost predicate SortedUpTo(items: seq<Item>, order: seq<string>, groups: map<string, seq<Item>>, n: nat) {
    && (forall app :: app in groups <==> app in order)
    && forall p | 0 <= p < |order| ::
         groups[order[p]] == if p < n then Offer(items, order[p]) else OfApp(items, order[p])
  }

  lemma OneMoreSorted(items: seq<Item>, order: seq<string>, groups: map<string, seq<Item>>, n: nat)
    requires Distinct(order) && n < |order| && SortedUpTo(items, order, groups, n)
    ensures SortedUpTo(items, order, groups[order[n] := FailuresFirst(groups[order[n]])], n + 1)
  {
    forall p | 0 <= p < |order| && p != n ensures order[p] != order[n] {
      assert p < n || n < p;
    }
  }

  lemma NoneTaken(items: seq<Item>, order: seq<string>, groups: map<string, seq<Item>>)
    requires Distinct(order) && SortedUpTo(items, order, groups, |order|)
    ensures TurnsTaken(items, order, groups, [], 0, 0)
  {
  }

  function NextGroups(order: seq<string>, groups: map<string, seq<Item>>, turn: nat): map<string, seq<Item>>
    requires turn < |order| && order[turn] in groups
  {
    var app := order[turn];
    if groups[app] != [] then groups[app := groups[app][1..]] else groups
  }

  function NextSelected(order: seq<string>, groups: map<string, seq<Item>>, selected: seq<Item>, turn: nat): seq<Item>
    requires turn < |order| && order[turn] in groups
  {
    var app := order[turn];
    if groups[app] != [] then selected + [groups[app][0]] else selected
  }

  /** A turn of the loop. */
  lemma TurnTaken(items: seq<Item>, order: seq<string>, groups: map<string, seq<Item>>, selected: seq<Item>,
                  rounds: nat, turn: nat, index: nat) returns (nextRounds: nat, nextTurn: nat)
    requires TurnsTaken(items, order, groups, selected, rounds, turn) && AnyLeft(order, groups)
    requires turn < |order| && turn == index % |order|
    ensures TurnsTaken(items, order, NextGroups(order, groups, turn), NextSelected(order, groups, selected, turn),
                       nextRounds, nextTurn)
    ensures nextTurn < |order| && nextTurn == (index + 1) % |order|
    ensures rounds < |items| && ((nextRounds == rounds + 1 && nextTurn == 0) || (nextRounds == rounds && nextTurn == turn + 1))
  {
    RoundsAreBounded(items, order, groups, selected, rounds, turn);
    TurnPasses(items, order, groups, selected, rounds, turn);
    NextTurn(index, |order|);
    nextRounds := if turn + 1 < |order| then rounds else rounds + 1;
    nextTurn := if turn + 1 < |order| then turn + 1 else 0;
  }

  ghost predicate NoneElsewhere(items: seq<Item>, order: seq<string>) {
    forall app | app !in order :: OfApp(items, app) == []
  }

  /** What the loop keeps. */
  ghost predicate Selecting(items: seq<Item>, order: seq<string>, groups: map<string, seq<Item>>, selected: seq<Item>,
                            rounds: nat, turn: nat) {
    && TurnsTaken(items, order, groups, selected, rounds, turn)
    && ByFirst(items, order) && NoneElsewhere(items, order)
    && InTurns(items, selected) && Before(items, order, selected, rounds, turn)
  }

  lemma NextIsSelecting(items: seq<Item>, order: seq<string>, groups: map<string, seq<Item>>, selected: seq<Item>,
                        rounds: nat, turn: nat, index: nat) returns (nextRounds: nat, nextTurn: nat)
    requires Selecting(items, order, groups, selected, rounds, turn) && AnyLeft(order, groups)
    requires turn < |order| && turn == index % |order|
    ensures order[turn] in groups
    ensures Selecting(items, order, NextGroups(order, groups, turn), NextSelected(order, groups, selected, turn),
                      nextRounds, nextTurn)
    ensures nextTurn < |order| && nextTurn == (index + 1) % |order|
    ensures rounds < |items| && ((nextRounds == rounds + 1 && nextTurn == 0) || (nextRounds == rounds && nextTurn == turn + 1))
  {
    nextRounds, nextTurn := TurnTaken(items, order, groups, selected, rounds, turn, index);
    TurnInOrder(items, order, groups, selected, rounds, turn);
  }

  /** The loop ends with the budget reached, or with nothing left, and then all is selected. */
  lemma LoopEnds(items: seq<Item>, order: seq<string>, groups: map<string, seq<Item>>, selected: seq<Item>,
                 rounds: nat, turn: nat, budget: nat)
    requires Selecting(items, order, groups, selected, rounds, turn)
    requires |selected| <= budget < |items| && (|selected| < budget ==> !AnyLeft(order, groups))
    ensures |selected| == budget && Fair(items, selected) && InTurns(items, selected) && EarlierGetMore(items, selected)
  {
    TurnsAreFair(items, order, groups, selected, rounds, turn);
    LastRoundGoesByOrder(items, order, groups, selected, rounds, turn);
    if |selected| < budget {
      NothingLeftMeansAll(items, order, groups, selected, rounds, turn);
    }
  }

  /** Within the budget everything is kept. Beyond it, exactly `budget` items are selected, none
      twice; each app contributes its failures first, in order, and may fall more than one item
      behind another app only when it has none left. The apps are asked in the order in which they
      are first met, round after round. */
  method SelectTaskItems(items: seq<Item>, budget: int) returns (selected: seq<Item>)
    ensures budget <= 0 || |items| <= budget ==> selected == items
    ensures 0 < budget < |items| ==>
              |selected| == budget && Fair(items, selected) && InTurns(items, selected) && EarlierGetMore(items, selected)
  {
    if budget <= 0 || |items| <= budget {
      return items;
    }
    var order, grouped := GroupByApp(items);
    var groups := SortGroups(items, order, grouped);
    selected := [];
    var index := 0;
    ghost var rounds, turn := 0, 0;
    while |selected| < budget && AnyLeft(order, groups)
      invariant |selected| <= budget && turn < |order| && turn == index % |order|
      invariant Selecting(items, order, groups, selected, rounds, turn)
      decreases |items| - rounds, |order| - turn
    {
      ghost var nextRounds, nextTurn := NextIsSelecting(items, order, groups, selected, rounds, turn, index);
      ghost var next := NextSelected(order, groups, selected, turn);
      var app := order[index % |order|];
      if groups[app] != [] {
        selected := selected + [groups[app][0]];
        groups := groups[app := groups[app][1..]];
      }
      index := index + 1;
      rounds, turn := nextRounds, nextTurn;
    }
    LoopEnds(items, order, groups, selected, rounds, turn, budget);
  }
}
