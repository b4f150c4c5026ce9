/** Keeping the most recently used directories of a cache and removing the rest. */
module Recency {
  import opened Strings

  datatype Used = Used(name: string, at: int)

  /** What `sort.Slice` by use, newest first, may leave: it does not fix the order of equal times. */
  predicate MostRecentFirst(order: seq<Used>) {
    forall i, j :: 0 <= i < j < |order| ==> order[i].at >= order[j].at
  }

  function InsertByUse(x: Used, order: seq<Used>): seq<Used> {
    if order == [] || x.at >= order[0].at then [x] + order else [order[0]] + InsertByUse(x, order[1..])
  }

  lemma {:induction false} InsertByUseMembers(x: Used, order: seq<Used>)
    ensures multiset(InsertByUse(x, order)) == multiset(order) + multiset{x}
  {
    if order != [] && x.at < order[0].at {
      InsertByUseMembers(x, order[1..]);
      assert order == [order[0]] + order[1..];
    }
  }

  lemma {:induction false} InsertByUseKeepsOrder(x: Used, order: seq<Used>)
    requires MostRecentFirst(order)
    ensures MostRecentFirst(InsertByUse(x, order))
  {
    if order != [] && x.at < order[0].at {
      var rest := InsertByUse(x, order[1..]);
      InsertByUseKeepsOrder(x, order[1..]);
      forall j | 0 <= j < |rest|
        ensures order[0].at >= rest[j].at
      {
        InsertedFrom(x, order[1..], j);
      }
    }
  }

  lemma InsertedFrom(x: Used, order: seq<Used>, j: nat)
    requires j < |InsertByUse(x, order)|
    ensures InsertByUse(x, order)[j] == x
            || exists i :: 0 <= i < |order| && InsertByUse(x, order)[j] == order[i]
  {
    var r := InsertByUse(x, order);
    InsertByUseMembers(x, order);
    assert r[j] in multiset(r);
    assert r[j] == x || r[j] in order;
  }

  method SortByUse(items: seq<Used>) returns (order: seq<Used>)
    ensures multiset(order) == multiset(items) && MostRecentFirst(order)
  {
    order := [];
    for i := 0 to |items|
      invariant multiset(order) == multiset(items[..i]) && MostRecentFirst(order)
    {
      InsertByUseMembers(items[i], order);
      InsertByUseKeepsOrder(items[i], order);
      order := InsertByUse(items[i], order);
      assert items[..i + 1] == items[..i] + [items[i]];
    }
    assert items[..|items|] == items;
  }

  ghost predicate DistinctNames(items: seq<Used>) {
    forall i, j :: 0 <= i < j < |items| ==> items[i].name != items[j].name
  }

  /** All but `keep` of the items are removed, and none removed was used later than one kept. */
  ghost predicate RemovesOldest(items: seq<Used>, keep: nat, removed: seq<string>) {
    && |removed| == (if |items| > keep then |items| - keep else 0)
    && Distinct(removed)
    && (forall name :: name in removed ==> exists x :: x in items && x.name == name)
    && (forall r, k :: r in items && k in items && r.name in removed && k.name !in removed ==> r.at <= k.at)
  }

  lemma TailIsOldest(items: seq<Used>, order: seq<Used>, keep: nat, removed: seq<string>)
    requires DistinctNames(items) && multiset(order) == multiset(items) && MostRecentFirst(order)
    requires |removed| == (if |order| > keep then |order| - keep else 0)
    requires forall i :: 0 <= i < |removed| ==> removed[i] == order[keep + i].name
    ensures RemovesOldest(items, keep, removed)
  {
    SameElements(order, items);
    NamesStayDistinct(items, order);
    forall name | name in removed
      ensures exists x :: x in items && x.name == name
    {
      var i :| 0 <= i < |removed| && removed[i] == name;
      assert order[keep + i] in order;
    }
    forall m | keep <= m < |order|
      ensures order[m].name in removed
    {
      assert removed[m - keep] == order[m].name;
    }
    forall r, k | r in items && k in items && r.name in removed && k.name !in removed
      ensures r.at <= k.at
    {
      var i :| 0 <= i < |removed| && removed[i] == r.name;
      var a :| 0 <= a < |order| && order[a] == r;
      var b :| 0 <= b < |order| && order[b] == k;
      assert order[a].name == order[keep + i].name;
      assert b < keep;
    }
  }

  lemma NamesStayDistinct(items: seq<Used>, order: seq<Used>)
    requires DistinctNames(items) && multiset(order) == multiset(items)
    ensures DistinctNames(order)
  {
    assert Distinct(items);
    SameElements(order, items);
    forall i, j | 0 <= i < j < |order|
      ensures order[i].name != order[j].name
    {
      assert order[i] != order[j];
      assert order[i] in order && order[j] in order;
      var a :| 0 <= a < |items| && items[a] == order[i];
      var b :| 0 <= b < |items| && items[b] == order[j];
      assert a != b;
    }
  }

  /** The names beyond the `keep` most recently used ones. */
  method Stale(items: seq<Used>, keep: nat) returns (removed: seq<string>)
    requires DistinctNames(items)
    ensures RemovesOldest(items, keep, removed)
  {
    var order := SortByUse(items);
    SameElements(order, items);
    removed := [];
    var i := keep;
    while i < |order|
      invariant i >= keep && (i <= |order| || i == keep)
      invariant |removed| == i - keep
      invariant forall k :: 0 <= k < |removed| ==> removed[k] == order[keep + k].name
    {
      removed := removed + [order[i].name];
      i := i + 1;
    }
    TailIsOldest(items, order, keep, removed);
  }
}
