/**
  The order in which a resolved decision lists credentials and categories, the sorting and
  compacting at the end of resolveRoutingState in internal/billing/routing.go. The scheduler
  keys its pools by these lists (routingPoolKey in internal/plugin/scheduler.go), so that
  decisions which say the same have to list the same.
 */
module DecisionLists {
  import opened Text
  import opened Model
  import opened Resolution

  predicate AllLower(values: seq<string>) {
    forall i :: 0 <= i < |values| ==> Lower(values[i]) == values[i]
  }

  // ----- Names ------------------------------------------------------------------------

  lemma {:induction false} InsertsInOrder(value: string, values: seq<string>)
    requires AllLower(values) && Lower(value) == value
    ensures AllLower(InsertFold(value, values)) && InsertFold(value, values) == InsertId(value, values)
  {
    hide Lower, Less;
    if values != [] && Less(values[0], value) { InsertsInOrder(value, values[1..]); }
  }

  lemma {:induction false} SortsInOrder(values: seq<string>)
    requires AllLower(values)
    ensures AllLower(SortFold(values)) && SortedIds(SortFold(values))
  {
    hide Lower, Less, InsertFold;
    if values != [] {
      SortsInOrder(values[1..]);
      InsertsInOrder(values[0], SortFold(values[1..]));
      InsertKeepsSorted(values[0], SortFold(values[1..]));
    }
  }

  lemma FrontInOrder(values: seq<string>)
    requires AllLower(values) && SortedIds(values) && values != []
    ensures var rest, last := values[..|values| - 1], values[|values| - 1];
            && AllLower(rest) && SortedIds(rest) && Lower(last) == last
            && (forall x :: x in values <==> x in rest || x == last) && forall x :: x in rest ==> !Less(last, x)
  {
    hide Lower, Less;
    var rest, last := values[..|values| - 1], values[|values| - 1];
    assert values == rest + [last];
    forall x | x in rest
      ensures !Less(last, x)
    {
      var k :| 0 <= k < |rest| && rest[k] == x;
    }
  }

  lemma LowerFold(values: seq<string>, a: string, b: string)
    requires AllLower(values) && a in values && Lower(b) == b
    ensures EqualFold(a, b) <==> a == b
  {
    hide Lower;
  }

  /** Without letters in capitals, neighbours of one spelling are equal, and compacting leaves each name once. */
  lemma {:induction false} CompactsInOrder(values: seq<string>)
    requires AllLower(values) && SortedIds(values)
    ensures var r := CompactFold(values);
            && SortedIds(r) && Distinct(r) && (forall x :: x in r <==> x in values)
            && (values != [] ==> r[|r| - 1] == values[|values| - 1])
  {
    hide Lower, Less, SortedIds, Distinct, AllLower, EqualFold;
    if values == [] {
      NothingInOrder();
    } else {
      FrontInOrder(values);
      var rest, last := values[..|values| - 1], values[|values| - 1];
      CompactsInOrder(rest);
      var front := CompactFold(rest);
      if front != [] {
        assert front[|front| - 1] in rest;
        LowerFold(rest, front[|front| - 1], last);
      }
      if front == [] || front[|front| - 1] != last { LastIsNew(front, last); }
    }
  }

  lemma NothingInOrder()
    ensures SortedIds([]) && Distinct([]) && CompactFold([]) == []
  {
  }

  lemma LastIsNew(front: seq<string>, last: string)
    requires SortedIds(front) && Distinct(front) && forall x :: x in front ==> !Less(last, x)
    requires front != [] ==> front[|front| - 1] != last
    ensures SortedIds(front + [last]) && Distinct(front + [last])
  {
    hide Less;
    forall i | 0 <= i < |front|
      ensures front[i] != last
    {
      if front[i] == last && i < |front| - 1 {
        LessTotal(last, front[|front| - 1]);
      }
    }
  }

  /** Lists of the same credentials are listed the same, in ascending order and without repeats, however they were merged. */
  lemma TidyIsCanonical(a: seq<string>, b: seq<string>)
    requires AllLower(a) && AllLower(b)
    ensures SortedIds(Tidy(a)) && Distinct(Tidy(a))
    ensures Tidy(a) == Tidy(b) <==> forall x :: x in a <==> x in b
  {
    hide Lower, Less, SortFold, CompactFold, SortedIds, Distinct;
    SortsInOrder(a);
    SortsInOrder(b);
    CompactsInOrder(SortFold(a));
    CompactsInOrder(SortFold(b));
    if forall x :: x in a <==> x in b {
      SortedUnique(Tidy(a), Tidy(b));
    } else {
      var x :| (x in a) != (x in b);
      assert (x in Tidy(a)) != (x in Tidy(b));
    }
  }

  // ----- Categories -------------------------------------------------------------------

  lemma BeforeTotal(a: Selector, b: Selector)
    ensures Before(a, b) || Before(b, a) || a == b
    ensures !(Before(a, b) && Before(b, a))
  {
    hide Less;
    LessTotal(a.source, b.source);
    LessAsymmetric(a.source, b.source);
    LessTotal(a.provider, b.provider);
    LessAsymmetric(a.provider, b.provider);
  }

  lemma BeforeTransitive(a: Selector, b: Selector, c: Selector)
    requires Before(a, b) && Before(b, c)
    ensures Before(a, c)
  {
    hide Less;
    LessAsymmetric(a.source, b.source);
    if a.source != b.source && b.source != c.source { LessTransitive(a.source, b.source, c.source); }
    if a.source == b.source == c.source { LessTransitive(a.provider, b.provider, c.provider); }
  }

  predicate Ascending(values: seq<Selector>) {
    forall i, j :: 0 <= i < j < |values| ==> !Before(values[j], values[i])
  }

  predicate Apart(values: seq<Selector>) {
    forall i, j :: 0 <= i < j < |values| ==> values[i] != values[j]
  }

  lemma {:induction false} InsertStaysAscending(value: Selector, values: seq<Selector>)
    requires Ascending(values)
    ensures Ascending(InsertSelector(value, values))
  {
    hide Before;
    if values == [] {
    } else if !Before(values[0], value) {
      forall j | 0 <= j < |values|
        ensures !Before(values[j], value)
      {
        BeforeTotal(value, values[0]);
        if Before(values[j], value) && value != values[0] { BeforeTransitive(values[j], value, values[0]); }
      }
    } else {
      InsertStaysAscending(value, values[1..]);
      BeforeTotal(values[0], value);
      FirstIsLeast(values[0], InsertSelector(value, values[1..]));
    }
  }

  lemma FirstIsLeast(first: Selector, rest: seq<Selector>)
    requires Ascending(rest) && forall x :: x in rest ==> !Before(x, first)
    ensures Ascending([first] + rest)
  {
    hide Before;
  }

  lemma {:induction false} SelectorsSort(values: seq<Selector>)
    ensures Ascending(SortSelectors(values))
  {
    hide Before, InsertSelector;
    if values != [] {
      SelectorsSort(values[1..]);
      InsertStaysAscending(values[0], SortSelectors(values[1..]));
    }
  }

  lemma {:induction false} CompactStaysAscending(values: seq<Selector>)
    requires Ascending(values)
    ensures Ascending(Compact(values)) && Apart(Compact(values))
    ensures values != [] ==> Compact(values) != [] && Compact(values)[|Compact(values)| - 1] == values[|values| - 1]
  {
    hide Before;
    if values != [] {
      var rest, last := values[..|values| - 1], values[|values| - 1];
      CompactStaysAscending(rest);
      var front := Compact(rest);
      forall i | 0 <= i < |front|
        ensures !Before(last, front[i])
      {
        assert front[i] in rest;
        var k :| 0 <= k < |rest| && rest[k] == front[i];
      }
      if front != [] && front[|front| - 1] != last {
        forall i | 0 <= i < |front|
          ensures front[i] != last
        {
          if front[i] == last && i < |front| - 1 { BeforeTotal(last, front[|front| - 1]); }
        }
      }
    }
  }

  lemma {:induction false} OneOrder(a: seq<Selector>, b: seq<Selector>)
    requires Ascending(a) && Ascending(b) && Apart(a) && Apart(b) && forall x :: x in a <==> x in b
    ensures a == b
  {
    hide Before;
    if a == [] {
      assert forall i :: 0 <= i < |b| ==> b[i] in b;
    } else {
      assert a[0] in b && b[0] in a;
      BeforeTotal(a[0], b[0]);
      forall x
        ensures x in a[1..] <==> x in b[1..]
      {
        assert x in a[1..] <==> x in a && x != a[0];
        assert x in b[1..] <==> x in b && x != b[0];
      }
      OneOrder(a[1..], b[1..]);
      assert a == [a[0]] + a[1..] && b == [b[0]] + b[1..];
    }
  }

  /** And so are lists of the same categories. */
  lemma TidyCategoriesAreCanonical(a: seq<Selector>, b: seq<Selector>)
    ensures Ascending(TidySelectors(a)) && Apart(TidySelectors(a))
    ensures TidySelectors(a) == TidySelectors(b) <==> forall x :: x in a <==> x in b
  {
    hide Before, SortSelectors, Ascending, Apart;
    SelectorsSort(a);
    SelectorsSort(b);
    CompactStaysAscending(SortSelectors(a));
    CompactStaysAscending(SortSelectors(b));
    if forall x :: x in a <==> x in b {
      OneOrder(TidySelectors(a), TidySelectors(b));
    } else {
      var x :| (x in a) != (x in b);
      assert (x in TidySelectors(a)) != (x in TidySelectors(b));
    }
  }

  /**
    So two rules whose credentials and categories are the same, in whatever order their grants
    were merged, are tidied to the same ones: a key keeps its place in the scheduler's pools.
   */
  lemma SameGrantsSamePool(a: RouteRule, b: RouteRule)
    requires AllLower(a.ids) && AllLower(b.ids) && AllLower(a.deniedIds) && AllLower(b.deniedIds)
    requires forall x :: x in a.ids <==> x in b.ids
    requires forall x :: x in a.deniedIds <==> x in b.deniedIds
    requires forall p :: p in a.providers <==> p in b.providers
    requires forall p :: p in a.deniedProviders <==> p in b.deniedProviders
    ensures Tidied(a).(models := [], deniedModels := []) == Tidied(b).(models := [], deniedModels := [])
  {
    hide Tidy, TidySelectors, AllLower;
    TidyIsCanonical(a.ids, b.ids);
    TidyIsCanonical(a.deniedIds, b.deniedIds);
    TidyCategoriesAreCanonical(a.providers, b.providers);
    TidyCategoriesAreCanonical(a.deniedProviders, b.deniedProviders);
  }
}
