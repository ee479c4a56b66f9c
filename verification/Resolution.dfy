/**
  resolveRoutingState of internal/billing/routing.go: the loops that merge groups, routes and
  a key's own rule into one decision, proved to decide exactly what the key's standing means.
 */
module Resolution {
  import opened Text
  import opened Model
  import opened Routing

  // ----- Merging ----------------------------------------------------------------------

  function Merged(a: RouteRule, b: RouteRule): RouteRule {
    RouteRule(a.models + b.models, a.ids + b.ids, a.providers + b.providers,
              a.deniedModels + b.deniedModels, a.deniedIds + b.deniedIds, a.deniedProviders + b.deniedProviders)
  }

  lemma MergedContents(a: RouteRule, b: RouteRule)
    ensures ContentsOf(Merged(a, b)) == ContentsOf(a).Plus(ContentsOf(b))
  {
  }

  lemma PlusAssociates(a: Contents, b: Contents, c: Contents)
    ensures a.Plus(b).Plus(c) == a.Plus(b.Plus(c))
  {
  }

  lemma PlusNothing(a: Contents)
    ensures a.Plus(NO_CONTENTS) == a && NO_CONTENTS.Plus(a) == a
  {
  }

  lemma EmptyRuleContents()
    ensures ContentsOf(EMPTY_RULE) == NO_CONTENTS
  {
  }

  /** Adds the rules of the listed routes to a rule, or reports that one no longer exists. */
  method MergeRoutes(routes: seq<Route>, ids: seq<string>, start: RouteRule) returns (r: Option<RouteRule>)
    ensures r.Some? <==> RoutesExist(routes, ids)
    ensures r.Some? ==> ContentsOf(r.value) == ContentsOf(start).Plus(RoutesTo(routes, ids, |ids|))
  {
    hide ContentsOf, Contents.Plus;
    var rule := start;
    PlusNothing(ContentsOf(start));
    for i := 0 to |ids|
      invariant forall j :: 0 <= j < i ==> FindRoute(routes, ids[j]).Some?
      invariant ContentsOf(rule) == ContentsOf(start).Plus(RoutesTo(routes, ids, i))
    {
      var found := FindRoute(routes, ids[i]);
      if found.None? { return None; }
      MergedContents(rule, found.value.rule);
      PlusAssociates(ContentsOf(start), RoutesTo(routes, ids, i), ContentsOf(found.value.rule));
      rule := Merged(rule, found.value.rule);
    }
    return Some(rule);
  }

  /** grantUnit: the allow lists of one grant, skipping routes that no longer exist. */
  method GrantUnit(routes: seq<Route>, grant: Grant) returns (unit: RouteRule)
    ensures ContentsOf(unit) == AllowContents(GrantContents(routes, grant))
  {
    hide ContentsOf;
    unit := Allows(grant.rule);
    AllowsContents(grant.rule);
    var ids := grant.routeIDs;
    var start := ContentsOf(grant.rule);
    PlusNothing(start);
    for i := 0 to |ids|
      invariant ContentsOf(unit) == AllowContents(start.Plus(RoutesTo(routes, ids, i)))
    {
      var found := FindRoute(routes, ids[i]);
      var before := start.Plus(RoutesTo(routes, ids, i));
      if found.Some? {
        MergedContents(unit, Allows(found.value.rule));
        AllowsContents(found.value.rule);
        unit := Merged(unit, Allows(found.value.rule));
      }
      PlusNothing(before);
      PlusAssociates(start, RoutesTo(routes, ids, i), RouteContents(routes, ids[i]));
    }
  }

  function Allows(rule: RouteRule): RouteRule {
    RouteRule(rule.models, rule.ids, rule.providers, [], [], [])
  }

  function AllowContents(c: Contents): Contents {
    Contents(c.models, c.ids, c.providers, {}, {}, {})
  }

  lemma AllowsContents(rule: RouteRule)
    ensures ContentsOf(Allows(rule)) == AllowContents(ContentsOf(rule))
  {
  }

  // ----- Open grants ------------------------------------------------------------------

  predicate UnitGrants(unit: RouteRule) {
    unit.ids != [] || unit.providers != []
  }

  /** Some of the first n units grant credentials without listing models. */
  predicate SomeOpen(units: seq<RouteRule>, n: nat)
    requires n <= |units|
  {
    exists i :: 0 <= i < n && units[i].models == [] && UnitGrants(units[i])
  }

  predicate SomeListed(units: seq<RouteRule>, n: nat)
    requires n <= |units|
  {
    exists i :: 0 <= i < n && units[i].models != []
  }

  predicate Unpaired(units: seq<RouteRule>, n: nat)
    requires n <= |units|
  {
    exists i :: 0 <= i < n && units[i].models != [] && !UnitGrants(units[i])
  }

  ghost predicate OpenListsId(units: seq<RouteRule>, n: nat, id: string)
    requires n <= |units|
  {
    exists i :: 0 <= i < n && units[i].models == [] && id in units[i].ids
  }

  ghost predicate OpenListsProvider(units: seq<RouteRule>, n: nat, provider: Selector)
    requires n <= |units|
  {
    exists i :: 0 <= i < n && units[i].models == [] && provider in units[i].providers
  }

  /** openGrant. */
  method OpenGrant(units: seq<RouteRule>) returns (r: Option<RouteRule>)
    ensures r.Some? <==> !Unpaired(units, |units|) && SomeListed(units, |units|) && SomeOpen(units, |units|)
    ensures r.Some? ==> forall id :: id in r.value.ids <==> OpenListsId(units, |units|, id)
    ensures r.Some? ==> forall p :: p in r.value.providers <==> OpenListsProvider(units, |units|, p)
  {
    var open: Option<RouteRule> := None;
    var listed := false;
    for i := 0 to |units|
      invariant !Unpaired(units, i)
      invariant listed == SomeListed(units, i)
      invariant open.Some? == SomeOpen(units, i)
      invariant forall id :: OpenListsId(units, i, id) <==> open.Some? && id in open.value.ids
      invariant forall p :: OpenListsProvider(units, i, p) <==> open.Some? && p in open.value.providers
    {
      var unit := units[i];
      if unit.models != [] && !UnitGrants(unit) {
        return None;
      }
      if unit.models != [] {
        listed := true;
      } else if UnitGrants(unit) {
        var sofar := if open.Some? then open.value else EMPTY_RULE;
        open := Some(sofar.(ids := sofar.ids + unit.ids, providers := sofar.providers + unit.providers));
      }
    }
    if !listed { return None; }
    return open;
  }

  // ----- Sorting and compacting -------------------------------------------------------

  function InsertFold(value: string, values: seq<string>): (r: seq<string>)
    ensures forall x :: x in r <==> x == value || x in values
  {
    if values == [] || !Less(Lower(values[0]), Lower(value)) then [value] + values
    else [values[0]] + InsertFold(value, values[1..])
  }

  function SortFold(values: seq<string>): (r: seq<string>)
    ensures forall x :: x in r <==> x in values
  {
    if values == [] then [] else InsertFold(values[0], SortFold(values[1..]))
  }

  /** Keeps the first of neighbours that differ only in case. */
  function CompactFold(values: seq<string>): (r: seq<string>)
    ensures r == [] <==> values == []
    ensures forall x :: x in r ==> x in values
  {
    if values == [] then [] else
    var front, last := CompactFold(values[..|values| - 1]), values[|values| - 1];
    if front != [] && EqualFold(front[|front| - 1], last) then front else front + [last]
  }

  lemma {:induction false} CompactKeepsFold(values: seq<string>, x: string)
    requires x in values
    ensures Contains(CompactFold(values), x)
  {
    hide Lower;
    var front, last := CompactFold(values[..|values| - 1]), values[|values| - 1];
    var all := CompactFold(values);
    if x == last {
      assert EqualFold(all[|all| - 1], x);
    } else {
      assert values == values[..|values| - 1] + [last];
      CompactKeepsFold(values[..|values| - 1], x);
      var i :| 0 <= i < |front| && EqualFold(front[i], x);
      assert all[i] == front[i];
    }
  }

  function Tidy(values: seq<string>): (r: seq<string>) {
    CompactFold(SortFold(values))
  }

  /** Sorting and compacting a list changes neither whether it is empty nor what it matches. */
  lemma TidyMatches(values: seq<string>)
    ensures Tidy(values) == [] <==> values == []
    ensures forall v :: Contains(Tidy(values), v) <==> Has(SetOf(values), v)
  {
    hide Lower, SortFold, CompactFold;
    var sorted := SortFold(values);
    assert values != [] ==> values[0] in sorted;
    assert sorted != [] ==> sorted[0] in sorted;
    forall v
      ensures Contains(Tidy(values), v) <==> Has(SetOf(values), v)
    {
      if Has(SetOf(values), v) {
        var x :| x in SetOf(values) && EqualFold(x, v);
        CompactKeepsFold(sorted, x);
        var i :| 0 <= i < |Tidy(values)| && EqualFold(Tidy(values)[i], x);
        assert EqualFold(Tidy(values)[i], v);
      }
      if Contains(Tidy(values), v) {
        var i :| 0 <= i < |Tidy(values)| && EqualFold(Tidy(values)[i], v);
        assert Tidy(values)[i] in values;
      }
    }
  }

  predicate Before(a: Selector, b: Selector) {
    if a.source != b.source then Less(a.source, b.source) else Less(a.provider, b.provider)
  }

  function InsertSelector(value: Selector, values: seq<Selector>): (r: seq<Selector>)
    ensures forall x :: x in r <==> x == value || x in values
  {
    if values == [] || !Before(values[0], value) then [value] + values
    else [values[0]] + InsertSelector(value, values[1..])
  }

  function SortSelectors(values: seq<Selector>): (r: seq<Selector>)
    ensures forall x :: x in r <==> x in values
  {
    if values == [] then [] else InsertSelector(values[0], SortSelectors(values[1..]))
  }

  function TidySelectors(values: seq<Selector>): (r: seq<Selector>)
    ensures SetOf(r) == SetOf(values)
    ensures r == [] <==> values == []
  {
    var r := Compact(SortSelectors(values));
    assert SetOf(r) == SetOf(values);
    r
  }

  function Tidied(rule: RouteRule): RouteRule {
    RouteRule(Tidy(rule.models), Tidy(rule.ids), TidySelectors(rule.providers),
              Tidy(rule.deniedModels), Tidy(rule.deniedIds), TidySelectors(rule.deniedProviders))
  }

  /** Keeps the models the key's own list also names. */
  function Common(models: seq<string>, own: seq<string>): (r: seq<string>)
    ensures forall x :: x in r <==> x in models && Contains(own, x)
  {
    if models == [] then [] else
    var front, last := Common(models[..|models| - 1], own), models[|models| - 1];
    assert models == models[..|models| - 1] + [last];
    if Contains(own, last) then front + [last] else front
  }

  lemma CommonMatches(models: seq<string>, own: seq<string>)
    ensures forall v :: Contains(Common(models, own), v) <==> Contains(models, v) && Contains(own, v)
  {
    hide Lower;
    var common := Common(models, own);
    forall v
      ensures Contains(common, v) <==> Contains(models, v) && Contains(own, v)
    {
      if Contains(common, v) {
        var i :| 0 <= i < |common| && EqualFold(common[i], v);
        assert common[i] in models && Contains(own, common[i]);
        var j :| 0 <= j < |own| && EqualFold(own[j], common[i]);
        assert EqualFold(own[j], v);
      }
      if Contains(models, v) && Contains(own, v) {
        var i :| 0 <= i < |models| && EqualFold(models[i], v);
        var j :| 0 <= j < |own| && EqualFold(own[j], v);
        assert EqualFold(own[j], models[i]);
        assert models[i] in common;
      }
    }
  }

  lemma ContainsElements(values: seq<string>)
    ensures forall v :: Contains(values, v) <==> Has(SetOf(values), v)
  {
    hide Lower, SetOf;
    forall v
      ensures Contains(values, v) <==> Has(SetOf(values), v)
    {
      if Contains(values, v) {
        var i :| 0 <= i < |values| && EqualFold(values[i], v);
        assert values[i] in SetOf(values);
      }
    }
  }

  // ----- Surveying the groups ---------------------------------------------------------

  function RouteIDsTo(groups: seq<Group>, n: nat): seq<string>
    requires n <= |groups|
  {
    if n == 0 then [] else RouteIDsTo(groups, n - 1) + groups[n - 1].routeIDs
  }

  function RulesTo(groups: seq<Group>, n: nat): Contents
    requires n <= |groups|
  {
    if n == 0 then NO_CONTENTS else RulesTo(groups, n - 1).Plus(ContentsOf(groups[n - 1].rule))
  }

  method Survey(groups: seq<Group>) returns (exclusive: bool, configured: bool, routeIDs: seq<string>)
    ensures exclusive == HasExclusive(groups) && configured == AnyGrantsAccess(groups)
    ensures routeIDs == RouteIDsTo(groups, |groups|)
  {
    exclusive, configured, routeIDs := false, false, [];
    for i := 0 to |groups|
      invariant exclusive <==> exists j :: 0 <= j < i && groups[j].mode == EXCLUSIVE
      invariant configured <==> exists j :: 0 <= j < i && GrantsAccess(groups[j])
      invariant routeIDs == RouteIDsTo(groups, i)
    {
      exclusive := exclusive || groups[i].mode == EXCLUSIVE;
      configured := configured || GrantsAccess(groups[i]);
      routeIDs := routeIDs + groups[i].routeIDs;
    }
  }

  method MergeGroupRules(groups: seq<Group>, start: RouteRule) returns (rule: RouteRule)
    ensures ContentsOf(rule) == ContentsOf(start).Plus(RulesTo(groups, |groups|))
  {
    hide ContentsOf, Contents.Plus;
    rule := start;
    PlusNothing(ContentsOf(start));
    for i := 0 to |groups|
      invariant ContentsOf(rule) == ContentsOf(start).Plus(RulesTo(groups, i))
    {
      MergedContents(rule, groups[i].rule);
      PlusAssociates(ContentsOf(start), RulesTo(groups, i), ContentsOf(groups[i].rule));
      rule := Merged(rule, groups[i].rule);
    }
  }

  method GroupUnits(routes: seq<Route>, groups: seq<Group>) returns (units: seq<RouteRule>)
    ensures Units(units, GrantsOfGroups(routes, groups))
  {
    units := [];
    for i := 0 to |groups|
      invariant |units| == i
      invariant forall j :: 0 <= j < i ==>
                  ContentsOf(units[j]) == AllowContents(GrantsOfGroups(routes, groups)[j])
    {
      var unit := GrantUnit(routes, GrantOf(groups[i]));
      units := units + [unit];
    }
  }

  /** The units are the grants, allow lists only. */
  ghost predicate Units(units: seq<RouteRule>, grants: seq<Contents>) {
    |units| == |grants| && forall i :: 0 <= i < |units| ==> ContentsOf(units[i]) == AllowContents(grants[i])
  }

  lemma {:induction false} RoutesAppend(routes: seq<Route>, a: seq<string>, b: seq<string>, n: nat)
    requires n <= |b|
    ensures RoutesTo(routes, a + b, |a| + n) == RoutesTo(routes, a, |a|).Plus(RoutesTo(routes, b, n))
  {
    hide RouteContents;
    PlusNothing(RoutesTo(routes, a, |a|));
    if n == 0 {
      RoutesPrefix(routes, a, b, |a|);
    } else {
      RoutesAppend(routes, a, b, n - 1);
      assert (a + b)[|a| + n - 1] == b[n - 1];
      PlusAssociates(RoutesTo(routes, a, |a|), RoutesTo(routes, b, n - 1), RouteContents(routes, b[n - 1]));
    }
  }

  lemma {:induction false} RoutesPrefix(routes: seq<Route>, a: seq<string>, b: seq<string>, n: nat)
    requires n <= |a|
    ensures RoutesTo(routes, a + b, n) == RoutesTo(routes, a, n)
  {
    hide RouteContents;
    if n > 0 { RoutesPrefix(routes, a, b, n - 1); }
  }

  /** Merging all group routes and then all group rules amounts to merging grant by grant. */
  lemma {:induction false} GrantsAddUp(routes: seq<Route>, groups: seq<Group>, n: nat)
    requires n <= |groups|
    ensures var ids := RouteIDsTo(groups, n);
            TotalTo(GrantsOfGroups(routes, groups), n) == RoutesTo(routes, ids, |ids|).Plus(RulesTo(groups, n))
  {
    hide ContentsOf, Contents.Plus;
    PlusNothing(NO_CONTENTS);
    if n > 0 {
      GrantsAddUp(routes, groups, n - 1);
      var ids, more := RouteIDsTo(groups, n - 1), groups[n - 1].routeIDs;
      RoutesAppend(routes, ids, more, |more|);
      Interleave(RoutesTo(routes, ids, |ids|), RulesTo(groups, n - 1),
                 ContentsOf(groups[n - 1].rule), RoutesTo(routes, more, |more|));
    }
  }

  lemma Interleave(a: Contents, b: Contents, c: Contents, d: Contents)
    ensures a.Plus(b).Plus(c.Plus(d)) == a.Plus(d).Plus(b.Plus(c))
  {
  }

  lemma RoutesExistAppend(routes: seq<Route>, a: seq<string>, b: seq<string>)
    ensures RoutesExist(routes, a + b) <==> RoutesExist(routes, a) && RoutesExist(routes, b)
  {
    if RoutesExist(routes, a + b) {
      forall i | 0 <= i < |b|
        ensures FindRoute(routes, b[i]).Some?
      {
        assert (a + b)[|a| + i] == b[i];
      }
      forall i | 0 <= i < |a|
        ensures FindRoute(routes, a[i]).Some?
      {
        assert (a + b)[i] == a[i];
      }
    }
  }

  lemma {:induction false} GroupRoutesAllExist(routes: seq<Route>, groups: seq<Group>, n: nat)
    requires n <= |groups|
    ensures RoutesExist(routes, RouteIDsTo(groups, n)) <==>
            forall i :: 0 <= i < n ==> RoutesExist(routes, groups[i].routeIDs)
  {
    hide RoutesExist;
    if n > 0 {
      GroupRoutesAllExist(routes, groups, n - 1);
      RoutesExistAppend(routes, RouteIDsTo(groups, n - 1), groups[n - 1].routeIDs);
    } else {
      NoRoutesExist(routes);
    }
  }

  lemma NoRoutesExist(routes: seq<Route>)
    ensures RoutesExist(routes, [])
  {
  }

  // ----- From lists to meaning --------------------------------------------------------

  /** The open credentials and the models the other grants list. */
  ghost predicate OpenMatches(d: Decision, s: Standing)
    requires s.Managed?
  {
    && (d.open.Some? <==> Opens(s.grants))
    && (d.open.Some? ==>
          && (d.open.value.ids != [] || d.open.value.providers != [])
          && (forall v :: Contains(d.open.value.ids, v) <==> OpenId(s.grants, v))
          && (forall p :: p in d.open.value.providers <==> OpenProvider(s.grants, p))
          && (forall v :: Contains(d.paired, v) <==> Has(Total(s.grants).models, v) && WithinOwnModels(s, v)))
  }

  ghost predicate ModelsMatch(models: seq<string>, s: Standing)
    requires s.Managed?
  {
    forall v :: (models == [] || Contains(models, v)) <==>
                (Opens(s.grants) || Total(s.grants).models == {} || Has(Total(s.grants).models, v)) && WithinOwnModels(s, v)
  }

  ghost predicate Settings(d: Decision, s: Standing)
    requires s.Managed?
  {
    && d.configurationError.None? && d.accessDenied.None?
    && d.requireAllowlist == s.requireAllowlist
    && (d.constraint.Some? <==> s.constrained)
    && (d.constraint.Some? ==> ContentsOf(d.constraint.value) == s.own)
  }

  ghost predicate Lists(values: seq<string>, listed: set<string>) {
    (values == [] <==> listed == {}) && forall v :: Contains(values, v) <==> Has(listed, v)
  }

  ghost predicate Represents(d: Decision, s: Standing)
    requires s.Managed?
  {
    var t := Total(s.grants);
    && Settings(d, s) && OpenMatches(d, s) && ModelsMatch(d.rule.models, s)
    && Lists(d.rule.ids, t.ids) && SetOf(d.rule.providers) == t.providers
    && Lists(d.rule.deniedModels, t.deniedModels + s.own.deniedModels)
    && Lists(d.rule.deniedIds, t.deniedIds + s.own.deniedIds)
    && SetOf(d.rule.deniedProviders) == t.deniedProviders + s.own.deniedProviders
  }

  /** The decision before its lists are sorted and compacted. */
  ghost predicate RawRepresents(d: Decision, s: Standing)
    requires s.Managed?
  {
    var t := Total(s.grants);
    && Settings(d, s) && OpenMatches(d, s) && ModelsMatch(d.rule.models, s)
    && SetOf(d.rule.ids) == t.ids && SetOf(d.rule.providers) == t.providers
    && SetOf(d.rule.deniedModels) == t.deniedModels + s.own.deniedModels
    && SetOf(d.rule.deniedIds) == t.deniedIds + s.own.deniedIds
    && SetOf(d.rule.deniedProviders) == t.deniedProviders + s.own.deniedProviders
  }

  lemma TidyRepresents(d: Decision, s: Standing)
    requires s.Managed? && RawRepresents(d, s)
    ensures Represents(d.(rule := Tidied(d.rule)), s)
  {
    hide Tidy, Contains, SetOf, Has, Opens, OpenId, OpenProvider, WithinOwnModels, Total, ContentsOf;
    TidyMatches(d.rule.models);
    TidyMatches(d.rule.ids);
    TidyMatches(d.rule.deniedModels);
    TidyMatches(d.rule.deniedIds);
    ContainsElements(d.rule.models);
  }

  ghost predicate Faithful(d: Decision, s: Standing) {
    && (d.configurationError.Some? <==> s.Broken?)
    && (d.accessDenied.Some? <==> s.Refused? || (s.Managed? && NothingInCommon(s)))
    && (s.Unmanaged? ==> d == NOTHING_DECIDED)
    && (s.Managed? && !NothingInCommon(s) ==> Represents(d, s))
  }

  /** The model list once the key's own models limit it; own is empty where nothing does. */
  function LimitedModels(listed: seq<string>, own: seq<string>, open: bool): seq<string> {
    if own == [] then (if open then [] else listed)
    else if open || listed == [] then own
    else Common(listed, own)
  }

  function PairedModels(listed: seq<string>, own: seq<string>): seq<string> {
    if own == [] then listed else Common(listed, own)
  }

  /** own stands for the limit the standing puts on models, if any. */
  ghost predicate OwnLimit(own: seq<string>, s: Standing)
    requires s.Managed?
  {
    if s.exclusive && s.own.models != {} then own != [] && SetOf(own) == s.own.models else own == []
  }

  lemma LimitedMatches(listed: seq<string>, own: seq<string>, s: Standing)
    requires s.Managed? && SetOf(listed) == Total(s.grants).models && OwnLimit(own, s)
    ensures ModelsMatch(LimitedModels(listed, own, Opens(s.grants)), s) || NothingInCommon(s)
    ensures forall v :: Contains(PairedModels(listed, own), v) <==> Has(Total(s.grants).models, v) && WithinOwnModels(s, v)
  {
    hide Contains, Has, SetOf, Opens, Total;
    ContainsElements(listed);
    ContainsElements(own);
    CommonMatches(listed, own);
    CommonEmpty(listed, own);
    ContainsNothing();
  }

  lemma ContainsNothing()
    ensures forall v :: !Contains([], v)
  {
  }

  /** Nothing is left of the list exactly when it shares no model with the key's own. */
  lemma CommonEmpty(listed: seq<string>, own: seq<string>)
    ensures Common(listed, own) == [] <==> forall m :: m in SetOf(listed) ==> !Has(SetOf(own), m)
  {
    hide Contains, Has, Common, SetOf;
    ContainsElements(own);
    var common := Common(listed, own);
    if common != [] {
      assert common[0] in common;
    }
  }

  lemma EmptyCommonRefuses(listed: seq<string>, own: seq<string>, s: Standing)
    requires s.Managed? && SetOf(listed) == Total(s.grants).models && OwnLimit(own, s)
    ensures NothingInCommon(s) <==> own != [] && !Opens(s.grants) && listed != [] && Common(listed, own) == []
  {
    hide Contains, Has, Opens, Total, Common, SetOf;
    CommonEmpty(listed, own);
  }

  /** What openGrant found in the units, said of the grants. */
  ghost predicate OpenFound(open: Option<RouteRule>, grants: seq<Contents>) {
    && (open.Some? <==> Opens(grants))
    && (open.Some? ==>
          && (open.value.ids != [] || open.value.providers != [])
          && (forall v :: Contains(open.value.ids, v) <==> OpenId(grants, v))
          && (forall p :: p in open.value.providers <==> OpenProvider(grants, p)))
  }

  lemma OpenOfUnits(units: seq<RouteRule>, grants: seq<Contents>, open: Option<RouteRule>)
    requires Units(units, grants)
    requires open.Some? <==> !Unpaired(units, |units|) && SomeListed(units, |units|) && SomeOpen(units, |units|)
    requires open.Some? ==> forall id :: id in open.value.ids <==> OpenListsId(units, |units|, id)
    requires open.Some? ==> forall p :: p in open.value.providers <==> OpenListsProvider(units, |units|, p)
    ensures OpenFound(open, grants)
  {
    hide Contains, Has, ContentsOf, OpenId, OpenProvider, OpenListsId, OpenListsProvider;
    UnitsOpen(units, grants);
    if open.Some? {
      OpenNotEmpty(units, open.value);
      forall v
        ensures Contains(open.value.ids, v) <==> OpenId(grants, v)
      {
        OpenIdOfUnits(units, grants, open.value, v);
      }
      forall p
        ensures p in open.value.providers <==> OpenProvider(grants, p)
      {
        OpenProviderOfUnits(units, grants, p);
      }
    }
  }

  lemma UnitOfGrant(units: seq<RouteRule>, grants: seq<Contents>, i: nat)
    requires Units(units, grants) && i < |units|
    ensures SetOf(units[i].models) == grants[i].models && SetOf(units[i].ids) == grants[i].ids
    ensures SetOf(units[i].providers) == grants[i].providers
    ensures units[i].models == [] <==> grants[i].models == {}
    ensures UnitGrants(units[i]) <==> grants[i].GrantsCredentials()
  {
    assert ContentsOf(units[i]) == AllowContents(grants[i]);
  }

  lemma UnitsOpen(units: seq<RouteRule>, grants: seq<Contents>)
    requires Units(units, grants)
    ensures !Unpaired(units, |units|) && SomeListed(units, |units|) && SomeOpen(units, |units|) <==> Opens(grants)
  {
    hide UnitGrants, Contents.GrantsCredentials, Units;
    assert |units| == |grants| by { SameNumber(units, grants); }
    forall i | 0 <= i < |units|
      ensures (units[i].models == [] <==> grants[i].models == {}) && (UnitGrants(units[i]) <==> grants[i].GrantsCredentials())
      ensures grants[i] in grants
    {
      UnitOfGrant(units, grants, i);
    }
  }

  lemma SameNumber(units: seq<RouteRule>, grants: seq<Contents>)
    requires Units(units, grants)
    ensures |units| == |grants|
  {
  }

  lemma OpenNotEmpty(units: seq<RouteRule>, open: RouteRule)
    requires SomeOpen(units, |units|)
    requires forall id :: id in open.ids <==> OpenListsId(units, |units|, id)
    requires forall p :: p in open.providers <==> OpenListsProvider(units, |units|, p)
    ensures open.ids != [] || open.providers != []
  {
    var i :| 0 <= i < |units| && units[i].models == [] && UnitGrants(units[i]);
    if units[i].ids != [] {
      assert units[i].ids[0] in open.ids;
    } else {
      assert units[i].providers[0] in open.providers;
    }
  }

  lemma OpenIdOfUnits(units: seq<RouteRule>, grants: seq<Contents>, open: RouteRule, v: string)
    requires Units(units, grants)
    requires forall id :: id in open.ids <==> OpenListsId(units, |units|, id)
    ensures Contains(open.ids, v) <==> OpenId(grants, v)
  {
    hide Lower, ContentsOf;
    if Contains(open.ids, v) {
      var k :| 0 <= k < |open.ids| && EqualFold(open.ids[k], v);
      assert open.ids[k] in open.ids;
      var i :| 0 <= i < |units| && units[i].models == [] && open.ids[k] in units[i].ids;
      UnitOfGrant(units, grants, i);
      assert open.ids[k] in grants[i].ids;
      assert grants[i] in grants;
    }
    if OpenId(grants, v) {
      var g :| g in grants && g.models == {} && Has(g.ids, v);
      var i :| 0 <= i < |grants| && grants[i] == g;
      UnitOfGrant(units, grants, i);
      var x :| x in g.ids && EqualFold(x, v);
      assert x in units[i].ids;
      assert OpenListsId(units, |units|, x);
    }
  }

  lemma OpenProviderOfUnits(units: seq<RouteRule>, grants: seq<Contents>, p: Selector)
    requires Units(units, grants)
    ensures OpenListsProvider(units, |units|, p) <==> OpenProvider(grants, p)
  {
    hide ContentsOf;
    if OpenListsProvider(units, |units|, p) {
      var i :| 0 <= i < |units| && units[i].models == [] && p in units[i].providers;
      UnitOfGrant(units, grants, i);
      assert grants[i] in grants;
    }
    if OpenProvider(grants, p) {
      var g :| g in grants && g.models == {} && p in g.providers;
      var i :| 0 <= i < |grants| && grants[i] == g;
      UnitOfGrant(units, grants, i);
    }
  }

  // ----- resolveRoutingState ----------------------------------------------------------

  /** What the key itself adds to an exclusive pool's decision. */
  function Limited(rule: RouteRule, own: RouteRule, open: bool): RouteRule {
    RouteRule(LimitedModels(rule.models, own.models, open), rule.ids, rule.providers,
              rule.deniedModels + own.deniedModels, rule.deniedIds + own.deniedIds,
              rule.deniedProviders + own.deniedProviders)
  }

  /** The exclusive branch: the key's own rule limits the pool and never adds to it. */
  method LimitToOwn(rule: RouteRule, own: RouteRule, constrained: bool, open: Option<RouteRule>) returns (d: Decision)
    ensures d.rule == Limited(rule, own, open.Some?)
    ensures d.accessDenied.Some? <==> own.models != [] && open.None? && rule.models != [] && Common(rule.models, own.models) == []
    ensures d.configurationError.None? && d.requireAllowlist && d.open == open
    ensures d.constraint == if constrained then Some(own) else None
    ensures open.Some? ==> d.paired == PairedModels(rule.models, own.models)
  {
    d := NOTHING_DECIDED.(rule := rule, requireAllowlist := true, constraint := if constrained then Some(own) else None);
    if own.models != [] {
      if open.Some? {
        d := d.(paired := Common(rule.models, own.models), rule := d.rule.(models := own.models), open := open);
      } else if d.rule.models == [] {
        d := d.(rule := d.rule.(models := own.models));
      } else {
        d := d.(rule := d.rule.(models := Common(d.rule.models, own.models)));
        if d.rule.models == [] {
          d := d.(accessDenied := Some("The key's direct model rules and exclusive group have no models in common"));
        }
      }
    }
    d := d.(rule := d.rule.(deniedModels := d.rule.deniedModels + own.deniedModels,
                            deniedIds := d.rule.deniedIds + own.deniedIds,
                            deniedProviders := d.rule.deniedProviders + own.deniedProviders));
    if open.Some? && d.open.None? {
      d := d.(paired := d.rule.models, rule := d.rule.(models := []), open := open);
    }
  }

  lemma LimitedRepresents(d: Decision, rule: RouteRule, own: RouteRule, s: Standing)
    requires s.Managed? && s.exclusive && ContentsOf(rule) == Total(s.grants) && ContentsOf(own) == s.own
    requires Settings(d, s) && OpenFound(d.open, s.grants)
    requires d.rule == Limited(rule, own, d.open.Some?)
    requires d.open.Some? ==> d.paired == PairedModels(rule.models, own.models)
    requires !NothingInCommon(s)
    ensures RawRepresents(d, s)
  {
    hide Contains, Has, SetOf, Opens, OpenId, OpenProvider, WithinOwnModels, Total, LimitedModels, PairedModels, NothingInCommon;
    LimitedMatches(rule.models, own.models, s);
  }

  lemma OrdinaryRepresents(d: Decision, rule: RouteRule, s: Standing)
    requires s.Managed? && !s.exclusive && ContentsOf(rule) == Total(s.grants)
    requires s.own.deniedModels <= Total(s.grants).deniedModels && s.own.deniedIds <= Total(s.grants).deniedIds
    requires s.own.deniedProviders <= Total(s.grants).deniedProviders
    requires Settings(d, s) && OpenFound(d.open, s.grants)
    requires d.rule == rule.(models := LimitedModels(rule.models, [], d.open.Some?))
    requires d.open.Some? ==> d.paired == rule.models
    ensures RawRepresents(d, s)
  {
    hide Contains, Has, SetOf, Opens, OpenId, OpenProvider, WithinOwnModels, Total, LimitedModels;
    assert SetOf(rule.models) == Total(s.grants).models;
    LimitedMatches(rule.models, [], s);
  }

  method ResolveRoutingState<K>(state: State<K>, key: Option<Key>) returns (d: Decision)
    ensures Faithful(d, StandingOf(state, key))
  {
    hide Represents, NothingInCommon, GroupedStanding, EffectiveGroups;
    if !state.access.enabled { return NOTHING_DECIDED; }
    if state.access.denyUngrouped && (key.None? || key.value.groupIDs == []) {
      return NOTHING_DECIDED.(accessDenied := Some("API key is not assigned to a group"));
    }
    if key.None? { return NOTHING_DECIDED; }
    var groups := EffectiveKeyGroups(state.groups, key.value.groupIDs);
    if groups.Err? {
      return NOTHING_DECIDED.(configurationError := Some(groups.reason));
    }
    NoGroups(state.groups, key.value.groupIDs);
    d := Decide(state.routes, groups.value, key.value);
  }

  lemma NoGroups(all: seq<Group>, ids: seq<string>)
    ensures ids == [] ==> EffectiveGroups(all, ids) == Ok([])
  {
  }

  method Decide(routes: seq<Route>, groups: seq<Group>, key: Key) returns (d: Decision)
    requires key.groupIDs == [] ==> groups == []
    ensures Faithful(d, GroupedStanding(routes, groups, key))
  {
    hide Represents, NothingInCommon, GrantContents, Constrained, AnyGrantsAccess, HasExclusive, GroupRoutesExist, RoutesExist, GrantsOfGroups;
    var exclusive, configured, groupRouteIDs := Survey(groups);
    if key.groupIDs != [] && !configured {
      return NOTHING_DECIDED.(accessDenied := Some("API key groups have no routing rules"));
    }
    ExclusiveIsAGroup(groups);
    if exclusive {
      d := DecideExclusive(routes, groups, groupRouteIDs, key);
    } else {
      d := DecideOrdinary(routes, groups, groupRouteIDs, key);
    }
  }

  lemma ExclusiveIsAGroup(groups: seq<Group>)
    ensures HasExclusive(groups) ==> groups != []
  {
  }

  method DecideExclusive(routes: seq<Route>, groups: seq<Group>, routeIDs: seq<string>, key: Key) returns (d: Decision)
    requires HasExclusive(groups) && routeIDs == RouteIDsTo(groups, |groups|)
    requires key.groupIDs != [] && AnyGrantsAccess(groups)
    ensures Faithful(d, GroupedStanding(routes, groups, key))
  {
    hide GroupedStanding, GrantContents, ContentsOf, RouteIDsTo, RoutesTo, RulesTo, Total, TotalTo, Opens, OpenFound, Units,
         Contains, Has, Limited, PairedModels, Common, SetOf, Contents.Plus, Faithful, GrantsOfGroups, HasExclusive,
         AnyGrantsAccess, RoutesExist, RouteRule.Empty, Tidied, FindRoute, SomeOpen, SomeListed, Unpaired, OpenListsId,
         OpenListsProvider;
    EmptyRuleContents();
    GroupRoutesAllExist(routes, groups, |groups|);
    BrokenStanding(routes, groups, key);
    var merged := MergeRoutes(routes, routeIDs, EMPTY_RULE);
    if merged.None? { return Misconfigured(); }
    var rule := MergeGroupRules(groups, merged.value);
    var units := GroupUnits(routes, groups);
    var open := OpenGrant(units);
    var own := MergeRoutes(routes, key.bindings.routeIDs, key.bindings.rule);
    if own.None? { return Misconfigured(); }
    ghost var s := GroupedStanding(routes, groups, key);
    ExclusiveTotal(routes, groups, ContentsOf(merged.value));
    ExclusiveStanding(routes, groups, key, own.value);
    OpenOfUnits(units, s.grants, open);
    var cleared := key.bindings.routeIDs == [] && key.bindings.rule.Empty();
    var constrained := (key.bindings.configured && !cleared) || own.value.ids != [] || own.value.providers != [];
    d := LimitToOwn(rule, own.value, constrained, open);
    ExclusiveFaithful(d, rule, own.value, s);
    d := d.(rule := Tidied(d.rule));
  }

  function Misconfigured(): Decision {
    NOTHING_DECIDED.(configurationError := Some("Routing rule no longer exists"))
  }

  lemma BrokenStanding(routes: seq<Route>, groups: seq<Group>, key: Key)
    requires key.groupIDs == [] || AnyGrantsAccess(groups)
    requires RoutesExist(routes, RouteIDsTo(groups, |groups|)) <==> GroupRoutesExist(routes, groups)
    ensures !RoutesExist(routes, RouteIDsTo(groups, |groups|)) || !RoutesExist(routes, key.bindings.routeIDs) ==>
              Faithful(Misconfigured(), GroupedStanding(routes, groups, key))
  {
    hide AnyGrantsAccess, RoutesExist, GroupRoutesExist, RouteIDsTo;
  }

  lemma ExclusiveStanding(routes: seq<Route>, groups: seq<Group>, key: Key, own: RouteRule)
    requires HasExclusive(groups) && key.groupIDs != [] && AnyGrantsAccess(groups)
    requires GroupRoutesExist(routes, groups) && RoutesExist(routes, key.bindings.routeIDs)
    requires ContentsOf(own) == ContentsOf(key.bindings.rule).Plus(RoutesTo(routes, key.bindings.routeIDs, |key.bindings.routeIDs|))
    ensures var s := GroupedStanding(routes, groups, key);
            && s.Managed? && s.exclusive && s.requireAllowlist && ContentsOf(own) == s.own
            && s.grants == GrantsOfGroups(routes, groups)
            && (s.constrained <==> (key.bindings.configured && !(key.bindings.routeIDs == [] && key.bindings.rule.Empty())) ||
                                   own.ids != [] || own.providers != [])
  {
    hide HasExclusive, AnyGrantsAccess, GroupRoutesExist, RoutesExist, RoutesTo, GrantsOfGroups, Contents.Plus, SetOf, RouteRule.Empty;
  }

  /** The limited list stands for the exclusive pool, or the key is refused for lack of a common model. */
  lemma ExclusiveFaithful(d: Decision, rule: RouteRule, own: RouteRule, s: Standing)
    requires s.Managed? && s.exclusive && s.requireAllowlist && ContentsOf(rule) == Total(s.grants) && ContentsOf(own) == s.own
    requires d.rule == Limited(rule, own, d.open.Some?) && OpenFound(d.open, s.grants)
    requires d.accessDenied.Some? <==> own.models != [] && d.open.None? && rule.models != [] && Common(rule.models, own.models) == []
    requires d.configurationError.None? && d.requireAllowlist
    requires d.constraint == if s.constrained then Some(own) else None
    requires d.open.Some? ==> d.paired == PairedModels(rule.models, own.models)
    ensures Faithful(d.(rule := Tidied(d.rule)), s)
  {
    hide Represents, RawRepresents, NothingInCommon, SetOf, Opens, Total, Contains, Has, Limited, Common, Tidied, PairedModels,
         OpenId, OpenProvider;
    OwnModelsLimit(own, s);
    EmptyCommonRefuses(rule.models, own.models, s);
    if d.accessDenied.None? {
      LimitedRepresents(d, rule, own, s);
      TidyRepresents(d, s);
    }
  }

  lemma ExclusiveTotal(routes: seq<Route>, groups: seq<Group>, merged: Contents)
    requires merged == NO_CONTENTS.Plus(RoutesTo(routes, RouteIDsTo(groups, |groups|), |RouteIDsTo(groups, |groups|)|))
    ensures merged.Plus(RulesTo(groups, |groups|)) == Total(GrantsOfGroups(routes, groups))
    ensures ContentsOf(EMPTY_RULE) == NO_CONTENTS
    ensures GrantsOfGroups(routes, groups) + [] == GrantsOfGroups(routes, groups)
  {
    GrantsAddUp(routes, groups, |groups|);
    PlusNothing(RoutesTo(routes, RouteIDsTo(groups, |groups|), |RouteIDsTo(groups, |groups|)|));
    EmptyRuleContents();
  }

  lemma OwnModelsLimit(own: RouteRule, s: Standing)
    requires s.Managed? && s.exclusive && ContentsOf(own) == s.own
    ensures OwnLimit(own.models, s)
  {
  }

  method DecideOrdinary(routes: seq<Route>, groups: seq<Group>, groupRouteIDs: seq<string>, key: Key) returns (d: Decision)
    requires !HasExclusive(groups) && groupRouteIDs == RouteIDsTo(groups, |groups|)
    requires key.groupIDs == [] || AnyGrantsAccess(groups)
    requires key.groupIDs == [] ==> groups == []
    ensures Faithful(d, GroupedStanding(routes, groups, key))
  {
    hide GroupedStanding, GrantContents, ContentsOf, RouteIDsTo, RoutesTo, RulesTo, Total, TotalTo, Opens, OpenFound, Units,
         Contains, Has, Limited, PairedModels, Common, SetOf, Contents.Plus, Faithful, GrantsOfGroups, HasExclusive,
         AnyGrantsAccess, RoutesExist, RouteRule.Empty, Tidied, FindRoute, SomeOpen, SomeListed, Unpaired, OpenListsId,
         OpenListsProvider;
    EmptyRuleContents();
    var routeIDs := key.bindings.routeIDs + groupRouteIDs;
    GroupRoutesAllExist(routes, groups, |groups|);
    RoutesExistAppend(routes, key.bindings.routeIDs, groupRouteIDs);
    BrokenStanding(routes, groups, key);
    NoGroupRoutes(groups);
    var require := key.bindings.configured || key.groupIDs != [] || routeIDs != [] || !key.bindings.rule.Empty();
    var merged := MergeRoutes(routes, routeIDs, EMPTY_RULE);
    if merged.None? { return Misconfigured(); }
    var rule := MergeGroupRules(groups, merged.value);
    var units := GroupUnits(routes, groups);
    var unit := GrantUnit(routes, OwnGrant(key));
    ghost var s := GroupedStanding(routes, groups, key);
    OrdinaryStanding(routes, groups, key);
    UnitsAppend(units, GrantsOfGroups(routes, groups), unit, s.own);
    units := units + [unit];
    var open := OpenGrant(units);
    OpenOfUnits(units, s.grants, open);
    MergedContents(rule, key.bindings.rule);
    rule := Merged(rule, key.bindings.rule);
    OrdinaryTotal(routes, groups, key, ContentsOf(merged.value));
    d := NOTHING_DECIDED.(rule := rule, requireAllowlist := require);
    if open.Some? {
      d := d.(paired := d.rule.models, rule := d.rule.(models := []), open := open);
    }
    OrdinaryFaithful(d, rule, s);
    d := d.(rule := Tidied(d.rule));
  }

  lemma OrdinaryStanding(routes: seq<Route>, groups: seq<Group>, key: Key)
    requires !HasExclusive(groups) && (key.groupIDs == [] || AnyGrantsAccess(groups))
    requires GroupRoutesExist(routes, groups) && RoutesExist(routes, key.bindings.routeIDs)
    ensures var s := GroupedStanding(routes, groups, key);
            && s.Managed? && !s.exclusive && !s.constrained && s.own == GrantContents(routes, OwnGrant(key))
            && s.grants == GrantsOfGroups(routes, groups) + [s.own]
            && (s.requireAllowlist <==> key.bindings.configured || key.groupIDs != [] || key.bindings.routeIDs != [] ||
                                        !key.bindings.rule.Empty())
  {
    hide HasExclusive, AnyGrantsAccess, GroupRoutesExist, RoutesExist, GrantContents, GrantsOfGroups, RouteRule.Empty;
  }

  lemma OrdinaryFaithful(d: Decision, rule: RouteRule, s: Standing)
    requires s.Managed? && !s.exclusive && !s.constrained && ContentsOf(rule) == Total(s.grants)
    requires s.own.deniedModels <= Total(s.grants).deniedModels && s.own.deniedIds <= Total(s.grants).deniedIds
    requires s.own.deniedProviders <= Total(s.grants).deniedProviders
    requires d.rule == (if d.open.Some? then rule.(models := []) else rule) && OpenFound(d.open, s.grants)
    requires d.configurationError.None? && d.accessDenied.None? && d.constraint.None? && d.requireAllowlist == s.requireAllowlist
    requires d.open.Some? ==> d.paired == rule.models
    ensures Faithful(d.(rule := Tidied(d.rule)), s)
  {
    hide Represents, RawRepresents, NothingInCommon, SetOf, Opens, Total, Contains, Has, Tidied, OpenId, OpenProvider, LimitedModels;
    LimitedUnlimited(rule.models);
    OrdinaryHasCommon(s);
    OrdinaryRepresents(d, rule, s);
    TidyRepresents(d, s);
  }

  lemma OrdinaryHasCommon(s: Standing)
    requires s.Managed? && !s.exclusive
    ensures !NothingInCommon(s)
  {
  }

  lemma LimitedUnlimited(listed: seq<string>)
    ensures LimitedModels(listed, [], true) == [] && LimitedModels(listed, [], false) == listed
  {
  }

  lemma NoGroupRoutes(groups: seq<Group>)
    ensures groups == [] ==> RouteIDsTo(groups, |groups|) == []
  {
  }

  lemma UnitsAppend(units: seq<RouteRule>, grants: seq<Contents>, unit: RouteRule, grant: Contents)
    requires Units(units, grants) && ContentsOf(unit) == AllowContents(grant)
    ensures Units(units + [unit], grants + [grant])
  {
  }

  lemma {:induction false} TotalPrefix(a: seq<Contents>, b: seq<Contents>, n: nat)
    requires n <= |a|
    ensures TotalTo(a + b, n) == TotalTo(a, n)
  {
    hide Contents.Plus;
    if n > 0 { TotalPrefix(a, b, n - 1); }
  }

  /** Merging key routes, group routes, group rules and the key's rule is merging every grant. */
  lemma OrdinaryTotal(routes: seq<Route>, groups: seq<Group>, key: Key, merged: Contents)
    requires merged == NO_CONTENTS.Plus(RoutesTo(routes, key.bindings.routeIDs + RouteIDsTo(groups, |groups|),
                                                 |key.bindings.routeIDs + RouteIDsTo(groups, |groups|)|))
    ensures ContentsOf(EMPTY_RULE) == NO_CONTENTS
    ensures var own := GrantContents(routes, OwnGrant(key));
            var t := Total(GrantsOfGroups(routes, groups) + [own]);
            && merged.Plus(RulesTo(groups, |groups|)).Plus(ContentsOf(key.bindings.rule)) == t
            && own.deniedModels <= t.deniedModels && own.deniedIds <= t.deniedIds && own.deniedProviders <= t.deniedProviders
  {
    hide ContentsOf, RouteContents, Contents.Plus, RoutesTo, RulesTo, GrantsOfGroups;
    var own := GrantContents(routes, OwnGrant(key));
    var a, b := key.bindings.routeIDs, RouteIDsTo(groups, |groups|);
    EmptyRuleContents();
    RoutesAppend(routes, a, b, |b|);
    PlusNothing(RoutesTo(routes, a + b, |a + b|));
    GrantsAddUp(routes, groups, |groups|);
    var grants := GrantsOfGroups(routes, groups);
    TotalPrefix(grants, [own], |grants|);
    Rearrange(RoutesTo(routes, a, |a|), RoutesTo(routes, b, |b|), RulesTo(groups, |groups|), ContentsOf(key.bindings.rule));
    PlusGrows(TotalTo(grants, |grants|), own);
  }

  lemma Rearrange(ownRoutes: Contents, groupRoutes: Contents, groupRules: Contents, ownRule: Contents)
    ensures ownRoutes.Plus(groupRoutes).Plus(groupRules).Plus(ownRule) ==
            groupRoutes.Plus(groupRules).Plus(ownRule.Plus(ownRoutes))
  {
  }

  lemma PlusGrows(a: Contents, b: Contents)
    ensures b.deniedModels <= a.Plus(b).deniedModels && b.deniedIds <= a.Plus(b).deniedIds
    ensures b.deniedProviders <= a.Plus(b).deniedProviders
  {
  }

  // ----- What the decision means ------------------------------------------------------

  lemma DecidesModels(d: Decision, s: Standing, model: string)
    requires Faithful(d, s)
    ensures d.For(model).AllowsModel() <==> ModelPermitted(s, model)
  {
    hide Contains, Has, SetOf, Opens, OpenId, OpenProvider, Total, NothingInCommon, WithinOwnModels;
    ContainsNothing();
  }

  lemma DecidesCredentials(d: Decision, s: Standing, model: string, ref: string, source: string, provider: string)
    requires Faithful(d, s)
    ensures d.For(model).AllowsCredential(ref, source, provider) <==> CredentialPermitted(s, model, ref, source, provider)
  {
    hide Contains, Has, Opens, OpenId, OpenProvider, NothingInCommon, WithinOwnModels, Described, Represents, RuleAllows;
    if s.Managed? && !NothingInCommon(s) {
      NarrowedGrants(d, s, model);
      var n := d.For(model);
      OwnAllows(d, s, ref, source, provider);
      AllowsAsMeant(n.rule, d.requireAllowlist, s, model, ref, source, provider);
    } else {
      RefusalDecides(d, s, model, ref, source, provider);
    }
  }

  lemma RefusalDecides(d: Decision, s: Standing, model: string, ref: string, source: string, provider: string)
    requires Faithful(d, s) && !(s.Managed? && !NothingInCommon(s))
    ensures d.For(model).AllowsCredential(ref, source, provider) <==> CredentialPermitted(s, model, ref, source, provider)
  {
    hide Has, Opens, NothingInCommon, Described, Represents;
  }

  /** The allow lists after narrowing give exactly the credentials the standing grants for the model. */
  ghost predicate GivesCredentials(rule: RouteRule, s: Standing, model: string)
    requires s.Managed?
  {
    var t := Total(s.grants);
    if OnlyOpen(s, model) then
      && (rule.ids != [] || rule.providers != [])
      && (forall v :: Contains(rule.ids, v) <==> OpenId(s.grants, v))
      && (forall p :: p in rule.providers <==> OpenProvider(s.grants, p))
    else
      Lists(rule.ids, t.ids) && SetOf(rule.providers) == t.providers
  }

  ghost predicate DeniesCredentials(rule: RouteRule, s: Standing)
    requires s.Managed?
  {
    var t := Total(s.grants);
    && Lists(rule.deniedIds, t.deniedIds + s.own.deniedIds)
    && SetOf(rule.deniedProviders) == t.deniedProviders + s.own.deniedProviders
  }

  lemma NarrowedGrants(d: Decision, s: Standing, model: string)
    requires s.Managed? && Represents(d, s)
    ensures GivesCredentials(d.For(model).rule, s, model) && DeniesCredentials(d.For(model).rule, s)
    ensures var n := d.For(model);
            n.requireAllowlist == d.requireAllowlist == s.requireAllowlist && n.constraint == d.constraint && !n.Refuses()
  {
    hide Contains, Has, SetOf, Opens, OpenId, OpenProvider, Total, WithinOwnModels;
  }

  /** The required allowlist adds nothing to the denials: they are already among the decision's. */
  lemma OwnAllows(d: Decision, s: Standing, ref: string, source: string, provider: string)
    requires s.Managed? && Represents(d, s)
    ensures d.constraint.Some? <==> s.constrained
    ensures d.constraint.Some? && !Denied(s, ref, Described(source, provider)) ==>
              (RuleAllows(d.constraint.value, true, ref, source, provider) <==>
               Has(s.own.ids, ref) || Described(source, provider) in s.own.providers)
  {
    hide Contains, Has, Total, SetOf, MayMatch, Described, Opens, OpenMatches, ModelsMatch, Lists;
    if d.constraint.Some? {
      var c := d.constraint.value;
      ContainsElements(c.ids);
      ContainsElements(c.deniedIds);
      HasMore(s.own.deniedIds, Total(s.grants).deniedIds + s.own.deniedIds, ref);
      forall i | 0 <= i < |c.deniedProviders|
        ensures c.deniedProviders[i] in s.own.deniedProviders
      {
        assert c.deniedProviders[i] in SetOf(c.deniedProviders);
      }
      assert Described(source, provider) in c.providers <==> Described(source, provider) in SetOf(c.providers);
    }
  }

  lemma HasMore(a: set<string>, b: set<string>, v: string)
    requires a <= b
    ensures Has(a, v) ==> Has(b, v)
  {
  }

  lemma AllowsAsMeant(rule: RouteRule, require: bool, s: Standing, model: string, ref: string, source: string, provider: string)
    requires s.Managed? && require == s.requireAllowlist && GivesCredentials(rule, s, model)
    requires Contains(rule.deniedIds, ref) ||
             (exists i :: 0 <= i < |rule.deniedProviders| && MayMatch(Described(source, provider), rule.deniedProviders[i])) <==>
             Denied(s, ref, Described(source, provider))
    ensures RuleAllows(rule, require, ref, source, provider) <==>
            !Denied(s, ref, Described(source, provider)) && Granted(s, model, ref, Described(source, provider))
  {
    hide Contains, Has, Total, SetOf, MayMatch, Described, Denied, OnlyOpen, OpenId, OpenProvider;
    assert Described(source, provider) in rule.providers <==> Described(source, provider) in SetOf(rule.providers);
  }

  /**
    ResolveRouting: for every key and model the resulting decision admits exactly the models
    and credentials the key's standing permits.
   */
  method ResolveRouting<K>(state: State<K>, key: Option<Key>, model: string) returns (d: Decision)
    ensures d.AllowsModel() <==> ModelPermitted(StandingOf(state, key), model)
    ensures forall ref, source, provider :: d.AllowsCredential(ref, source, provider) <==>
                                            CredentialPermitted(StandingOf(state, key), model, ref, source, provider)
    ensures d.configurationError.Some? <==> StandingOf(state, key).Broken?
    ensures d.accessDenied.Some? <==>
              var s := StandingOf(state, key); s.Refused? || (s.Managed? && NothingInCommon(s))
  {
    hide StandingOf, ModelPermitted, CredentialPermitted, NothingInCommon, Represents, Decision.AllowsModel, Decision.AllowsCredential;
    var wide := ResolveRoutingState(state, key);
    d := wide.For(model);
    DecidesModels(wide, StandingOf(state, key), model);
    forall ref, source, provider
      ensures d.AllowsCredential(ref, source, provider) <==>
              CredentialPermitted(StandingOf(state, key), model, ref, source, provider)
    {
      DecidesCredentials(wide, StandingOf(state, key), model, ref, source, provider);
    }
  }
}
