/**
  What internal/billing/access_control.go and routing.go keep true of routes, groups and key
  bindings, and why resolution then never reports a configuration error.
 */
module AccessBindings {
  import opened Text
  import opened Model
  import opened Routing
  import opened CredentialMigration
  import opened AccessMeaning
  import opened AccessRules
  import opened ReplacementMeaning
  import R = Resolution

  /** What credential matching relies on: lower-case references and named categories. */
  ghost predicate SoundRule(rule: RouteRule) {
    && (forall x :: x in rule.ids || x in rule.deniedIds ==> Lower(x) == x)
    && (forall p :: p in rule.providers ==> p.source != "" && p.provider != "")
  }

  lemma NormalIsSound(rule: RouteRule)
    requires NormalRule(rule)
    ensures SoundRule(rule)
  {
    hide Lower, Trim, ValidFingerprint, Described, NormalNames, OneStateEach;
  }

  /** Bound routes are stored under trimmed IDs and exist. */
  ghost predicate RoutesBound(routes: seq<Route>, ids: seq<string>) {
    forall id :: id in ids ==> Trim(id) == id && FindRoute(routes, id).Some?
  }

  ghost predicate GoodRoute(route: Route) {
    route.id != "" && Trim(route.id) == route.id && SoundRule(route.rule)
  }

  ghost predicate GoodRoutes(routes: seq<Route>) {
    && (forall route :: route in routes ==> GoodRoute(route))
    && forall i, j :: 0 <= i < j < |routes| ==> routes[i].id != routes[j].id
  }

  ghost predicate GoodGroup(routes: seq<Route>, group: Group) {
    && group.id != "" && Trim(group.id) == group.id
    && NormalizeMode(group.mode) == Ok(group.mode)
    && RoutesBound(routes, group.routeIDs) && SoundRule(group.rule)
  }

  ghost predicate GoodGroups(routes: seq<Route>, groups: seq<Group>) {
    && (forall group :: group in groups ==> GoodGroup(routes, group))
    && forall i, j :: 0 <= i < j < |groups| ==> groups[i].id != groups[j].id
  }

  /** The key's groups exist, at most one enabled one is exclusive, and its routes exist. */
  ghost predicate GoodKey(routes: seq<Route>, groups: seq<Group>, key: Key) {
    && !Troubled(groups, key.groupIDs)
    && RoutesBound(routes, key.bindings.routeIDs) && SoundRule(key.bindings.rule)
  }

  ghost predicate WellBound(s: Snapshot) {
    && GoodRoutes(s.routes) && GoodGroups(s.routes, s.groups)
    && forall scope :: scope in s.keys ==> GoodKey(s.routes, s.groups, s.keys[scope])
  }

  lemma GoodGroupsAreNamed(routes: seq<Route>, groups: seq<Group>)
    requires GoodGroups(routes, groups)
    ensures Named(groups)
  {
  }

  // ----- Resolution never fails -------------------------------------------------------

  lemma BoundRoutesExist(routes: seq<Route>, ids: seq<string>)
    requires RoutesBound(routes, ids)
    ensures RoutesExist(routes, ids)
  {
    hide Trim, FindRoute;
    assert forall i :: 0 <= i < |ids| ==> ids[i] in ids;
  }

  /** A participating group binds existing routes, as the stored one does. */
  lemma GatheredIsGood(routes: seq<Route>, all: seq<Group>, ids: seq<string>, group: Group)
    requires GoodGroups(routes, all) && EffectiveGroups(all, ids).Ok? && group in EffectiveGroups(all, ids).value
    ensures RoutesBound(routes, group.routeIDs) && SoundRule(group.rule)
  {
    hide Trim, FindRoute, Troubled, EffectiveGroups, RoutesBound, SoundRule, NormalizeMode;
    GoodGroupsAreNamed(routes, all);
    EffectiveGroupsMean(all, ids);
    var id :| TakesPart(all, ids, id) && group == Normalized(all, id);
    assert GoodGroup(routes, FindGroup(all, id).value);
  }

  lemma GatheredRoutesExist(routes: seq<Route>, all: seq<Group>, ids: seq<string>)
    requires GoodGroups(routes, all) && EffectiveGroups(all, ids).Ok?
    ensures GroupRoutesExist(routes, EffectiveGroups(all, ids).value)
  {
    hide EffectiveGroups, RoutesBound, RoutesExist, GoodGroups, SoundRule;
    var groups := EffectiveGroups(all, ids).value;
    forall i | 0 <= i < |groups|
      ensures RoutesExist(routes, groups[i].routeIDs)
    {
      GatheredIsGood(routes, all, ids, groups[i]);
      BoundRoutesExist(routes, groups[i].routeIDs);
    }
  }

  /** In a well-bound state no key's resolution ends in a configuration error. */
  lemma NeverBroken(s: Snapshot, scope: string)
    requires WellBound(s) && scope in s.keys
    ensures !StandingOf(s, Some(s.keys[scope])).Broken?
  {
    hide EffectiveGroups, Troubled, SoundRule, RoutesBound, RoutesExist, Trim;
    var key := s.keys[scope];
    assert GoodKey(s.routes, s.groups, key);
    GoodGroupsAreNamed(s.routes, s.groups);
    EffectiveGroupsMean(s.groups, key.groupIDs);
    BoundRoutesExist(s.routes, key.bindings.routeIDs);
    GatheredRoutesExist(s.routes, s.groups, key.groupIDs);
  }

  /** Nor does one without a record, so ResolveRouting reports none at all. */
  method Resolve(s: Snapshot, scope: string, model: string) returns (d: Decision)
    requires WellBound(s)
    ensures d.configurationError.None?
    ensures var key := if scope in s.keys then Some(s.keys[scope]) else None;
            d.AllowsModel() <==> ModelPermitted(StandingOf(s, key), model)
  {
    hide StandingOf, ModelPermitted, WellBound, Decision.AllowsModel, Decision.AllowsCredential, CredentialPermitted, NothingInCommon;
    if scope in s.keys { NeverBroken(s, scope); } else { NobodyIsUnbroken(s); }
    d := R.ResolveRouting(s, if scope in s.keys then Some(s.keys[scope]) else None, model);
  }

  lemma NobodyIsUnbroken(s: Snapshot)
    ensures !StandingOf(s, None).Broken?
  {
  }

  // ----- What is stored is fit for matching -------------------------------------------

  /** The references the replacement of credentials relies on being in lower case are. */
  lemma StoredRefsAreNormalized(s: Snapshot)
    requires WellBound(s)
    ensures NormalizedRefs(s)
  {
    hide Trim, Lower, Troubled, RoutesBound;
    forall x | Uses(s, x)
      ensures Lower(x) == x
    {
      if route :| route in s.routes && RuleIds(route.rule, x) {
        assert GoodRoute(route);
      } else if group :| group in s.groups && RuleIds(group.rule, x) {
        assert GoodGroup(s.routes, group);
      } else {
        var scope :| scope in s.keys && RuleIds(s.keys[scope].bindings.rule, x);
        assert GoodKey(s.routes, s.groups, s.keys[scope]);
      }
    }
  }

  ghost predicate NamedCategories(c: Contents) {
    forall p :: p in c.providers ==> p.source != "" && p.provider != ""
  }

  lemma {:induction false} RoutesNameCategories(routes: seq<Route>, ids: seq<string>, n: nat)
    requires GoodRoutes(routes) && n <= |ids|
    ensures NamedCategories(RoutesTo(routes, ids, n))
  {
    hide Trim, Lower;
    if n > 0 {
      RoutesNameCategories(routes, ids, n - 1);
      var found := FindRoute(routes, ids[n - 1]);
      assert found.Some? ==> GoodRoute(found.value);
    }
  }

  lemma GrantNamesCategories(routes: seq<Route>, grant: Grant)
    requires GoodRoutes(routes) && SoundRule(grant.rule)
    ensures NamedCategories(GrantContents(routes, grant))
  {
    hide Trim, Lower, GoodRoutes, RoutesTo;
    RoutesNameCategories(routes, grant.routeIDs, |grant.routeIDs|);
  }

  lemma {:induction false} TotalNamesCategories(grants: seq<Contents>, n: nat)
    requires n <= |grants| && forall g :: g in grants ==> NamedCategories(g)
    ensures NamedCategories(TotalTo(grants, n))
  {
    if n > 0 {
      TotalNamesCategories(grants, n - 1);
      assert grants[n - 1] in grants;
    }
  }

  lemma GroupsNameCategories(s: Snapshot, ids: seq<string>)
    requires GoodRoutes(s.routes) && GoodGroups(s.routes, s.groups) && EffectiveGroups(s.groups, ids).Ok?
    ensures forall g :: g in GrantsOfGroups(s.routes, EffectiveGroups(s.groups, ids).value) ==> NamedCategories(g)
  {
    hide EffectiveGroups, GrantContents, NamedCategories, SoundRule, GoodRoutes, GoodGroups, RoutesBound;
    var groups := EffectiveGroups(s.groups, ids).value;
    forall i | 0 <= i < |groups|
      ensures NamedCategories(GrantContents(s.routes, GrantOf(groups[i])))
    {
      GatheredIsGood(s.routes, s.groups, ids, groups[i]);
      GrantNamesCategories(s.routes, GrantOf(groups[i]));
    }
  }

  lemma StoredCategoriesAreNamed(s: Snapshot, scope: string)
    requires WellBound(s) && scope in s.keys
    ensures Categorized(StandingOf(s, Some(s.keys[scope])))
  {
    hide Trim, Lower, Troubled, EffectiveGroups, GrantContents, GrantsOfGroups, AnyGrantsAccess, GroupRoutesExist, RoutesExist,
         HasExclusive, Constrained, SoundRule, RoutesBound, GoodRoutes, GoodGroups, TotalTo;
    var key := s.keys[scope];
    assert GoodKey(s.routes, s.groups, key);
    GrantNamesCategories(s.routes, OwnGrant(key));
    var standing := StandingOf(s, Some(key));
    if standing.Managed? {
      GroupsNameCategories(s, key.groupIDs);
      TotalNamesCategories(standing.grants, |standing.grants|);
    }
  }

  /** So, whatever was stored, hiding a candidate's source or provider never gets it accepted. */
  lemma HidingNeverHelps(s: Snapshot, scope: string, model: string, ref: string,
                         source: string, provider: string, source': string, provider': string)
    requires WellBound(s) && scope in s.keys && Erased(source, provider, source', provider')
    ensures MayUse(s, scope, model, ref, source', provider') ==> MayUse(s, scope, model, ref, source, provider)
  {
    hide StandingOf, CredentialPermitted, Categorized, WellBound, Erased;
    StoredCategoriesAreNamed(s, scope);
    ErasingNeverHelps(StandingOf(s, Some(s.keys[scope])), model, ref, source, provider, source', provider');
  }

  // ----- What leaves the bindings alone -----------------------------------------------

  /** Plan edits, quota cycles, key synchronization and access settings touch no binding. */
  ghost predicate SameBindings(s: Snapshot, t: Snapshot) {
    && t.routes == s.routes && t.groups == s.groups
    && forall scope :: scope in t.keys ==>
         if scope in s.keys then t.keys[scope].groupIDs == s.keys[scope].groupIDs && t.keys[scope].bindings == s.keys[scope].bindings
         else t.keys[scope].groupIDs == [] && t.keys[scope].bindings == CLEARED
  }

  lemma OtherEditsKeepBindings(s: Snapshot, t: Snapshot)
    requires WellBound(s) && SameBindings(s, t)
    ensures WellBound(t)
  {
    hide GoodRoutes, GoodGroups, Troubled, SoundRule, RoutesBound;
    assert !Troubled(t.groups, []) && RoutesBound(t.routes, []) && SoundRule(EMPTY_RULE) by { NothingBound(t); }
    forall scope | scope in t.keys
      ensures GoodKey(t.routes, t.groups, t.keys[scope])
    {
      if scope in s.keys { assert GoodKey(s.routes, s.groups, s.keys[scope]); }
    }
  }

  lemma NothingBound(t: Snapshot)
    ensures !Troubled(t.groups, []) && RoutesBound(t.routes, []) && SoundRule(EMPTY_RULE)
  {
  }

  // ----- Credential replacement keeps the bindings ------------------------------------

  lemma SoundRuleMoves(mapping: Mapping, complete: bool, rule: RouteRule)
    requires Acceptable(mapping) && SoundRule(rule)
    ensures SoundRule(MigratedRule(mapping, complete, rule))
  {
    hide Lower, ValidFingerprint, Migrated;
    MigratedElements(mapping, complete, rule.ids);
    MigratedElements(mapping, complete, rule.deniedIds);
    forall o | o in mapping
      ensures Lower(mapping[o]) == mapping[o]
    {
      assert GoodPair(mapping, o);
    }
  }

  lemma RoutesStayBound(mapping: Mapping, complete: bool, routes: seq<Route>, ids: seq<string>)
    requires RoutesBound(routes, ids)
    ensures RoutesBound(MigratedRoutes(mapping, complete, routes), ids)
  {
    hide Trim, MigratedRoutes, FindRoute;
    forall id | id in ids
      ensures FindRoute(MigratedRoutes(mapping, complete, routes), id).Some?
    {
    }
  }

  lemma ReplacementKeepsBindings(mapping: Mapping, complete: bool, order: seq<string>, s: Snapshot)
    requires WellBound(s) && Acceptable(mapping) && Enumerates(order, mapping)
    ensures WellBound(Replaced(mapping, complete, order, s))
  {
    hide SoundRule, RoutesBound, Troubled, Trim, MigratedRule, Acceptable, NormalizeMode, MoveAll;
    var routes, groups := MigratedRoutes(mapping, complete, s.routes), MigratedGroups(mapping, complete, s.groups);
    forall i | 0 <= i < |routes|
      ensures GoodRoute(routes[i])
    {
      assert GoodRoute(s.routes[i]);
      SoundRuleMoves(mapping, complete, s.routes[i].rule);
    }
    forall i | 0 <= i < |groups|
      ensures GoodGroup(routes, groups[i])
    {
      assert GoodGroup(s.routes, s.groups[i]);
      SoundRuleMoves(mapping, complete, s.groups[i].rule);
      RoutesStayBound(mapping, complete, s.routes, s.groups[i].routeIDs);
    }
    forall scope | scope in s.keys
      ensures GoodKey(routes, groups, MigratedKey(mapping, complete, s.keys[scope]))
    {
      var key := s.keys[scope];
      assert GoodKey(s.routes, s.groups, key);
      SoundRuleMoves(mapping, complete, key.bindings.rule);
      RoutesStayBound(mapping, complete, s.routes, key.bindings.routeIDs);
      UntroubledMoves(mapping, complete, s.routes, s.groups, key.groupIDs);
    }
  }

  lemma UntroubledMoves(mapping: Mapping, complete: bool, routes: seq<Route>, groups: seq<Group>, ids: seq<string>)
    requires GoodGroups(routes, groups) && !Troubled(groups, ids)
    ensures !Troubled(MigratedGroups(mapping, complete, groups), ids)
  {
    hide EffectiveGroups, Troubled, GoodGroup;
    var moved := MigratedGroups(mapping, complete, groups);
    assert Named(groups) && Named(moved) by { MovedAreNamed(mapping, complete, routes, groups); }
    EffectiveGroupsMean(groups, ids);
    EffectiveGroupsMean(moved, ids);
    EffectiveGroupsMove(mapping, complete, groups, ids);
  }

  lemma MovedAreNamed(mapping: Mapping, complete: bool, routes: seq<Route>, groups: seq<Group>)
    requires GoodGroups(routes, groups)
    ensures Named(groups) && Named(MigratedGroups(mapping, complete, groups))
  {
    forall g | g in MigratedGroups(mapping, complete, groups)
      ensures g.id != ""
    {
      var i :| 0 <= i < |groups| && MigratedGroups(mapping, complete, groups)[i] == g;
      assert GoodGroup(routes, groups[i]);
    }
  }
}
