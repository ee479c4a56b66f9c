/**
  What the management edits of internal/billing/plan.go, keys.go, routing.go and
  access_control.go accept and what they do to each record, said field by field.
 */
module EditMeaning {
  import opened Text
  import opened Model
  import opened Routing
  import opened AccessRules
  import opened QuotaCycles
  import opened QuotaScopes
  import opened Plans
  import opened PlanBindings
  import opened RuleMeaning
  import A = AccessEdits
  import K = KeyLists
  import R = RouteEdits

  // ----- Naming keys ------------------------------------------------------------------

  /** One of the entries names the key, up to case and surrounding blanks. */
  ghost predicate Named(scopes: seq<string>, scope: string) {
    scope != "" && exists i :: 0 <= i < |scopes| && Lower(Trim(scopes[i])) == scope
  }

  lemma {:induction false} NormalizeScopesMeans(scopes: seq<string>, scope: string)
    ensures scope in NormalizeScopes(scopes) <==> Named(scopes, scope)
  {
    hide Trim, Lower;
    if scopes != [] {
      var n := |scopes| - 1;
      NormalizeScopesMeans(scopes[..n], scope);
      assert forall i :: 0 <= i < n ==> scopes[..n][i] == scopes[i];
      if Named(scopes, scope) && !Named(scopes[..n], scope) {
        assert Lower(Trim(scopes[n])) == scope;
      }
    }
  }

  // ----- Plans ------------------------------------------------------------------------

  const DAYS_TO_10000: int := 2_932_897

  /**
    What a window must be: named in 1 to 128 characters; with at least one limit, none
    negative and the counts below 2^53; of a period of at least a second and at most 2^63
    nanoseconds; and, if it is anchored, at a whole second from 1970 to the year 9999.
   */
  predicate Sellable(w: Window) {
    && w.id != "" && !Spaces(w.name) && |Trim(w.name)| <= 128
    && w.amount >= 0.0 && w.tokenLimit >= 0 && w.requestLimit >= 0
    && w.tokenLimit < 9_007_199_254_740_992 && w.requestLimit < 9_007_199_254_740_992
    && (w.amount > 0.0 || w.tokenLimit > 0 || w.requestLimit > 0)
    && 1 <= w.period && w.period * 1_000_000_000 < 9_223_372_036_854_775_808
    && NormalizeScope(w.scope).Ok?
    && (w.anchor != ZERO_TIME ==>
          0 <= w.anchor < DAYS_TO_10000 * 24 * 60 * 60 * 1_000_000_000 && w.anchor % 1_000_000_000 == 0)
  }

  lemma WindowMeans(w: Window)
    ensures ValidWindow(w) <==> Sellable(w)
  {
    hide Trim, NormalizeScope;
    BlankTrimsAway(w.name);
    PeriodFits(w.period);
  }

  lemma PeriodFits(period: int)
    ensures period <= MAX_PERIOD <==> period * 1_000_000_000 < 9_223_372_036_854_775_808
  {
  }

  /** Two windows with the same entries in their scopes, normalized: they select the same requests. */
  ghost predicate SameScope(a: QuotaScope, b: QuotaScope) {
    && (forall x :: x in QuotaScopes.Names(a.models) <==> x in QuotaScopes.Names(b.models))
    && (forall x :: x in QuotaScopes.Names(a.providers) <==> x in QuotaScopes.Names(b.providers))
  }

  /**
    A plan is valid exactly when it has an ID and windows, all of them sellable and of one
    cycle mode, and no two share ID, name in any case, or both period and scope.
   */
  lemma PlanMeans(plan: Plan)
    ensures ValidPlan(plan) <==>
            && !Spaces(plan.id) && plan.windows != []
            && (forall i :: 0 <= i < |plan.windows| ==> Sellable(plan.windows[i]))
            && (forall i, j :: 0 <= i < |plan.windows| && 0 <= j < |plan.windows| ==>
                  (plan.windows[i].anchor == ZERO_TIME <==> plan.windows[j].anchor == ZERO_TIME))
            && forall i, j :: 0 <= i < j < |plan.windows| ==> Distinguished(plan.windows[i], plan.windows[j])
  {
    hide Trim, Lower, ValidWindow, Sellable, SameScope, Apart, Distinguished;
    BlankTrimsAway(plan.id);
    var w := plan.windows;
    forall i | 0 <= i < |w|
      ensures ValidWindow(w[i]) <==> Sellable(w[i])
    {
      WindowMeans(w[i]);
    }
    if forall i :: 0 <= i < |w| ==> Sellable(w[i]) {
      forall i, j | 0 <= i < j < |w|
        ensures Apart(w[i], w[j]) <==> Distinguished(w[i], w[j])
      {
        ApartMeans(w[i], w[j]);
      }
    }
  }

  ghost predicate Distinguished(a: Window, b: Window) {
    && a.id != b.id && Lower(Trim(a.name)) != Lower(Trim(b.name))
    && (a.period == b.period ==> !SameScope(a.scope, b.scope))
  }

  lemma ApartMeans(a: Window, b: Window)
    requires Sellable(a) && Sellable(b)
    ensures Apart(a, b) <==> Distinguished(a, b)
  {
    hide Trim, Lower, NameSet, GoodModelName, KnownFamily;
    NameSetCanonical(a.scope.models, b.scope.models);
    NameSetCanonical(a.scope.providers, b.scope.providers);
  }

  /** The window an edit continues, with the schedule it had. */
  predicate OnItsSchedule(w: Window, existing: seq<Window>) {
    WindowOf(existing, w.id).Some? && SameSchedule(w, WindowOf(existing, w.id).value)
  }

  /**
    An edited window can be prepared exactly when its scope is accepted, it is new or the plan
    still has it, and, if it is anchored on another schedule than it had, its first cycle starts
    after now and within one period. It then changes in ID, if new, in how name and scope are
    written, and in an anchor of the schedule it had, which is kept.
   */
  lemma PrepareMeans(w: Window, existing: seq<Window>, now: Time, generated: string)
    ensures var r := PrepareOne(w, existing, now, generated);
            && (r.Ok? <==>
                  && NormalizeScope(w.scope).Ok?
                  && (w.id == "" || exists o :: o in existing && o.id == w.id)
                  && (w.anchor == ZERO_TIME || OnItsSchedule(w, existing) ||
                      (1 <= w.period && w.period * 1_000_000_000 < 9_223_372_036_854_775_808 && now < w.anchor <= now + w.period * 1_000_000_000)))
            && (r.Ok? ==>
                  r.value == w.(id := if w.id == "" then generated else w.id, name := Trim(w.name), scope := NormalizeScope(w.scope).value,
                                anchor := if w.anchor != ZERO_TIME && OnItsSchedule(w, existing) then WindowOf(existing, w.id).value.anchor else w.anchor))
  {
    hide Trim, NormalizeScope, SameSchedule, WindowOf;
    PeriodFits(w.period);
    if o :| o in existing && o.id == w.id {
      var k :| 0 <= k < |existing| && existing[k] == o;
      assert existing[k].id == w.id;
    }
  }

  /** A plan is created exactly when it prepares to a valid one under an ID not taken, for keys that are live and unbound. */
  lemma CreationMeans(s: Snapshot, plan: Plan, scopes: seq<string>, generated: string, now: Time, freshIDs: seq<string>)
    requires |plan.windows| <= |freshIDs|
    ensures var r, windows := PlanCreation(s, plan, scopes, generated, now, freshIDs), PreparedTo(plan.windows, [], now, freshIDs, |plan.windows|);
            var id := Trim(if Spaces(plan.id) then generated else plan.id);
            && (r.Ok? <==>
                  && windows.Ok? && ValidPlan(Plan(id, "", windows.value))
                  && (forall i :: 0 <= i < |s.plans| ==> s.plans[i].id != id)
                  && forall scope :: Named(scopes, scope) ==> LiveKey(s, scope) && s.keys[scope].planID == "")
            && (r.Ok? ==> r.value == Plan(id, if Spaces(plan.name) then id else Trim(plan.name), windows.value))
  {
    hide Trim, Lower, PreparedTo, ValidWindows, NormalizeScopes, Spaces;
    BlankTrimsAway(plan.id);
    BlankTrimsAway(plan.name);
    BindableMeans(s, scopes);
  }

  lemma BindableMeans(s: Snapshot, scopes: seq<string>)
    ensures Bindable(s.keys, NormalizeScopes(scopes)) <==> forall scope :: Named(scopes, scope) ==> LiveKey(s, scope) && s.keys[scope].planID == ""
  {
    hide Named, NormalizeScopes;
    var names := NormalizeScopes(scopes);
    forall scope
      ensures scope in names <==> Named(scopes, scope)
    {
      NormalizeScopesMeans(scopes, scope);
    }
    assert forall i :: 0 <= i < |names| ==> names[i] in names;
    if Bindable(s.keys, names) {
      forall scope | Named(scopes, scope)
        ensures LiveKey(s, scope) && s.keys[scope].planID == ""
      {
        assert scope in names;
        var i :| 0 <= i < |names| && names[i] == scope;
      }
    }
  }

  /** An update may select keys that are live or on the plan already, and on no other plan. */
  lemma SelectableMeans(s: Snapshot, planID: string, scopes: seq<string>)
    ensures Selectable(s.keys, planID, NormalizeScopes(scopes)) <==>
            forall scope :: Named(scopes, scope) ==>
                              && scope in s.keys
                              && (s.keys[scope].planID == planID || (s.keys[scope].planID == "" && LiveKey(s, scope)))
  {
    hide Named, NormalizeScopes;
    var names := NormalizeScopes(scopes);
    forall scope
      ensures scope in names <==> Named(scopes, scope)
    {
      NormalizeScopesMeans(scopes, scope);
    }
    assert forall i :: 0 <= i < |names| ==> names[i] in names;
    if Selectable(s.keys, planID, names) {
      forall scope | Named(scopes, scope)
        ensures scope in s.keys && (s.keys[scope].planID == planID || (s.keys[scope].planID == "" && LiveKey(s, scope)))
      {
        assert scope in names;
        var i :| 0 <= i < |names| && names[i] == scope;
      }
    }
  }

  /** What becomes of a plan's name and windows: absent parts stay, and the whole has to be valid. */
  lemma EditedMeans(plan: Plan, name: Option<string>, windows: Option<seq<Window>>, now: Time, freshIDs: seq<string>)
    requires windows.Some? ==> |windows.value| <= |freshIDs|
    ensures var r := EditedPlan(plan, name, windows, now, freshIDs);
            var prepared := if windows.Some? then PreparedTo(windows.value, plan.windows, now, freshIDs, |windows.value|) else Ok(plan.windows);
            && (r.Ok? <==> prepared.Ok? && ValidPlan(plan.(windows := prepared.value)))
            && (r.Ok? ==> r.value == Plan(plan.id, if name.Some? then Trim(name.value) else plan.name, prepared.value))
  {
    hide PreparedTo, ValidWindows, Trim;
  }

  /** A plan is updated exactly when it exists, its edited form is valid, and every key selected is free or on it. */
  lemma UpdateMeans(s: Snapshot, id: string, name: Option<string>, windows: Option<seq<Window>>, scopes: Option<seq<string>>,
                    now: Time, freshIDs: seq<string>)
    requires windows.Some? ==> |windows.value| <= |freshIDs|
    ensures var r, i := PlanUpdate(s, id, name, windows, scopes, now, freshIDs), PlanIndex(s.plans, Trim(id));
            && (r.Ok? <==>
                  && !Spaces(id) && i.Some? && EditedPlan(s.plans[i.value], name, windows, now, freshIDs).Ok?
                  && (scopes.Some? ==> Selectable(s.keys, Trim(id), NormalizeScopes(scopes.value))))
            && (r.Ok? ==> r.value == (i.value, EditedPlan(s.plans[i.value], name, windows, now, freshIDs).value))
            && (i.Some? <==> exists p :: p in s.plans && p.id == Trim(id))
            && (Selection(scopes).Some? <==> scopes.Some?)
            && (scopes.Some? ==> forall x :: x in Selection(scopes).value <==> Named(scopes.value, x))
  {
    hide Trim, EditedPlan, Selectable, NormalizeScopes, Spaces, Named;
    BlankTrimsAway(id);
    if scopes.Some? {
      forall x
        ensures x in NormalizeScopes(scopes.value) <==> Named(scopes.value, x)
      {
        NormalizeScopesMeans(scopes.value, x);
      }
    }
    if p :| p in s.plans && p.id == Trim(id) {
      var k :| 0 <= k < |s.plans| && s.plans[k] == p;
    }
  }

  /** The other records of the working set are left alone. */
  predicate OnlyPlansAndKeys(was: Snapshot, now: Snapshot) {
    now.keys.Keys == was.keys.Keys && now.routes == was.routes && now.groups == was.groups && now.access == was.access && now.credentials == was.credentials
  }

  /** Creating or deleting a plan: its keys are bound to it, or to nothing, and have no cycles; every other key is as it was. */
  lemma PlanAppearsAndGoes(s: Snapshot, plan: Plan, bound: set<string>, i: nat, scope: string)
    requires scope in s.keys && i < |s.plans|
    ensures var made, was := PlanCreated(s, plan, bound), s.keys[scope];
            && OnlyPlansAndKeys(s, made) && made.plans == s.plans + [plan]
            && made.keys[scope] == if scope in bound then was.(planID := plan.id, cycles := map[]) else was
    ensures var gone, was := PlanDeleted(s, i), s.keys[scope];
            && OnlyPlansAndKeys(s, gone) && gone.plans == s.plans[..i] + s.plans[i + 1..]
            && gone.keys[scope] == if was.planID == s.plans[i].id then was.(planID := "", cycles := map[]) else was
  {
  }

  /**
    Updating a plan. A key on it stays, losing exactly the cycles of windows that start over,
    unless keys are selected and it is not among them; a selected key without a plan gets it;
    every other key is as it was.
   */
  lemma PlanUpdateReaches(s: Snapshot, i: nat, updated: Plan, reset: set<string>, selected: Option<set<string>>, scope: string)
    requires scope in s.keys && i < |s.plans| && updated.id != ""
    ensures var next, was := PlanUpdated(s, i, updated, reset, selected), s.keys[scope];
            var now := next.keys[scope];
            && OnlyPlansAndKeys(s, next) && next.plans == s.plans[i := updated]
            && (was.planID == updated.id && (selected.None? || scope in selected.value) ==>
                  && now == was.(cycles := now.cycles) && now.cycles.Keys == was.cycles.Keys - reset
                  && forall id :: id in now.cycles ==> now.cycles[id] == was.cycles[id])
            && (was.planID == updated.id && selected.Some? && scope !in selected.value ==> now == was.(planID := "", cycles := map[]))
            && (was.planID == "" && selected.Some? && scope in selected.value ==> now == was.(planID := updated.id, cycles := map[]))
            && (was.planID != updated.id && (was.planID != "" || selected.None? || scope !in selected.value) ==> now == was)
  {
  }

  /** A window goes on exactly when the plan still has one of its ID with the same schedule and scope. */
  lemma ResetMeans(before: seq<Window>, after: seq<Window>, id: string)
    ensures id in ResetWindows(before, after) <==>
            exists o :: o in before && o.id == id &&
                        !exists w :: w in after && w.id == id && SameSchedule(w, o) && Identity(w.scope) == Identity(o.scope)
  {
    hide SameSchedule, Identity;
    forall o | o in before
      ensures Continued(o, after) <==> exists w :: w in after && w.id == o.id && SameSchedule(w, o) && Identity(w.scope) == Identity(o.scope)
    {
      if w :| w in after && w.id == o.id && SameSchedule(w, o) && Identity(w.scope) == Identity(o.scope) {
        var k :| 0 <= k < |after| && after[k] == w;
        assert Continues(o, after[k]);
      }
      if Continued(o, after) {
        var k :| 0 <= k < |after| && Continues(o, after[k]);
        assert after[k] in after;
      }
    }
  }

  /** A reset takes the cycles of all live keys with a plan, or of those named, who must all be such keys, and nothing else of any key. */
  lemma ResetReaches(s: Snapshot, everyone: bool, scopes: seq<string>, scope: string)
    ensures var targets := ResetTargets(s, everyone, scopes);
            && (scope in targets <==>
                  if everyone then scope in s.keys && s.keys[scope].deletedAt == ZERO_TIME && s.keys[scope].planID != "" else Named(scopes, scope))
            && (Resettable(s, targets) ==> scope in targets ==>
                  scope in s.keys && s.keys[scope].deletedAt == ZERO_TIME && s.keys[scope].planID != "")
            && (everyone ==> Resettable(s, targets))
            && (scope in s.keys ==>
                  QuotaReset(s, targets).keys[scope] == if scope in targets then s.keys[scope].(cycles := map[]) else s.keys[scope])
  {
    hide NormalizeScopes, Named;
    NormalizeScopesMeans(scopes, scope);
  }

  /** Nothing else stands in a reset's way: it may be done as soon as every target is a live key with a plan. */
  lemma ResettableMeans(s: Snapshot, targets: set<string>)
    ensures Resettable(s, targets) <==>
            forall scope :: scope in targets ==> scope in s.keys && s.keys[scope].deletedAt == ZERO_TIME && s.keys[scope].planID != ""
  {
  }

  // ----- The host's key list ----------------------------------------------------------

  /**
    Synchronizing: a listed key is created or restored under its preview; one that was listed
    and is no longer is marked deleted; plan, cycles, limit and bindings stay what they were,
    or empty for a new key.
   */
  lemma SyncMeans(keys: map<string, Key>, listed: map<string, string>, now: Time, scope: string)
    requires scope in keys || scope in listed
    ensures var t := K.SyncedKey(keys, listed, now, scope);
            && (scope in listed ==> t.preview == listed[scope] && t.listed && t.deletedAt == ZERO_TIME)
            && (scope !in listed ==> t.preview == keys[scope].preview && !t.listed)
            && (scope !in listed ==> t.deletedAt == if keys[scope].listed then now else keys[scope].deletedAt)
            && (scope in keys ==> t == keys[scope].(preview := t.preview, listed := t.listed, deletedAt := t.deletedAt))
            && (scope !in keys ==> t.planID == "" && t.cycles == map[] && t.concurrencyLimit == 0 && t.groupIDs == [] && t.bindings.routeIDs == [] && !t.bindings.configured)
  {
  }

  // ----- Routes and groups ------------------------------------------------------------

  /** Everything but routes, groups and the keys' bindings to them is left alone. */
  predicate OnlyBindings(was: Snapshot, now: Snapshot) {
    now.keys.Keys == was.keys.Keys && now.plans == was.plans && now.access == was.access && now.credentials == was.credentials
  }

  /** The key is as it was, but for the routes it binds: these with id added or taken out. */
  ghost predicate Rerouted(was: Key, now: Key, id: string, bound: bool) {
    && now == was.(bindings := was.bindings.(routeIDs := now.bindings.routeIDs))
    && (forall x :: x != id ==> (x in now.bindings.routeIDs <==> x in was.bindings.routeIDs))
    && (id in now.bindings.routeIDs <==> bound)
  }

  ghost predicate Regrouped(was: Key, now: Key, id: string, bound: bool) {
    && now == was.(groupIDs := now.groupIDs)
    && (forall x :: x != id ==> (x in now.groupIDs <==> x in was.groupIDs))
    && (id in now.groupIDs <==> bound)
  }

  /** A created route is bound to the keys named; an updated one to exactly the keys selected, if any are; a deleted one to none. */
  lemma RouteReaches(s: Snapshot, route: Route, bound: set<string>, i: nat, selected: Option<set<string>>, scope: string)
    requires scope in s.keys && i < |s.routes|
    ensures var made, was := R.RouteCreated(s, route, bound), s.keys[scope];
            && OnlyBindings(s, made) && made.routes == s.routes + [route] && made.groups == s.groups
            && Rerouted(was, made.keys[scope], route.id, scope in bound || route.id in was.bindings.routeIDs)
    ensures var next, was := R.RouteUpdated(s, i, route, selected), s.keys[scope];
            && OnlyBindings(s, next) && next.routes == s.routes[i := route] && next.groups == s.groups
            && Rerouted(was, next.keys[scope], route.id, if selected.Some? then scope in selected.value else route.id in was.bindings.routeIDs)
    ensures var gone, was := R.RouteDeleted(s, i), s.keys[scope];
            && OnlyBindings(s, gone) && gone.routes == s.routes[..i] + s.routes[i + 1..] && gone.groups == s.groups
            && Rerouted(was, gone.keys[scope], s.routes[i].id, false)
  {
  }

  /** Groups likewise. */
  lemma GroupReaches(s: Snapshot, group: Group, bound: set<string>, i: nat, selected: Option<set<string>>, scope: string)
    requires scope in s.keys && i < |s.groups|
    ensures var made, was := A.GroupCreated(s, group, bound), s.keys[scope];
            && OnlyBindings(s, made) && made.groups == s.groups + [group] && made.routes == s.routes
            && Regrouped(was, made.keys[scope], group.id, scope in bound || group.id in was.groupIDs)
    ensures var next, was := A.GroupUpdated(s, i, group, selected), s.keys[scope];
            && OnlyBindings(s, next) && next.groups == s.groups[i := group] && next.routes == s.routes
            && Regrouped(was, next.keys[scope], group.id, if selected.Some? then scope in selected.value else group.id in was.groupIDs)
    ensures var gone, was := A.GroupDeleted(s, i), s.keys[scope];
            && OnlyBindings(s, gone) && gone.groups == s.groups[..i] + s.groups[i + 1..] && gone.routes == s.routes
            && Regrouped(was, gone.keys[scope], s.groups[i].id, false)
  {
  }

  /** Setting a key's own routes and rule, or the groups of several keys, changes exactly that. */
  lemma SettingReaches(s: Snapshot, name: string, bindings: Bindings, ids: seq<string>, bound: set<string>, scope: string)
    requires scope in s.keys
    ensures var next := R.KeyRouted(s, name, bindings);
            && OnlyBindings(s, next) && next.routes == s.routes && next.groups == s.groups
            && next.keys[scope] == if scope == name then s.keys[scope].(bindings := bindings) else s.keys[scope]
    ensures var next := A.KeysGrouped(s, ids, bound);
            && OnlyBindings(s, next) && next.routes == s.routes && next.groups == s.groups
            && next.keys[scope] == if scope in bound then s.keys[scope].(groupIDs := ids) else s.keys[scope]
  {
  }

  /** What a route or a group must be: an ID of its own, a name of 1 to 128 characters and a rule that can be entered. */
  lemma StoredAs(route: Route, group: Group)
    ensures A.NormalizedRoute(route).Ok? <==>
            !Spaces(route.id) && !Spaces(route.name) && |Trim(route.name)| <= 128 && NormalizedRule(route.rule).Ok?
    ensures A.NormalizedRoute(route).Ok? ==>
              A.NormalizedRoute(route).value == Route(Trim(route.id), Trim(route.name), NormalizedRule(route.rule).value)
    ensures A.NormalizedGroup(group).Ok? <==>
            && Enterable(group.id) && !Spaces(group.name) && |Trim(group.name)| <= 128
            && Trim(group.mode) in ["", "ordinary", "exclusive", "common"]
            && (forall i :: 0 <= i < |group.routeIDs| ==> Enterable(group.routeIDs[i])) && NormalizedRule(group.rule).Ok?
    ensures A.NormalizedGroup(group).Ok? ==>
              A.NormalizedGroup(group).value ==
              Group(Trim(group.id), Trim(group.name), group.disabled, if Spaces(group.mode) then "ordinary" else Trim(group.mode),
                    AccessRules.Names(group.routeIDs).value, NormalizedRule(group.rule).value)
  {
    hide Trim, NormalizedRule, NamesTo, Spaces;
    BlankTrimsAway(route.id);
    BlankTrimsAway(route.name);
    BlankTrimsAway(group.name);
    BlankTrimsAway(group.mode);
    EnteredNames(group.routeIDs);
    var modes := ["", "ordinary", "exclusive", "common"];
    assert modes[0] == "" && modes[1] == "ordinary" && modes[2] == "exclusive" && modes[3] == "common";
  }

  ghost predicate IsRoute(routes: seq<Route>, id: string) {
    exists route :: route in routes && route.id == id
  }

  ghost predicate IsGroup(groups: seq<Group>, id: string) {
    exists group :: group in groups && group.id == id
  }

  /** All of the list are IDs of stored routes. */
  ghost predicate Stored(routes: seq<Route>, ids: seq<string>) {
    forall i :: 0 <= i < |ids| ==> IsRoute(routes, Trim(ids[i]))
  }

  lemma StoredMeans(routes: seq<Route>, ids: seq<string>)
    ensures RoutesExist(routes, ids) <==> Stored(routes, ids)
  {
    hide Trim, FindRoute, IsRoute;
    forall i | 0 <= i < |ids|
      ensures FindRoute(routes, ids[i]).Some? <==> IsRoute(routes, Trim(ids[i]))
    {
      FoundIsRoute(routes, ids[i]);
    }
  }

  lemma FoundIsRoute(routes: seq<Route>, id: string)
    ensures FindRoute(routes, id).Some? <==> IsRoute(routes, Trim(id))
  {
    hide Trim, FindRoute;
    if FindRoute(routes, id).Some? { assert FindRoute(routes, id).value in routes; }
  }

  lemma FoundIsGroup(groups: seq<Group>, id: string)
    ensures FindGroup(groups, id).Some? <==> IsGroup(groups, id)
  {
    hide FindGroup;
    if FindGroup(groups, id).Some? { assert FindGroup(groups, id).value in groups; }
  }

  /** Every key named, in its normalized form, exists and is not deleted. */
  ghost predicate LiveKeys(s: Snapshot, names: seq<string>) {
    forall name :: name in names ==> name in s.keys && s.keys[name].deletedAt == ZERO_TIME
  }

  lemma LiveKeysMean(s: Snapshot, names: seq<string>)
    ensures A.AllLive(s, names) <==> LiveKeys(s, names)
  {
    if A.AllLive(s, names) {
      forall name | name in names
        ensures name in s.keys && s.keys[name].deletedAt == ZERO_TIME
      {
        var i :| 0 <= i < |names| && names[i] == name;
        assert LiveKey(s, names[i]);
      }
    }
    assert forall i :: 0 <= i < |names| ==> names[i] in names;
  }

  /**
    A group is created exactly when it can be stored under an ID not taken, its routes exist,
    and every key named is live and can hold it beside the groups it has.
   */
  lemma GroupCreationMeans(s: Snapshot, group: Group, names: seq<string>, generated: string)
    ensures var r, made := A.GroupCreation(s, group, names, generated), A.NormalizedGroup(if Spaces(group.id) then group.(id := generated) else group);
            && (r.Ok? <==>
                  && made.Ok? && (forall g :: g in s.groups ==> g.id != made.value.id) && Stored(s.routes, made.value.routeIDs) && LiveKeys(s, names)
                  && forall name :: name in names && name in s.keys ==>
                                      EffectiveGroups(s.groups + [made.value], s.keys[name].groupIDs + [made.value.id]).Ok?)
            && (r.Ok? ==> r == made)
  {
    hide Trim, A.NormalizedGroup, EffectiveGroups, Spaces, RoutesExist, Stored, A.AllLive, LiveKeys;
    BlankTrimsAway(group.id);
    LiveKeysMean(s, names);
    var made := A.NormalizedGroup(if Spaces(group.id) then group.(id := generated) else group);
    if made.Ok? { StoredMeans(s.routes, made.value.routeIDs); }
  }

  /** What an update names replaces what is stored; everything else of the group stays. */
  lemma PatchMeans(group: Group, patch: A.GroupPatch)
    ensures var t := A.Patched(group, patch);
            && t.id == group.id
            && (patch.name.Some? ==> t.name == patch.name.value) && (patch.name.None? ==> t.name == group.name)
            && (patch.disabled.Some? ==> t.disabled == patch.disabled.value) && (patch.disabled.None? ==> t.disabled == group.disabled)
            && (patch.mode.Some? ==> t.mode == patch.mode.value) && (patch.mode.None? ==> t.mode == group.mode)
            && (patch.routeIDs.Some? ==> t.routeIDs == patch.routeIDs.value) && (patch.routeIDs.None? ==> t.routeIDs == group.routeIDs)
            && (patch.rule.Some? ==> t.rule == patch.rule.value) && (patch.rule.None? ==> t.rule == group.rule)
  {
  }

  /** The keys an edit selects, if any: those named. */
  lemma SelectedMeans(scopes: Option<seq<string>>)
    ensures A.Selected(scopes).Some? <==> scopes.Some?
    ensures scopes.Some? ==> forall x :: x in A.Selected(scopes).value <==> Named(scopes.value, x)
  {
    hide Named, NormalizeScopes;
    if scopes.Some? {
      forall x
        ensures x in NormalizeScopes(scopes.value) <==> Named(scopes.value, x)
      {
        NormalizeScopesMeans(scopes.value, x);
      }
    }
  }

  /**
    A group is updated exactly when it exists and its patched form can be stored, its routes
    exist, every key selected is live or had it before, and every key that will hold it can.
   */
  lemma GroupUpdateMeans(s: Snapshot, patch: A.GroupPatch)
    ensures var r, i := A.GroupUpdate(s, patch), A.GroupIndex(s.groups, Trim(patch.id));
            && (r.Ok? <==>
                  && i.Some? && A.NormalizedGroup(A.Patched(s.groups[i.value], patch)).Ok?
                  && var group, selected := A.NormalizedGroup(A.Patched(s.groups[i.value], patch)).value, A.Selected(patch.scopes);
                     && Stored(s.routes, group.routeIDs)
                     && (selected.Some? ==> forall scope :: scope in selected.value ==>
                           scope in s.keys && (s.keys[scope].deletedAt == ZERO_TIME || group.id in s.keys[scope].groupIDs))
                     && forall scope :: scope in s.keys && group.id in A.RegroupedKey(group.id, selected, scope, s.keys[scope]).groupIDs ==>
                          EffectiveGroups(s.groups[i.value := group], A.RegroupedKey(group.id, selected, scope, s.keys[scope]).groupIDs).Ok?)
            && (r.Ok? ==> r.value == (i.value, A.NormalizedGroup(A.Patched(s.groups[i.value], patch)).value))
  {
    hide Trim, A.NormalizedGroup, EffectiveGroups, RoutesExist, Stored, A.Selected, A.RegroupedKey, A.Patched;
    var i := A.GroupIndex(s.groups, Trim(patch.id));
    if i.Some? && A.NormalizedGroup(A.Patched(s.groups[i.value], patch)).Ok? {
      var group, selected := A.NormalizedGroup(A.Patched(s.groups[i.value], patch)).value, A.Selected(patch.scopes);
      StoredMeans(s.routes, group.routeIDs);
    }
  }

  /** The groups of several keys can be set exactly when some key is named, all of them are live, and the groups exist and go together. */
  lemma GroupingMeans(s: Snapshot, names: seq<string>, groupIDs: seq<string>)
    ensures var r, ids := A.Grouping(s, names, groupIDs), AccessRules.Names(groupIDs);
            && (r.Ok? <==>
                  && names != [] && ids.Ok? && LiveKeys(s, names)
                  && (forall i :: 0 <= i < |ids.value| ==> IsGroup(s.groups, ids.value[i]))
                  && EffectiveGroups(s.groups, ids.value).Ok?)
            && (r.Ok? ==> r == ids)
  {
    hide NamesTo, EffectiveGroups, A.AllLive, LiveKeys, FindGroup, IsGroup;
    LiveKeysMean(s, names);
    if AccessRules.Names(groupIDs).Ok? {
      var ids := AccessRules.Names(groupIDs).value;
      forall i | 0 <= i < |ids|
        ensures FindGroup(s.groups, ids[i]).Some? <==> IsGroup(s.groups, ids[i])
      {
        FoundIsGroup(s.groups, ids[i]);
      }
    }
  }

  /** A route is created exactly when it can be stored under an ID not taken and every key named is live. */
  lemma RouteCreationMeans(s: Snapshot, route: Route, names: seq<string>, generated: string)
    ensures var r, made := R.RouteCreation(s, route, names, generated), A.NormalizedRoute(if Spaces(route.id) then route.(id := generated) else route);
            && (r.Ok? <==> made.Ok? && LiveKeys(s, names) && forall other :: other in s.routes ==> other.id != made.value.id)
            && (r.Ok? ==> r == made)
  {
    hide Trim, A.NormalizedRoute, Spaces, A.AllLive, LiveKeys, FindRoute;
    BlankTrimsAway(route.id);
    LiveKeysMean(s, names);
    var made := A.NormalizedRoute(if Spaces(route.id) then route.(id := generated) else route);
    if made.Ok? { StoredIDIsTrimmed(if Spaces(route.id) then route.(id := generated) else route); }
  }

  lemma StoredIDIsTrimmed(route: Route)
    requires A.NormalizedRoute(route).Ok?
    ensures Trim(A.NormalizedRoute(route).value.id) == A.NormalizedRoute(route).value.id
  {
    hide Trim, NormalizedRule;
    TrimIdempotent(route.id);
  }

  /** A route is updated exactly when it exists, its new form can be stored, and every key selected is live or had it before. */
  lemma RouteUpdateMeans(s: Snapshot, id: string, name: Option<string>, rule: Option<RouteRule>, scopes: Option<seq<string>>)
    ensures var r, i, selected := R.RouteUpdate(s, id, name, rule, scopes), R.RouteIndex(s.routes, Trim(id)), A.Selected(scopes);
            && (r.Ok? <==>
                  && !Spaces(id) && i.Some?
                  && A.NormalizedRoute(Route(s.routes[i.value].id, if name.Some? then name.value else s.routes[i.value].name,
                                             if rule.Some? then rule.value else s.routes[i.value].rule)).Ok?
                  && (selected.Some? ==> forall scope :: scope in selected.value ==>
                        scope in s.keys && (s.keys[scope].deletedAt == ZERO_TIME || Trim(id) in s.keys[scope].bindings.routeIDs)))
            && (r.Ok? ==> r.value.0 == i.value)
  {
    hide Trim, A.NormalizedRoute, Spaces, A.Selected;
    BlankTrimsAway(id);
    TrimIdempotent(id);
    SameIndex(s.routes, id);
  }

  lemma {:induction false} SameIndex(routes: seq<Route>, id: string)
    ensures R.RouteIndex(routes, Trim(id)) == R.RouteIndex(routes, id)
  {
    TrimIdempotent(id);
    if routes != [] { SameIndex(routes[1..], id); }
  }

  /** A key's own routes and rule can be set exactly when the key is live, the list and the rule are accepted and the routes exist; the key then counts as configured. */
  lemma BindingMeans(s: Snapshot, name: string, bindings: Bindings)
    ensures var r, ids, rule := R.Binding(s, name, bindings), AccessRules.Names(bindings.routeIDs), NormalizedRule(bindings.rule);
            && (r.Ok? <==> name != "" && name in s.keys && s.keys[name].deletedAt == ZERO_TIME && ids.Ok? && rule.Ok? && Stored(s.routes, ids.value))
            && (r.Ok? ==> r.value == Bindings(ids.value, true, rule.value))
  {
    hide NamesTo, NormalizedRule, RoutesExist, Stored;
    if AccessRules.Names(bindings.routeIDs).Ok? { StoredMeans(s.routes, AccessRules.Names(bindings.routeIDs).value); }
  }
}
