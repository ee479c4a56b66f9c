/**
  Creating, updating and deleting routes and binding them to keys,
  internal/billing/routing.go.
 */
module RouteEdits {
  import opened Text
  import opened Model
  import opened ChangeSets
  import opened Routing
  import opened AccessMeaning
  import opened AccessRules
  import opened AccessBindings
  import opened AccessEdits
  import S = Stores

  // ----- Lists of routes --------------------------------------------------------------

  /** Where the route of an ID is stored. */
  function RouteIndex(routes: seq<Route>, id: string): (i: Option<nat>)
    ensures i.None? <==> FindRoute(routes, id).None?
    ensures i.Some? ==> i.value < |routes| && routes[i.value].id == Trim(id)
    ensures i.Some? ==> forall j :: 0 <= j < i.value ==> routes[j].id != Trim(id)
  {
    if routes == [] then None
    else if routes[0].id == Trim(id) then Some(0)
    else
      var rest := RouteIndex(routes[1..], id);
      if rest.None? then None else Some(rest.value + 1)
  }

  lemma FoundAmongReplaced(routes: seq<Route>, i: nat, route: Route, id: string)
    requires i < |routes| && routes[i].id == route.id
    ensures FindRoute(routes[i := route], id).Some? <==> FindRoute(routes, id).Some?
  {
    hide Trim;
    assert forall j :: 0 <= j < |routes| ==> routes[i := route][j].id == routes[j].id;
  }

  // ----- Creating a route -------------------------------------------------------------

  function RouteJoinedKey(id: string, bound: set<string>, scope: string, key: Key): Key {
    if scope in bound then WithRoutes(key, key.bindings.routeIDs + [id]) else key
  }

  ghost function RouteCreated(s: Snapshot, route: Route, bound: set<string>): Snapshot {
    BindingsEdited(s, s.routes + [route], s.groups, (scope, key) => RouteJoinedKey(route.id, bound, scope, key))
  }

  function RouteCreation(s: Snapshot, route: Route, scopes: seq<string>, generated: string): (r: Result<Route>)
    ensures r.Ok? ==> FindRoute(s.routes, r.value.id).None? && AllLive(s, scopes)
    ensures r.Ok? ==> NormalizedRoute(if Trim(route.id) == "" then route.(id := generated) else route) == r
  {
    if !AllLive(s, scopes) then Err("API key does not exist") else
    match NormalizedRoute(if Trim(route.id) == "" then route.(id := generated) else route)
    case Err(reason) => Err(reason)
    case Ok(made) => if FindRoute(s.routes, made.id).Some? then Err("Routing rule already exists") else Ok(made)
  }

  lemma AppendedRoutesAreGood(routes: seq<Route>, route: Route)
    requires GoodRoutes(routes) && GoodRoute(route) && FindRoute(routes, route.id).None?
    ensures GoodRoutes(routes + [route])
  {
    hide SoundRule, Trim;
    assert forall i :: 0 <= i < |routes| ==> routes[i] in routes;
  }

  lemma RouteCreatedIsWellBound(s: Snapshot, route: Route, bound: set<string>)
    requires WellBound(s) && GoodRoute(route) && FindRoute(s.routes, route.id).None?
    ensures WellBound(RouteCreated(s, route, bound))
  {
    hide GoodRoutes, GoodGroups, FindRoute, Troubled, SoundRule, BindingsEdited, Trim;
    var routes := s.routes + [route];
    AppendedRoutesAreGood(s.routes, route);
    forall id
      ensures FindRoute(s.routes, id).Some? ==> FindRoute(routes, id).Some?
      ensures id == route.id ==> FindRoute(routes, id).Some?
    {
    }
    GroupsKeepRoutes(s, routes);
    var f := (scope, key) => RouteJoinedKey(route.id, bound, scope, key);
    forall scope | scope in s.keys
      ensures GoodKey(routes, s.groups, f(scope, s.keys[scope]))
    {
      assert GoodKey(s.routes, s.groups, s.keys[scope]);
    }
    EditIsWellBound(s, routes, s.groups, f);
  }

  lemma GroupsKeepRoutes(s: Snapshot, routes: seq<Route>)
    requires WellBound(s) && forall id :: FindRoute(s.routes, id).Some? ==> FindRoute(routes, id).Some?
    ensures GoodGroups(routes, s.groups)
  {
    hide GoodRoutes, GoodKey, FindRoute, SoundRule, Trim, NormalizeMode;
    forall group | group in s.groups
      ensures RoutesBound(routes, group.routeIDs)
    {
      assert GoodGroup(s.routes, group);
    }
  }

  /** CreateRoute. */
  method CreateRoute(store: S.Store, route: Route, scopes: seq<string>, generated: string, fails: bool) returns (r: Result<Route>)
    requires store.Valid() && WellBound(store.Memory())
    modifies store`state, store`dirty, store`unsavedNormal, store`unsavedErrors, store.repo
    ensures store.Valid() && WellBound(store.Memory())
    ensures store.Kept(old(store.Held()), r.Ok?)
    ensures var s, names := old(store.Memory()), NormalizeScopes(scopes);
            match RouteCreation(s, route, names, generated)
            case Err(_) => r.Err? && store.Memory() == s
            case Ok(made) =>
              if fails then r.Err? && store.Memory() == s
              else r == Ok(made) && store.Memory() == RouteCreated(s, made, SetOf(names)) == store.repo.saved
  {
    hide WellBound, Separate, S.Agrees, KeysOf, Merge, BindingsEdited, NormalizeScopes, RouteCreation, GoodRoute,
         FindRoute, AllLive, Trim, NormalizedRoute;
    var s, names := store.Memory(), NormalizeScopes(scopes);
    var created := RouteCreation(s, route, names, generated);
    if created.Err? { return Err(created.reason); }
    var made, bound := created.value, SetOf(names);
    NormalizedRouteIsGood(if Trim(route.id) == "" then route.(id := generated) else route);
    RouteCreatedIsWellBound(s, made, bound);
    var f := (scope, key) => RouteJoinedKey(made.id, bound, scope, key);
    var ok := EditBindings(store, s.routes + [made], s.groups, f, NO_CHANGES.(routes := true, keys := names), fails);
    return if ok then Ok(made) else Err("Save configuration");
  }

  // ----- Updating a route -------------------------------------------------------------

  predicate RouteSelectable(keys: map<string, Key>, id: string, selected: Option<set<string>>) {
    selected.Some? ==> forall scope :: scope in selected.value ==> scope in keys && (keys[scope].Live() || id in keys[scope].bindings.routeIDs)
  }

  function ReroutedKey(id: string, selected: Option<set<string>>, scope: string, key: Key): Key {
    if selected.None? then key else WithRoutes(key, Rebound(key.bindings.routeIDs, id, scope in selected.value))
  }

  ghost function RouteUpdated(s: Snapshot, i: nat, route: Route, selected: Option<set<string>>): Snapshot
    requires i < |s.routes|
  {
    BindingsEdited(s, s.routes[i := route], s.groups, (scope, key) => ReroutedKey(route.id, selected, scope, key))
  }

  function RouteUpdate(s: Snapshot, id: string, name: Option<string>, rule: Option<RouteRule>, scopes: Option<seq<string>>): (r: Result<(nat, Route)>)
    ensures r.Ok? ==>
              var (i, route) := r.value;
              && RouteIndex(s.routes, Trim(id)) == Some(i)
              && NormalizedRoute(Route(s.routes[i].id, Or(name, s.routes[i].name), Or(rule, s.routes[i].rule))) == Ok(route)
  {
    if Trim(id) == "" then Err("Routing rule ID is required") else
    match RouteIndex(s.routes, Trim(id))
    case None => Err("Routing rule does not exist")
    case Some(i) =>
      match NormalizedRoute(Route(s.routes[i].id, Or(name, s.routes[i].name), Or(rule, s.routes[i].rule)))
      case Err(reason) => Err(reason)
      case Ok(route) => if RouteSelectable(s.keys, Trim(id), Selected(scopes)) then Ok((i, route)) else Err("API key does not exist")
  }

  lemma ReplacedRoutesAreGood(routes: seq<Route>, i: nat, route: Route)
    requires GoodRoutes(routes) && GoodRoute(route) && i < |routes| && routes[i].id == route.id
    ensures GoodRoutes(routes[i := route])
  {
    hide GoodRoute;
    forall r | r in routes[i := route]
      ensures GoodRoute(r)
    {
      var j :| 0 <= j < |routes| && routes[i := route][j] == r;
      assert j != i ==> r in routes;
    }
  }

  lemma RouteUpdatedIsWellBound(s: Snapshot, i: nat, route: Route, selected: Option<set<string>>)
    requires WellBound(s) && i < |s.routes| && s.routes[i].id == route.id && GoodRoute(route)
    ensures WellBound(RouteUpdated(s, i, route, selected))
  {
    hide GoodRoutes, GoodGroups, FindRoute, Troubled, SoundRule, BindingsEdited, Trim;
    var routes := s.routes[i := route];
    ReplacedRoutesAreGood(s.routes, i, route);
    forall id
      ensures FindRoute(s.routes, id).Some? <==> FindRoute(routes, id).Some?
    {
      FoundAmongReplaced(s.routes, i, route, id);
    }
    assert FindRoute(routes, route.id).Some?;
    GroupsKeepRoutes(s, routes);
    var f := (scope, key) => ReroutedKey(route.id, selected, scope, key);
    forall scope | scope in s.keys
      ensures GoodKey(routes, s.groups, f(scope, s.keys[scope]))
    {
      assert GoodKey(s.routes, s.groups, s.keys[scope]);
    }
    EditIsWellBound(s, routes, s.groups, f);
  }

  lemma StoredRouteIsNamed(s: Snapshot, i: nat)
    requires WellBound(s) && i < |s.routes|
    ensures Trim(s.routes[i].id) == s.routes[i].id
  {
    hide Trim, SoundRule;
    assert GoodRoute(s.routes[i]);
  }

  lemma RouteUpdateIsWellBound(s: Snapshot, id: string, name: Option<string>, rule: Option<RouteRule>, scopes: Option<seq<string>>)
    requires WellBound(s) && RouteUpdate(s, id, name, rule, scopes).Ok?
    ensures var (i, route) := RouteUpdate(s, id, name, rule, scopes).value;
            i < |s.routes| && WellBound(RouteUpdated(s, i, route, Selected(scopes)))
  {
    hide WellBound, GoodRoute, FindRoute, RouteUpdated, ReroutedKey, Trim, NormalizedRule, RouteUpdate;
    var (i, route) := RouteUpdate(s, id, name, rule, scopes).value;
    NormalizedRouteIsGood(Route(s.routes[i].id, Or(name, s.routes[i].name), Or(rule, s.routes[i].rule)));
    StoredRouteIsNamed(s, i);
    RouteUpdatedIsWellBound(s, i, route, Selected(scopes));
  }

  /** UpdateRoute. */
  method UpdateRoute(store: S.Store, id: string, name: Option<string>, rule: Option<RouteRule>, scopes: Option<seq<string>>, fails: bool)
    returns (r: Result<Route>)
    requires store.Valid() && WellBound(store.Memory())
    modifies store`state, store`dirty, store`unsavedNormal, store`unsavedErrors, store.repo
    ensures store.Valid() && WellBound(store.Memory())
    ensures store.Kept(old(store.Held()), r.Ok?)
    ensures var s := old(store.Memory());
            match RouteUpdate(s, id, name, rule, scopes)
            case Err(_) => r.Err? && store.Memory() == s
            case Ok((i, route)) =>
              if fails then r.Err? && store.Memory() == s
              else r == Ok(route) && store.Memory() == RouteUpdated(s, i, route, Selected(scopes)) == store.repo.saved
  {
    hide WellBound, Separate, S.Agrees, KeysOf, Merge, BindingsEdited, NormalizeScopes, RouteUpdate, Trim, ReroutedKey, NormalizedRoute;
    var s := store.Memory();
    var updated := RouteUpdate(s, id, name, rule, scopes);
    if updated.Err? { return Err(updated.reason); }
    var (i, route) := updated.value;
    RouteUpdateIsWellBound(s, id, name, rule, scopes);
    var selected := Selected(scopes);
    var f := (scope, key) => ReroutedKey(route.id, selected, scope, key);
    var ok := EditDiffering(store, s.routes[i := route], s.groups, f, NO_CHANGES.(routes := true), fails);
    return if ok then Ok(route) else Err("Save configuration");
  }

  // ----- Deleting a route -------------------------------------------------------------

  predicate BoundByGroup(groups: seq<Group>, id: string) {
    exists i :: 0 <= i < |groups| && id in groups[i].routeIDs
  }

  function UnroutedKey(id: string, scope: string, key: Key): Key {
    WithRoutes(key, Rebound(key.bindings.routeIDs, id, false))
  }

  ghost function RouteDeleted(s: Snapshot, i: nat): Snapshot
    requires i < |s.routes|
  {
    BindingsEdited(s, s.routes[..i] + s.routes[i + 1..], s.groups, (scope, key) => UnroutedKey(s.routes[i].id, scope, key))
  }

  lemma RemainingRoutesAreGood(routes: seq<Route>, i: nat)
    requires GoodRoutes(routes) && i < |routes|
    ensures GoodRoutes(routes[..i] + routes[i + 1..])
  {
    hide GoodRoute;
    var rest := routes[..i] + routes[i + 1..];
    forall j | 0 <= j < |rest|
      ensures rest[j] == routes[if j < i then j else j + 1] && rest[j] in routes
    {
    }
  }

  lemma RemainingStillBound(routes: seq<Route>, i: nat, ids: seq<string>)
    requires RoutesBound(routes, ids) && i < |routes| && routes[i].id !in ids
    ensures RoutesBound(routes[..i] + routes[i + 1..], ids)
  {
    hide Trim, FindRoute;
    forall id | id in ids
      ensures FindRoute(routes[..i] + routes[i + 1..], id).Some?
    {
    }
  }

  lemma RouteDeletedIsWellBound(s: Snapshot, i: nat)
    requires WellBound(s) && i < |s.routes| && !BoundByGroup(s.groups, s.routes[i].id)
    ensures WellBound(RouteDeleted(s, i))
  {
    hide GoodRoutes, FindRoute, Troubled, SoundRule, BindingsEdited, Trim, NormalizeMode, RoutesBound;
    var routes, id := s.routes[..i] + s.routes[i + 1..], s.routes[i].id;
    RemainingRoutesAreGood(s.routes, i);
    forall group | group in s.groups
      ensures RoutesBound(routes, group.routeIDs)
    {
      var j :| 0 <= j < |s.groups| && s.groups[j] == group;
      assert GoodGroup(s.routes, group);
      RemainingStillBound(s.routes, i, group.routeIDs);
    }
    var f := (scope, key) => UnroutedKey(id, scope, key);
    forall scope | scope in s.keys
      ensures GoodKey(routes, s.groups, f(scope, s.keys[scope]))
    {
      var key := s.keys[scope];
      assert GoodKey(s.routes, s.groups, key);
      FewerStillBound(s.routes, key.bindings.routeIDs, Rebound(key.bindings.routeIDs, id, false));
      RemainingStillBound(s.routes, i, Rebound(key.bindings.routeIDs, id, false));
    }
    EditIsWellBound(s, routes, s.groups, f);
  }

  lemma FewerStillBound(routes: seq<Route>, ids: seq<string>, fewer: seq<string>)
    requires RoutesBound(routes, ids) && forall id :: id in fewer ==> id in ids
    ensures RoutesBound(routes, fewer)
  {
    hide Trim, FindRoute;
  }

  /** DeleteRoute: refused while a group binds the route; no key is left bound to it. */
  method DeleteRoute(store: S.Store, id: string, fails: bool) returns (ok: bool)
    requires store.Valid() && WellBound(store.Memory())
    modifies store`state, store`dirty, store`unsavedNormal, store`unsavedErrors, store.repo
    ensures store.Valid() && WellBound(store.Memory())
    ensures store.Kept(old(store.Held()), ok)
    ensures var s, index := old(store.Memory()), RouteIndex(old(store.Memory()).routes, Trim(id));
            && ok == (Trim(id) != "" && index.Some? && !BoundByGroup(s.groups, Trim(id)) && !fails)
            && store.Memory() == if ok then RouteDeleted(s, index.value) else s
  {
    hide WellBound, Separate, S.Agrees, KeysOf, Merge, BindingsEdited, Trim, UnroutedKey, RouteIndex, BoundByGroup;
    var s := store.Memory();
    if Trim(id) == "" { return false; }
    var index := RouteIndex(s.routes, Trim(id));
    if index.None? || BoundByGroup(s.groups, Trim(id)) { return false; }
    var i := index.value;
    TrimIdempotent(id);
    RouteDeletedIsWellBound(s, i);
    var f := (scope, key) => UnroutedKey(s.routes[i].id, scope, key);
    ok := EditDiffering(store, s.routes[..i] + s.routes[i + 1..], s.groups, f, NO_CHANGES.(routes := true), fails);
  }

  // ----- A key's own routes and rule --------------------------------------------------

  function BoundKey(name: string, bindings: Bindings, scope: string, key: Key): Key {
    if scope == name then key.(bindings := bindings) else key
  }

  ghost function KeyRouted(s: Snapshot, name: string, bindings: Bindings): Snapshot {
    BindingsEdited(s, s.routes, s.groups, (scope, key) => BoundKey(name, bindings, scope, key))
  }

  function Binding(s: Snapshot, name: string, bindings: Bindings): (r: Result<Bindings>)
    ensures r.Ok? ==> RoutesExist(s.routes, r.value.routeIDs) && r.value.configured
  {
    if name == "" then Err("API key identifier is required") else
    match NormalizedBindings(bindings)
    case Err(reason) => Err(reason)
    case Ok(made) =>
      if !LiveKey(s, name) then Err("API key does not exist")
      else if !RoutesExist(s.routes, made.routeIDs) then Err("Routing rule does not exist")
      else Ok(made.(configured := true))
  }

  lemma KeyRoutedIsWellBound(s: Snapshot, name: string, bindings: Bindings)
    requires WellBound(s) && RoutesBound(s.routes, bindings.routeIDs) && SoundRule(bindings.rule)
    ensures WellBound(KeyRouted(s, name, bindings))
  {
    hide GoodRoutes, GoodGroups, BindingsEdited, Troubled, SoundRule, RoutesBound;
    var f := (scope, key) => BoundKey(name, bindings, scope, key);
    forall scope | scope in s.keys
      ensures GoodKey(s.routes, s.groups, f(scope, s.keys[scope]))
    {
      assert GoodKey(s.routes, s.groups, s.keys[scope]);
    }
    EditIsWellBound(s, s.routes, s.groups, f);
  }

  lemma BindingIsGood(s: Snapshot, name: string, bindings: Bindings)
    requires Binding(s, name, bindings).Ok?
    ensures RoutesBound(s.routes, Binding(s, name, bindings).value.routeIDs) && SoundRule(Binding(s, name, bindings).value.rule)
  {
    hide Names, NormalizedRule, RoutesBound, RoutesExist, SoundRule, NormalRule;
    NamedRoutesAreBound(s.routes, bindings.routeIDs);
    NormalizingRules(bindings.rule);
    NormalIsSound(Binding(s, name, bindings).value.rule);
  }

  /** SetKeyRoutes: from now on the key is configured, even if its rule is left empty. */
  method SetKeyRoutes(store: S.Store, scope: string, bindings: Bindings, fails: bool) returns (ok: bool)
    requires store.Valid() && WellBound(store.Memory())
    modifies store`state, store`dirty, store`unsavedNormal, store`unsavedErrors, store.repo
    ensures store.Valid() && WellBound(store.Memory())
    ensures store.Kept(old(store.Held()), ok)
    ensures var s, name := old(store.Memory()), NormalizeScopeName(scope);
            && ok == (Binding(s, name, bindings).Ok? && !fails)
            && store.Memory() == if ok then KeyRouted(s, name, Binding(s, name, bindings).value) else s
  {
    hide WellBound, Separate, S.Agrees, KeysOf, Merge, BindingsEdited, NormalizeScopeName, Binding;
    var s, name := store.Memory(), NormalizeScopeName(scope);
    var made := Binding(s, name, bindings);
    if made.Err? { return false; }
    BindingIsGood(s, name, bindings);
    KeyRoutedIsWellBound(s, name, made.value);
    var f := (scope, key) => BoundKey(name, made.value, scope, key);
    ok := EditBindings(store, s.routes, s.groups, f, NO_CHANGES.(keys := [name]), fails);
  }
}
