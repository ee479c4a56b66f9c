/**
  Creating, updating and deleting groups and routes and binding them to keys,
  internal/billing/access_control.go and routing.go: every edit checks what it is given on a
  working copy and leaves a well-bound state, or changes nothing.
 */
module AccessEdits {
  import opened Text
  import opened Model
  import opened ChangeSets
  import opened Routing
  import opened AccessMeaning
  import opened AccessRules
  import opened AccessBindings
  import S = Stores

  // ----- What operators enter ---------------------------------------------------------

  function NormalizedGroup(group: Group): Result<Group> {
    var id, name := Trim(group.id), Trim(group.name);
    if id == "" || |id| > MAX_VALUE_BYTES then Err("Invalid group ID")
    else if name == "" || |name| > MAX_NAME_BYTES then Err("Invalid group name")
    else
      match (NormalizeMode(group.mode), Names(group.routeIDs), NormalizedRule(group.rule))
      case (Ok(mode), Ok(routeIDs), Ok(rule)) => Ok(Group(id, name, group.disabled, mode, routeIDs, rule))
      case _ => Err("Invalid group")
  }

  function NormalizedRoute(route: Route): Result<Route> {
    var id, name := Trim(route.id), Trim(route.name);
    if id == "" then Err("Routing rule ID is required")
    else if name == "" || |name| > MAX_NAME_BYTES then Err("Invalid routing rule name")
    else
      match NormalizedRule(route.rule)
      case Err(reason) => Err(reason)
      case Ok(rule) => Ok(Route(id, name, rule))
  }

  function NormalizedBindings(bindings: Bindings): Result<Bindings> {
    match (Names(bindings.routeIDs), NormalizedRule(bindings.rule))
    case (Ok(routeIDs), Ok(rule)) => Ok(Bindings(routeIDs, bindings.configured, rule))
    case _ => Err("Invalid routing bindings")
  }

  lemma NamedRoutesAreBound(routes: seq<Route>, values: seq<string>)
    requires Names(values).Ok? && RoutesExist(routes, Names(values).value)
    ensures RoutesBound(routes, Names(values).value)
  {
    hide Trim, Lower, FindRoute, NamesTo;
    NamesMean(values, |values|);
  }

  lemma NormalizedGroupIsGood(routes: seq<Route>, group: Group)
    requires NormalizedGroup(group).Ok? && RoutesExist(routes, NormalizedGroup(group).value.routeIDs)
    ensures GoodGroup(routes, NormalizedGroup(group).value)
  {
    hide Names, NormalizedRule, RoutesBound, RoutesExist, SoundRule, NormalRule, Trim;
    TrimIdempotent(group.id);
    TrimIdempotent(group.mode);
    NormalizingRules(group.rule);
    NormalIsSound(NormalizedGroup(group).value.rule);
    NamedRoutesAreBound(routes, group.routeIDs);
    assert Trim(ORDINARY) == ORDINARY by { TrimTrimmed(ORDINARY); }
  }

  lemma NormalizedRouteIsGood(route: Route)
    requires NormalizedRoute(route).Ok?
    ensures GoodRoute(NormalizedRoute(route).value)
  {
    hide NormalizedRule, SoundRule, NormalRule, Trim;
    TrimIdempotent(route.id);
    NormalizingRules(route.rule);
    NormalIsSound(NormalizedRoute(route).value.rule);
  }

  // ----- Changing one key's bindings --------------------------------------------------

  function WithoutId(ids: seq<string>, id: string): (r: seq<string>)
    ensures forall x :: x in r <==> x in ids && x != id
  {
    if ids == [] then [] else
    var front, last := WithoutId(ids[..|ids| - 1], id), ids[|ids| - 1];
    if last == id then front else front + [last]
  }

  /** The list with id added at the end or taken out, unless it is as wanted already. */
  function Rebound(ids: seq<string>, id: string, want: bool): (r: seq<string>)
    ensures forall x :: x in r <==> if x == id then want else x in ids
  {
    if (id in ids) == want then ids else if want then ids + [id] else WithoutId(ids, id)
  }

  function WithGroups(key: Key, ids: seq<string>): Key {
    key.(groupIDs := ids)
  }

  function WithRoutes(key: Key, ids: seq<string>): Key {
    key.(bindings := key.bindings.(routeIDs := ids))
  }

  ghost function BindingsEdited(s: Snapshot, routes: seq<Route>, groups: seq<Group>, f: (string, Key) -> Key): Snapshot {
    S.Edited(s, s.plans, routes, groups, s.access, f)
  }

  /** Every key an edit leaves is good: what is left to show once routes and groups are. */
  lemma EditIsWellBound(s: Snapshot, routes: seq<Route>, groups: seq<Group>, f: (string, Key) -> Key)
    requires GoodRoutes(routes) && GoodGroups(routes, groups)
    requires forall scope :: scope in s.keys ==> GoodKey(routes, groups, f(scope, s.keys[scope]))
    ensures WellBound(BindingsEdited(s, routes, groups, f))
  {
    hide GoodRoutes, GoodGroups, GoodKey;
  }

  // ----- Trouble ----------------------------------------------------------------------

  lemma SameTrouble(a: seq<Group>, b: seq<Group>, ids: seq<string>)
    requires forall id :: id in ids ==> FindGroup(a, id) == FindGroup(b, id)
    ensures Troubled(a, ids) <==> Troubled(b, ids)
  {
    hide FindGroup, NormalizeMode;
  }

  lemma FewerAreNoTrouble(all: seq<Group>, ids: seq<string>, fewer: seq<string>)
    requires !Troubled(all, ids) && forall id :: id in fewer ==> id in ids
    ensures !Troubled(all, fewer)
  {
    hide Unusable, IsExclusive;
  }

  lemma {:induction false} FindAppendedGroup(groups: seq<Group>, group: Group, id: string)
    requires FindGroup(groups, group.id).None?
    ensures FindGroup(groups + [group], id) == if id == group.id then Some(group) else FindGroup(groups, id)
  {
    if groups == [] {
      assert groups + [group] == [group] && [group][1..] == [];
    } else {
      assert (groups + [group])[1..] == groups[1..] + [group];
      assert FindGroup(groups[1..], group.id).None?;
      FindAppendedGroup(groups[1..], group, id);
    }
  }

  lemma {:induction false} FindReplacedGroup(groups: seq<Group>, i: nat, group: Group, id: string)
    requires i < |groups| && groups[i].id == group.id && forall j :: 0 <= j < i ==> groups[j].id != group.id
    ensures FindGroup(groups[i := group], id) == if id == group.id then Some(group) else FindGroup(groups, id)
  {
    if i > 0 {
      assert groups[i := group][1..] == groups[1..][i - 1 := group];
      FindReplacedGroup(groups[1..], i - 1, group, id);
    } else {
      assert groups[0 := group][1..] == groups[1..];
    }
  }

  lemma {:induction false} FindRemainingGroup(groups: seq<Group>, i: nat, id: string)
    requires i < |groups| && groups[i].id != id
    ensures FindGroup(groups[..i] + groups[i + 1..], id) == FindGroup(groups, id)
  {
    if i > 0 {
      assert (groups[..i] + groups[i + 1..])[1..] == groups[1..][..i - 1] + groups[1..][i..];
      FindRemainingGroup(groups[1..], i - 1, id);
    } else {
      assert groups[..0] + groups[1..] == groups[1..];
    }
  }

  /** Where the group of an ID is stored. */
  function GroupIndex(groups: seq<Group>, id: string): (i: Option<nat>)
    ensures i.None? ==> FindGroup(groups, id).None?
    ensures i.Some? ==> i.value < |groups| && groups[i.value].id == id && FindGroup(groups, id) == Some(groups[i.value])
    ensures i.Some? ==> forall j :: 0 <= j < i.value ==> groups[j].id != id
  {
    if groups == [] then None
    else if groups[0].id == id then Some(0)
    else
      var rest := GroupIndex(groups[1..], id);
      if rest.None? then None else Some(rest.value + 1)
  }

  // ----- Exclusive groups -------------------------------------------------------------

  /** Whether the edited bindings of these keys can be resolved: validateExclusiveGroupBindings. */
  predicate Resolvable(groups: seq<Group>, keys: map<string, Key>, f: (string, Key) -> Key, scopes: set<string>) {
    forall scope :: scope in scopes && scope in keys ==> EffectiveGroups(groups, f(scope, keys[scope]).groupIDs).Ok?
  }

  /** Among existing groups, resolution fails exactly where two different ones are enabled and exclusive. */
  lemma RefusedExactly(routes: seq<Route>, groups: seq<Group>, ids: seq<string>)
    requires GoodGroups(routes, groups) && forall id :: id in ids ==> FindGroup(groups, id).Some?
    ensures EffectiveGroups(groups, ids).Err? <==>
            exists a, b :: a in ids && b in ids && a != b && IsExclusive(groups, a) && IsExclusive(groups, b)
  {
    hide EffectiveGroups, RoutesBound, SoundRule, NormalizeMode, IsExclusive, Trim;
    GoodGroupsAreNamed(routes, groups);
    EffectiveGroupsMean(groups, ids);
    forall id | id in ids
      ensures !Unusable(groups, id)
    {
      assert GoodGroup(routes, FindGroup(groups, id).value);
    }
  }

  /**
    A key may hold a group as stored in all, beside groups that resolve without it, unless both
    it and one of the others are enabled and exclusive.
   */
  lemma HoldingRefusedExactly(routes: seq<Route>, groups: seq<Group>, all: seq<Group>, group: Group, ids: seq<string>, others: seq<string>)
    requires GoodGroups(routes, all) && !Troubled(groups, others) && group.id in ids
    requires forall id :: id in ids && id != group.id ==> id in others
    requires forall id :: id in ids ==> FindGroup(all, id) == if id == group.id then Some(group) else FindGroup(groups, id)
    ensures EffectiveGroups(all, ids).Err? <==>
            !group.disabled && NormalizeMode(group.mode) == Ok(EXCLUSIVE) && exists id :: id in ids && id != group.id && IsExclusive(groups, id)
  {
    hide EffectiveGroups, NormalizeMode, FindGroup, Troubled, GoodGroups;
    forall id | id in ids
      ensures FindGroup(all, id).Some?
      ensures IsExclusive(all, id) <==> if id == group.id then !group.disabled && NormalizeMode(group.mode) == Ok(EXCLUSIVE) else IsExclusive(groups, id)
    {
      if id != group.id { UntroubledIsFound(groups, others, id); }
    }
    RefusedExactly(routes, all, ids);
    OneExclusive(groups, others);
  }

  /** So a new group can be bound to a key unless both it and one the key already has are enabled and exclusive. */
  lemma JoiningRefusedExactly(routes: seq<Route>, groups: seq<Group>, group: Group, ids: seq<string>)
    requires GoodGroups(routes, groups) && GoodGroup(routes, group) && FindGroup(groups, group.id).None? && !Troubled(groups, ids)
    ensures EffectiveGroups(groups + [group], ids + [group.id]).Err? <==>
            !group.disabled && group.mode == EXCLUSIVE && exists id :: id in ids && IsExclusive(groups, id)
  {
    hide EffectiveGroups, RoutesBound, SoundRule, NormalizeMode, Trim, FindGroup, Troubled;
    AppendedGroupsAreGood(routes, groups, group);
    forall id | id in ids + [group.id]
      ensures FindGroup(groups + [group], id) == if id == group.id then Some(group) else FindGroup(groups, id)
      ensures id in ids ==> id != group.id
    {
      FindAppendedGroup(groups, group, id);
      if id in ids { UntroubledIsFound(groups, ids, id); }
    }
    assert forall id :: id in ids ==> id in ids + [group.id];
    HoldingRefusedExactly(routes, groups, groups + [group], group, ids + [group.id], ids);
  }

  /** And an update is refused for a key that will hold the group under the same condition, judged by the group's new form. */
  lemma UpdatingRefusedExactly(routes: seq<Route>, groups: seq<Group>, i: nat, group: Group, ids: seq<string>)
    requires GoodGroups(routes, groups) && GoodGroup(routes, group) && i < |groups| && groups[i].id == group.id && !Troubled(groups, ids)
    ensures EffectiveGroups(groups[i := group], Rebound(ids, group.id, true)).Err? <==>
            !group.disabled && group.mode == EXCLUSIVE && exists id :: id in ids && id != group.id && IsExclusive(groups, id)
  {
    hide EffectiveGroups, RoutesBound, SoundRule, NormalizeMode, Trim, FindGroup, Troubled, IsExclusive;
    var more := Rebound(ids, group.id, true);
    ReplacedGroupsAreGood(routes, groups, i, group);
    forall id | id in more
      ensures FindGroup(groups[i := group], id) == if id == group.id then Some(group) else FindGroup(groups, id)
    {
      FindReplacedGroup(groups, i, group, id);
    }
    HoldingRefusedExactly(routes, groups, groups[i := group], group, more, ids);
  }

  lemma OneExclusive(groups: seq<Group>, ids: seq<string>)
    requires !Troubled(groups, ids)
    ensures forall a, b :: a in ids && b in ids && a != b ==> !(IsExclusive(groups, a) && IsExclusive(groups, b))
  {
    hide IsExclusive, Unusable;
  }

  lemma UntroubledIsFound(groups: seq<Group>, ids: seq<string>, id: string)
    requires !Troubled(groups, ids) && id in ids
    ensures FindGroup(groups, id).Some? && !Unusable(groups, id)
  {
    hide IsExclusive, NormalizeMode;
  }

  // ----- Lists of groups --------------------------------------------------------------

  lemma AppendedGroupsAreGood(routes: seq<Route>, groups: seq<Group>, group: Group)
    requires GoodGroups(routes, groups) && GoodGroup(routes, group) && FindGroup(groups, group.id).None?
    ensures GoodGroups(routes, groups + [group])
  {
    hide GoodGroup, FindGroup;
  }

  lemma ReplacedGroupsAreGood(routes: seq<Route>, groups: seq<Group>, i: nat, group: Group)
    requires GoodGroups(routes, groups) && GoodGroup(routes, group) && i < |groups| && groups[i].id == group.id
    ensures GoodGroups(routes, groups[i := group])
  {
    hide GoodGroup;
    forall g | g in groups[i := group]
      ensures GoodGroup(routes, g)
    {
      var j :| 0 <= j < |groups| && groups[i := group][j] == g;
      assert j != i ==> g in groups;
    }
  }

  lemma RemainingGroupsAreGood(routes: seq<Route>, groups: seq<Group>, i: nat)
    requires GoodGroups(routes, groups) && i < |groups|
    ensures GoodGroups(routes, groups[..i] + groups[i + 1..])
  {
    hide GoodGroup;
    var rest := groups[..i] + groups[i + 1..];
    forall j | 0 <= j < |rest|
      ensures rest[j] == groups[if j < i then j else j + 1] && rest[j] in groups
    {
    }
  }

  // ----- The common shape of an edit --------------------------------------------------

  /** The keys an edit changes, in some order. */
  method Differing(keys: map<string, Key>, f: (string, Key) -> Key) returns (changed: seq<string>)
    ensures forall scope :: scope in changed <==> scope in keys && f(scope, keys[scope]) != keys[scope]
  {
    changed := [];
    var pending := keys.Keys;
    while pending != {}
      invariant pending <= keys.Keys
      invariant forall scope :: scope in changed <==> scope in keys && scope !in pending && f(scope, keys[scope]) != keys[scope]
      decreases pending
    {
      var scope :| scope in pending;
      pending := pending - {scope};
      if f(scope, keys[scope]) != keys[scope] {
        changed := changed + [scope];
      }
    }
  }

  lemma BindingsCovered(s: Snapshot, routes: seq<Route>, groups: seq<Group>, f: (string, Key) -> Key, c: Changes)
    requires (c.routes || routes == s.routes) && (c.groups || groups == s.groups)
    requires forall scope :: scope in s.keys && !c.Touches(scope) ==> f(scope, s.keys[scope]) == s.keys[scope]
    ensures S.Covers(s, BindingsEdited(s, routes, groups, f), c)
  {
  }

  /** Saves and publishes the edited routes, groups and keys together, or changes nothing. */
  method EditBindings(store: S.Store, routes: seq<Route>, groups: seq<Group>, f: (string, Key) -> Key, c: Changes, fails: bool)
    returns (ok: bool)
    requires store.Valid() && c != NO_CHANGES && S.Quiet(c)
    requires WellBound(store.Memory()) && WellBound(BindingsEdited(store.Memory(), routes, groups, f))
    requires (c.routes || routes == store.Memory().routes) && (c.groups || groups == store.Memory().groups)
    requires forall scope :: scope in store.Memory().keys && !c.Touches(scope) ==> f(scope, store.Memory().keys[scope]) == store.Memory().keys[scope]
    modifies store`state, store`dirty, store`unsavedNormal, store`unsavedErrors, store.repo
    ensures store.Valid() && WellBound(store.Memory())
    ensures store.Kept(old(store.Held()), ok)
    ensures ok == !fails
    ensures store.Memory() == if ok then BindingsEdited(old(store.Memory()), routes, groups, f) else old(store.Memory())
    ensures ok ==> store.repo.saved == store.Memory()
  {
    hide WellBound, Separate, S.Agrees, S.Covers, KeysOf, Merge, S.Rewritten;
    var s := store.Memory();
    BindingsCovered(s, routes, groups, f, c);
    MergeIsEmpty(store.dirty, c);
    ok := store.Edit(s.plans, routes, groups, s.access, f, c, fails);
  }

  /** The same, announcing exactly the keys that differ. */
  method EditDiffering(store: S.Store, routes: seq<Route>, groups: seq<Group>, f: (string, Key) -> Key, c: Changes, fails: bool)
    returns (ok: bool)
    requires store.Valid() && c != NO_CHANGES && c.keys == [] && S.Quiet(c)
    requires WellBound(store.Memory()) && WellBound(BindingsEdited(store.Memory(), routes, groups, f))
    requires (c.routes || routes == store.Memory().routes) && (c.groups || groups == store.Memory().groups)
    modifies store`state, store`dirty, store`unsavedNormal, store`unsavedErrors, store.repo
    ensures store.Valid() && WellBound(store.Memory())
    ensures store.Kept(old(store.Held()), ok)
    ensures ok == !fails
    ensures store.Memory() == if ok then BindingsEdited(old(store.Memory()), routes, groups, f) else old(store.Memory())
    ensures ok ==> store.repo.saved == store.Memory()
  {
    hide S.Store.Kept, S.Quiet, WellBound, Separate, S.Agrees, KeysOf, BindingsEdited, Changes.Touches;
    var s := store.Memory();
    assert forall k :: k in Cells(store.state.keys) ==> k as object != store.repo && k as object != store;
    var changed := Differing(s.keys, f);
    assert store.Memory() == s;
    NamingKeys(c, changed);
    ok := EditBindings(store, routes, groups, f, c.(keys := changed), fails);
  }

  lemma NamingKeys(c: Changes, keys: seq<string>)
    requires c != NO_CHANGES && c.keys == [] && S.Quiet(c)
    ensures c.(keys := keys) != NO_CHANGES && S.Quiet(c.(keys := keys))
    ensures forall scope :: scope in keys ==> c.(keys := keys).Touches(scope)
  {
    assert c == c.(keys := keys).(keys := []);
  }

  // ----- Creating a group -------------------------------------------------------------

  predicate AllLive(s: Snapshot, scopes: seq<string>) {
    forall i :: 0 <= i < |scopes| ==> LiveKey(s, scopes[i])
  }

  function JoinedKey(id: string, bound: set<string>, scope: string, key: Key): Key {
    if scope in bound then WithGroups(key, key.groupIDs + [id]) else key
  }

  ghost function GroupCreated(s: Snapshot, group: Group, bound: set<string>): Snapshot {
    BindingsEdited(s, s.routes, s.groups + [group], (scope, key) => JoinedKey(group.id, bound, scope, key))
  }

  /** The group as it will be stored; a blank ID takes the generated one. */
  function GroupCreation(s: Snapshot, group: Group, scopes: seq<string>, generated: string): (r: Result<Group>)
    ensures r.Ok? ==> FindGroup(s.groups, r.value.id).None? && RoutesExist(s.routes, r.value.routeIDs) && AllLive(s, scopes)
    ensures r.Ok? ==> NormalizedGroup(if Trim(group.id) == "" then group.(id := generated) else group) == r
    ensures r.Ok? ==>
              Resolvable(s.groups + [r.value], s.keys, (scope, key) => JoinedKey(r.value.id, SetOf(scopes), scope, key), SetOf(scopes))
  {
    match NormalizedGroup(if Trim(group.id) == "" then group.(id := generated) else group)
    case Err(reason) => Err(reason)
    case Ok(made) =>
      if FindGroup(s.groups, made.id).Some? then Err("Group already exists")
      else if !RoutesExist(s.routes, made.routeIDs) then Err("Routing rule does not exist")
      else if !AllLive(s, scopes) then Err("API key does not exist")
      else if !Resolvable(s.groups + [made], s.keys, (scope, key) => JoinedKey(made.id, SetOf(scopes), scope, key), SetOf(scopes)) then
        Err("An API key can belong to only one enabled exclusive group")
      else Ok(made)
  }

  lemma JoinedKeyIsGood(s: Snapshot, group: Group, bound: set<string>, scope: string)
    requires WellBound(s) && GoodGroup(s.routes, group) && FindGroup(s.groups, group.id).None? && scope in s.keys
    requires var key := JoinedKey(group.id, bound, scope, s.keys[scope]);
             scope in bound ==> EffectiveGroups(s.groups + [group], key.groupIDs).Ok?
    ensures GoodKey(s.routes, s.groups + [group], JoinedKey(group.id, bound, scope, s.keys[scope]))
  {
    hide GoodGroup, FindGroup, Troubled, SoundRule, RoutesBound, EffectiveGroups;
    var key := s.keys[scope];
    assert GoodKey(s.routes, s.groups, key);
    AppendedGroupsAreGood(s.routes, s.groups, group);
    GoodGroupsAreNamed(s.routes, s.groups + [group]);
    if scope in bound {
      EffectiveGroupsMean(s.groups + [group], key.groupIDs + [group.id]);
    } else {
      forall id | id in key.groupIDs
        ensures FindGroup(s.groups, id) == FindGroup(s.groups + [group], id)
      {
        UntroubledIsFound(s.groups, key.groupIDs, id);
        FindAppendedGroup(s.groups, group, id);
      }
      SameTrouble(s.groups, s.groups + [group], key.groupIDs);
    }
  }

  lemma GroupCreatedIsWellBound(s: Snapshot, group: Group, bound: set<string>)
    requires WellBound(s) && GoodGroup(s.routes, group) && FindGroup(s.groups, group.id).None?
    requires Resolvable(s.groups + [group], s.keys, (scope, key) => JoinedKey(group.id, bound, scope, key), bound)
    ensures WellBound(GroupCreated(s, group, bound))
  {
    hide GoodGroup, GoodRoutes, GoodGroups, GoodKey, FindGroup, EffectiveGroups, JoinedKey, BindingsEdited;
    AppendedGroupsAreGood(s.routes, s.groups, group);
    var f := (scope, key) => JoinedKey(group.id, bound, scope, key);
    forall scope | scope in s.keys
      ensures GoodKey(s.routes, s.groups + [group], f(scope, s.keys[scope]))
    {
      JoinedKeyIsGood(s, group, bound, scope);
    }
    EditIsWellBound(s, s.routes, s.groups + [group], f);
  }

  /** CreateGroup: the group and its bindings appear together or not at all. */
  method CreateGroup(store: S.Store, group: Group, scopes: seq<string>, generated: string, fails: bool) returns (r: Result<Group>)
    requires store.Valid() && WellBound(store.Memory())
    modifies store`state, store`dirty, store`unsavedNormal, store`unsavedErrors, store.repo
    ensures store.Valid() && WellBound(store.Memory())
    ensures store.Kept(old(store.Held()), r.Ok?)
    ensures var s, names := old(store.Memory()), NormalizeScopes(scopes);
            match GroupCreation(s, group, names, generated)
            case Err(_) => r.Err? && store.Memory() == s
            case Ok(made) =>
              if fails then r.Err? && store.Memory() == s
              else r == Ok(made) && store.Memory() == GroupCreated(s, made, SetOf(names)) == store.repo.saved
  {
    hide WellBound, Separate, S.Agrees, KeysOf, Merge, BindingsEdited, NormalizeScopes, GroupCreation, GoodGroup,
         FindGroup, Resolvable, AllLive, Trim, RoutesExist, NormalizedGroup;
    var s, names := store.Memory(), NormalizeScopes(scopes);
    var created := GroupCreation(s, group, names, generated);
    if created.Err? { return Err(created.reason); }
    var made, bound := created.value, SetOf(names);
    NormalizedGroupIsGood(s.routes, if Trim(group.id) == "" then group.(id := generated) else group);
    GroupCreatedIsWellBound(s, made, bound);
    var f := (scope, key) => JoinedKey(made.id, bound, scope, key);
    var ok := EditBindings(store, s.routes, s.groups + [made], f, NO_CHANGES.(groups := true, keys := names), fails);
    return if ok then Ok(made) else Err("Save configuration");
  }

  // ----- Updating a group -------------------------------------------------------------

  /** What an update may name; anything absent stays as it is. */
  datatype GroupPatch = GroupPatch(
    id: string, name: Option<string>, disabled: Option<bool>, mode: Option<string>,
    routeIDs: Option<seq<string>>, rule: Option<RouteRule>, scopes: Option<seq<string>>)

  function Or<T>(patch: Option<T>, value: T): T {
    if patch.Some? then patch.value else value
  }

  function Patched(group: Group, patch: GroupPatch): Group {
    Group(group.id, Or(patch.name, group.name), Or(patch.disabled, group.disabled), Or(patch.mode, group.mode),
          Or(patch.routeIDs, group.routeIDs), Or(patch.rule, group.rule))
  }

  function Selected(scopes: Option<seq<string>>): Option<set<string>> {
    if scopes.None? then None else Some(SetOf(NormalizeScopes(scopes.value)))
  }

  /** A key may be selected if it is live or has been bound before it was deleted. */
  predicate GroupSelectable(keys: map<string, Key>, id: string, selected: Option<set<string>>) {
    selected.Some? ==> forall scope :: scope in selected.value ==> scope in keys && (keys[scope].Live() || id in keys[scope].groupIDs)
  }

  function RegroupedKey(id: string, selected: Option<set<string>>, scope: string, key: Key): Key {
    if selected.None? then key else WithGroups(key, Rebound(key.groupIDs, id, scope in selected.value))
  }

  function GroupHolders(id: string, keys: map<string, Key>, f: (string, Key) -> Key): set<string> {
    set scope | scope in keys && id in f(scope, keys[scope]).groupIDs
  }

  ghost function GroupUpdated(s: Snapshot, i: nat, group: Group, selected: Option<set<string>>): Snapshot
    requires i < |s.groups|
  {
    BindingsEdited(s, s.routes, s.groups[i := group], (scope, key) => RegroupedKey(group.id, selected, scope, key))
  }

  function GroupUpdate(s: Snapshot, patch: GroupPatch): (r: Result<(nat, Group)>)
    ensures r.Ok? ==>
              var (i, group) := r.value;
              && GroupIndex(s.groups, Trim(patch.id)) == Some(i)
              && NormalizedGroup(Patched(s.groups[i], patch)) == Ok(group) && RoutesExist(s.routes, group.routeIDs)
              && var f := (scope, key) => RegroupedKey(group.id, Selected(patch.scopes), scope, key);
                 Resolvable(s.groups[i := group], s.keys, f, GroupHolders(group.id, s.keys, f))
  {
    match GroupIndex(s.groups, Trim(patch.id))
    case None => Err("Group does not exist")
    case Some(i) =>
      match NormalizedGroup(Patched(s.groups[i], patch))
      case Err(reason) => Err(reason)
      case Ok(group) =>
        var f := (scope, key) => RegroupedKey(group.id, Selected(patch.scopes), scope, key);
        if !RoutesExist(s.routes, group.routeIDs) then Err("Routing rule does not exist")
        else if !GroupSelectable(s.keys, group.id, Selected(patch.scopes)) then Err("API key does not exist")
        else if !Resolvable(s.groups[i := group], s.keys, f, GroupHolders(group.id, s.keys, f)) then
          Err("An API key can belong to only one enabled exclusive group")
        else Ok((i, group))
  }

  lemma RegroupedKeyIsGood(s: Snapshot, i: nat, group: Group, selected: Option<set<string>>, scope: string)
    requires WellBound(s) && i < |s.groups| && s.groups[i].id == group.id && GoodGroup(s.routes, group) && scope in s.keys
    requires var key := RegroupedKey(group.id, selected, scope, s.keys[scope]);
             group.id in key.groupIDs ==> EffectiveGroups(s.groups[i := group], key.groupIDs).Ok?
    ensures GoodKey(s.routes, s.groups[i := group], RegroupedKey(group.id, selected, scope, s.keys[scope]))
  {
    hide GoodGroup, FindGroup, Troubled, SoundRule, RoutesBound, EffectiveGroups;
    var key, all := RegroupedKey(group.id, selected, scope, s.keys[scope]), s.groups[i := group];
    assert GoodKey(s.routes, s.groups, s.keys[scope]);
    ReplacedGroupsAreGood(s.routes, s.groups, i, group);
    GoodGroupsAreNamed(s.routes, all);
    if group.id in key.groupIDs {
      EffectiveGroupsMean(all, key.groupIDs);
    } else {
      FewerAreNoTrouble(s.groups, s.keys[scope].groupIDs, key.groupIDs);
      forall id | id in key.groupIDs
        ensures FindGroup(s.groups, id) == FindGroup(all, id)
      {
        FindReplacedGroup(s.groups, i, group, id);
      }
      SameTrouble(s.groups, all, key.groupIDs);
    }
  }

  lemma GroupUpdatedIsWellBound(s: Snapshot, i: nat, group: Group, selected: Option<set<string>>)
    requires WellBound(s) && i < |s.groups| && s.groups[i].id == group.id && GoodGroup(s.routes, group)
    requires var f := (scope, key) => RegroupedKey(group.id, selected, scope, key);
             Resolvable(s.groups[i := group], s.keys, f, GroupHolders(group.id, s.keys, f))
    ensures WellBound(GroupUpdated(s, i, group, selected))
  {
    hide GoodGroup, GoodRoutes, GoodGroups, GoodKey, FindGroup, EffectiveGroups, RegroupedKey, BindingsEdited;
    ReplacedGroupsAreGood(s.routes, s.groups, i, group);
    var f := (scope, key) => RegroupedKey(group.id, selected, scope, key);
    forall scope | scope in s.keys
      ensures GoodKey(s.routes, s.groups[i := group], f(scope, s.keys[scope]))
    {
      assert group.id in f(scope, s.keys[scope]).groupIDs ==> scope in GroupHolders(group.id, s.keys, f);
      RegroupedKeyIsGood(s, i, group, selected, scope);
    }
    EditIsWellBound(s, s.routes, s.groups[i := group], f);
  }

  lemma UpdateIsWellBound(s: Snapshot, patch: GroupPatch)
    requires WellBound(s) && GroupUpdate(s, patch).Ok?
    ensures var (i, group) := GroupUpdate(s, patch).value;
            i < |s.groups| && WellBound(GroupUpdated(s, i, group, Selected(patch.scopes)))
  {
    hide GoodGroup, GoodRoutes, GoodKey, FindGroup, GroupUpdated, Resolvable, GroupHolders, RegroupedKey, Trim,
         NormalizedRule, Names, NormalizeMode, GroupUpdate;
    var (i, group) := GroupUpdate(s, patch).value;
    NormalizedGroupIsGood(s.routes, Patched(s.groups[i], patch));
    StoredGroupIsNamed(s, i);
    GroupUpdatedIsWellBound(s, i, group, Selected(patch.scopes));
  }

  lemma StoredGroupIsNamed(s: Snapshot, i: nat)
    requires WellBound(s) && i < |s.groups|
    ensures Trim(s.groups[i].id) == s.groups[i].id
  {
    hide Trim, NormalizeMode, RoutesBound, SoundRule;
    assert GoodGroup(s.routes, s.groups[i]);
  }

  /** UpdateGroup. A group that starts to conflict for any of its keys, deleted ones included, stays as it was. */
  method UpdateGroup(store: S.Store, patch: GroupPatch, fails: bool) returns (r: Result<Group>)
    requires store.Valid() && WellBound(store.Memory())
    modifies store`state, store`dirty, store`unsavedNormal, store`unsavedErrors, store.repo
    ensures store.Valid() && WellBound(store.Memory())
    ensures store.Kept(old(store.Held()), r.Ok?)
    ensures var s := old(store.Memory());
            match GroupUpdate(s, patch)
            case Err(_) => r.Err? && store.Memory() == s
            case Ok((i, group)) =>
              if fails then r.Err? && store.Memory() == s
              else r == Ok(group) && store.Memory() == GroupUpdated(s, i, group, Selected(patch.scopes)) == store.repo.saved
  {
    hide WellBound, Separate, S.Agrees, KeysOf, Merge, BindingsEdited, NormalizeScopes, GroupUpdate, Trim, RegroupedKey,
         Resolvable, GroupHolders, RoutesExist, NormalizedGroup;
    var s := store.Memory();
    var updated := GroupUpdate(s, patch);
    if updated.Err? { return Err(updated.reason); }
    var (i, group) := updated.value;
    UpdateIsWellBound(s, patch);
    var selected := Selected(patch.scopes);
    var f := (scope, key) => RegroupedKey(group.id, selected, scope, key);
    var ok := EditDiffering(store, s.routes, s.groups[i := group], f, NO_CHANGES.(groups := true), fails);
    return if ok then Ok(group) else Err("Save configuration");
  }

  // ----- Deleting a group -------------------------------------------------------------

  function UngroupedKey(id: string, scope: string, key: Key): Key {
    WithGroups(key, Rebound(key.groupIDs, id, false))
  }

  ghost function GroupDeleted(s: Snapshot, i: nat): Snapshot
    requires i < |s.groups|
  {
    BindingsEdited(s, s.routes, s.groups[..i] + s.groups[i + 1..], (scope, key) => UngroupedKey(s.groups[i].id, scope, key))
  }

  lemma UngroupedKeyIsGood(s: Snapshot, i: nat, scope: string)
    requires WellBound(s) && i < |s.groups| && scope in s.keys
    ensures GoodKey(s.routes, s.groups[..i] + s.groups[i + 1..], UngroupedKey(s.groups[i].id, scope, s.keys[scope]))
  {
    hide FindGroup, Troubled, SoundRule, RoutesBound;
    var key, rest := UngroupedKey(s.groups[i].id, scope, s.keys[scope]), s.groups[..i] + s.groups[i + 1..];
    assert GoodKey(s.routes, s.groups, s.keys[scope]);
    FewerAreNoTrouble(s.groups, s.keys[scope].groupIDs, key.groupIDs);
    forall id | id in key.groupIDs
      ensures FindGroup(s.groups, id) == FindGroup(rest, id)
    {
      FindRemainingGroup(s.groups, i, id);
    }
    SameTrouble(s.groups, rest, key.groupIDs);
  }

  lemma GroupDeletedIsWellBound(s: Snapshot, i: nat)
    requires WellBound(s) && i < |s.groups|
    ensures WellBound(GroupDeleted(s, i))
  {
    hide GoodGroup, GoodRoutes, GoodGroups, GoodKey, FindGroup, UngroupedKey, BindingsEdited;
    RemainingGroupsAreGood(s.routes, s.groups, i);
    var f := (scope, key) => UngroupedKey(s.groups[i].id, scope, key);
    forall scope | scope in s.keys
      ensures GoodKey(s.routes, s.groups[..i] + s.groups[i + 1..], f(scope, s.keys[scope]))
    {
      UngroupedKeyIsGood(s, i, scope);
    }
    EditIsWellBound(s, s.routes, s.groups[..i] + s.groups[i + 1..], f);
  }

  /** DeleteGroup: no key, deleted or not, is left bound to it. */
  method DeleteGroup(store: S.Store, id: string, fails: bool) returns (ok: bool)
    requires store.Valid() && WellBound(store.Memory())
    modifies store`state, store`dirty, store`unsavedNormal, store`unsavedErrors, store.repo
    ensures store.Valid() && WellBound(store.Memory())
    ensures store.Kept(old(store.Held()), ok)
    ensures var s, index := old(store.Memory()), GroupIndex(old(store.Memory()).groups, Trim(id));
            && ok == (index.Some? && !fails)
            && store.Memory() == if ok then GroupDeleted(s, index.value) else s
  {
    hide WellBound, Separate, S.Agrees, KeysOf, Merge, BindingsEdited, Trim, UngroupedKey, GroupIndex;
    var s := store.Memory();
    var index := GroupIndex(s.groups, Trim(id));
    if index.None? { return false; }
    var i := index.value;
    GroupDeletedIsWellBound(s, i);
    var f := (scope, key) => UngroupedKey(s.groups[i].id, scope, key);
    ok := EditDiffering(store, s.routes, s.groups[..i] + s.groups[i + 1..], f, NO_CHANGES.(groups := true), fails);
  }

  // ----- A key's groups ---------------------------------------------------------------

  predicate GroupsExist(groups: seq<Group>, ids: seq<string>) {
    forall i :: 0 <= i < |ids| ==> FindGroup(groups, ids[i]).Some?
  }

  function GroupedKey(ids: seq<string>, bound: set<string>, scope: string, key: Key): Key {
    if scope in bound then WithGroups(key, ids) else key
  }

  ghost function KeysGrouped(s: Snapshot, ids: seq<string>, bound: set<string>): Snapshot {
    BindingsEdited(s, s.routes, s.groups, (scope, key) => GroupedKey(ids, bound, scope, key))
  }

  /** The groups the keys will have: existing ones, no two of them enabled and exclusive. */
  function Grouping(s: Snapshot, scopes: seq<string>, groupIDs: seq<string>): (r: Result<seq<string>>)
    ensures r.Ok? ==> scopes != [] && EffectiveGroups(s.groups, r.value).Ok?
  {
    if scopes == [] then Err("Select at least one API key") else
    match Names(groupIDs)
    case Err(reason) => Err(reason)
    case Ok(ids) =>
      if !GroupsExist(s.groups, ids) then Err("Group does not exist")
      else if !AllLive(s, scopes) then Err("API key does not exist")
      else if EffectiveGroups(s.groups, ids).Err? then Err("An API key can belong to only one enabled exclusive group")
      else Ok(ids)
  }

  lemma KeysGroupedIsWellBound(s: Snapshot, ids: seq<string>, bound: set<string>)
    requires WellBound(s) && EffectiveGroups(s.groups, ids).Ok?
    ensures WellBound(KeysGrouped(s, ids, bound))
  {
    hide GoodRoutes, GoodGroups, EffectiveGroups, BindingsEdited, Troubled, SoundRule, RoutesBound;
    GoodGroupsAreNamed(s.routes, s.groups);
    EffectiveGroupsMean(s.groups, ids);
    var f := (scope, key) => GroupedKey(ids, bound, scope, key);
    forall scope | scope in s.keys
      ensures GoodKey(s.routes, s.groups, f(scope, s.keys[scope]))
    {
      assert GoodKey(s.routes, s.groups, s.keys[scope]);
    }
    EditIsWellBound(s, s.routes, s.groups, f);
  }

  /** SetKeyGroups: all the keys named get exactly these groups, or none changes. */
  method SetKeyGroups(store: S.Store, scopes: seq<string>, groupIDs: seq<string>, fails: bool) returns (ok: bool)
    requires store.Valid() && WellBound(store.Memory())
    modifies store`state, store`dirty, store`unsavedNormal, store`unsavedErrors, store.repo
    ensures store.Valid() && WellBound(store.Memory())
    ensures store.Kept(old(store.Held()), ok)
    ensures var s, names := old(store.Memory()), NormalizeScopes(scopes);
            && ok == (Grouping(s, names, groupIDs).Ok? && !fails)
            && store.Memory() == if ok then KeysGrouped(s, Grouping(s, names, groupIDs).value, SetOf(names)) else s
  {
    hide WellBound, Separate, S.Agrees, KeysOf, Merge, BindingsEdited, NormalizeScopes, Grouping, EffectiveGroups;
    var s, names := store.Memory(), NormalizeScopes(scopes);
    var grouping := Grouping(s, names, groupIDs);
    if grouping.Err? { return false; }
    var ids, bound := grouping.value, SetOf(names);
    KeysGroupedIsWellBound(s, ids, bound);
    var f := (scope, key) => GroupedKey(ids, bound, scope, key);
    ok := EditBindings(store, s.routes, s.groups, f, NO_CHANGES.(keys := names), fails);
  }

  // ----- Settings ---------------------------------------------------------------------

  /** SetAccessControl touches no binding. */
  method SetAccessControl(store: S.Store, settings: AccessControl, fails: bool) returns (ok: bool)
    requires store.Valid() && WellBound(store.Memory())
    modifies store`state, store`dirty, store`unsavedNormal, store`unsavedErrors, store.repo
    ensures store.Valid() && WellBound(store.Memory())
    ensures store.Kept(old(store.Held()), ok)
    ensures ok == !fails
    ensures store.Memory() == if ok then old(store.Memory()).(access := settings) else old(store.Memory())
  {
    hide WellBound, Separate, S.Agrees, KeysOf, Merge, S.Covers;
    var s := store.Memory();
    var f := (scope: string, key: Key) => key;
    var c := NO_CHANGES.(access := true);
    SettingsCovered(s, settings, f);
    OtherEditsKeepBindings(s, s.(access := settings));
    MergeIsEmpty(store.dirty, c);
    ok := store.Edit(s.plans, s.routes, s.groups, settings, f, c, fails);
  }

  lemma SettingsCovered(s: Snapshot, settings: AccessControl, f: (string, Key) -> Key)
    requires forall scope, key :: f(scope, key) == key
    ensures S.Edited(s, s.plans, s.routes, s.groups, settings, f) == s.(access := settings)
    ensures S.Covers(s, s.(access := settings), NO_CHANGES.(access := true))
  {
    assert S.Rewritten(s.keys, f) == s.keys;
  }
}
