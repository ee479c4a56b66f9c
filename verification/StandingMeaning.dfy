/**
  Which standing a stored key has, in the terms of the stored records alone: when nothing manages
  it, when it is refused, when its configuration is broken, and what a managed one is held to.
 */
module StandingMeaning {
  import opened Text
  import opened Model
  import opened Routing
  import opened AccessMeaning

  // ----- Stored groups --------------------------------------------------------------------

  /** The rule lists something in one of its six dimensions. */
  ghost predicate Lists(rule: RouteRule) {
    || |rule.models| > 0 || |rule.ids| > 0 || |rule.providers| > 0
    || |rule.deniedModels| > 0 || |rule.deniedIds| > 0 || |rule.deniedProviders| > 0
  }

  /** The group binds a route or lists something itself. */
  ghost predicate Grants(group: Group) {
    |group.routeIDs| > 0 || Lists(group.rule)
  }

  ghost predicate ExclusiveGroup(group: Group) {
    !group.disabled && Trim(group.mode) == "exclusive"
  }

  ghost predicate OrdinaryGroup(group: Group) {
    Trim(group.mode) == "" || Trim(group.mode) == "ordinary"
  }

  ghost predicate KnownMode(group: Group) {
    OrdinaryGroup(group) || Trim(group.mode) == "common" || Trim(group.mode) == "exclusive"
  }

  /** One of the key's groups, enabled, and not an ordinary one beside an exclusive one. */
  ghost predicate Participates(all: seq<Group>, ids: seq<string>, group: Group) {
    && (exists id :: id in ids && FindGroup(all, id) == Some(group)) && !group.disabled && KnownMode(group)
    && (OrdinaryGroup(group) ==> forall id :: id in ids && FindGroup(all, id).Some? ==> !ExclusiveGroup(FindGroup(all, id).value))
  }

  /** A group is missing or of no known mode, or two are exclusive. */
  ghost predicate Muddled(all: seq<Group>, ids: seq<string>) {
    || (exists id :: id in ids && FindGroup(all, id).None?)
    || (exists id :: id in ids && FindGroup(all, id).Some? && !FindGroup(all, id).value.disabled && !KnownMode(FindGroup(all, id).value))
    || (exists a, b :: a in ids && b in ids && a != b && FindGroup(all, a).Some? && FindGroup(all, b).Some? &&
                       ExclusiveGroup(FindGroup(all, a).value) && ExclusiveGroup(FindGroup(all, b).value))
  }

  ghost predicate Ungrouped(key: Option<Key>) {
    key.None? || |key.value.groupIDs| == 0
  }

  ghost predicate RouteStored(routes: seq<Route>, id: string) {
    exists route :: route in routes && route.id == Trim(id)
  }

  /** Some route bound to the key, or to a group that takes part, is not stored. */
  ghost predicate Dangles(routes: seq<Route>, all: seq<Group>, key: Key) {
    || (exists id :: id in key.bindings.routeIDs && !RouteStored(routes, id))
    || (exists group, id :: Participates(all, key.groupIDs, group) && id in group.routeIDs && !RouteStored(routes, id))
  }

  // ----- The groups the code selects --------------------------------------------------------

  lemma ModesMean(group: Group)
    ensures NormalizeMode(group.mode).Ok? <==> KnownMode(group)
    ensures NormalizeMode(group.mode) == Ok(EXCLUSIVE) <==> Trim(group.mode) == "exclusive"
    ensures NormalizeMode(group.mode) == Ok(ORDINARY) <==> OrdinaryGroup(group)
  {
    hide Trim;
  }

  lemma ListingIsNotEmpty(rule: RouteRule)
    ensures Lists(rule) <==> !rule.Empty()
  {
  }

  lemma MuddleIsTrouble(all: seq<Group>, ids: seq<string>)
    ensures Muddled(all, ids) <==> Troubled(all, ids)
  {
    hide NormalizeMode, KnownMode, Trim, FindGroup;
    forall group: Group
      ensures NormalizeMode(group.mode).Ok? <==> KnownMode(group)
      ensures IsOkExclusive(group) <==> Trim(group.mode) == "exclusive"
    {
      ModesMean(group);
    }
  }

  ghost predicate IsOkExclusive(group: Group) {
    NormalizeMode(group.mode) == Ok(EXCLUSIVE)
  }

  /** The group as the selection returns it: a stored one that takes part, with its mode filled in. */
  ghost predicate FilledIn(all: seq<Group>, ids: seq<string>, x: Group) {
    exists group :: Participates(all, ids, group) && NormalizeMode(group.mode).Ok? && x == group.(mode := NormalizeMode(group.mode).value)
  }

  /** The effective groups are the stored ones that take part, with their modes filled in. */
  lemma EffectiveAreParticipants(all: seq<Group>, ids: seq<string>)
    requires Named(all)
    ensures EffectiveGroups(all, ids).Err? <==> Muddled(all, ids)
    ensures EffectiveGroups(all, ids).Ok? ==>
              forall x :: x in EffectiveGroups(all, ids).value <==> FilledIn(all, ids, x)
  {
    hide EffectiveGroups, Troubled, Muddled, FindGroup, NormalizeMode, KnownMode, OrdinaryGroup, ExclusiveGroup;
    EffectiveGroupsMean(all, ids);
    MuddleIsTrouble(all, ids);
    if EffectiveGroups(all, ids).Ok? {
      forall x
        ensures (exists id :: TakesPart(all, ids, id) && x == Normalized(all, id)) <==> FilledIn(all, ids, x)
      {
        if id :| TakesPart(all, ids, id) && x == Normalized(all, id) {
          TakesPartMeans(all, ids, id);
          assert Participates(all, ids, FindGroup(all, id).value);
        }
        if group :| Participates(all, ids, group) && NormalizeMode(group.mode).Ok? && x == group.(mode := NormalizeMode(group.mode).value) {
          var id :| id in ids && FindGroup(all, id) == Some(group);
          TakesPartMeans(all, ids, id);
          assert TakesPart(all, ids, id);
        }
      }
    }
  }

  lemma TakesPartMeans(all: seq<Group>, ids: seq<string>, id: string)
    requires id in ids && FindGroup(all, id).Some?
    ensures TakesPart(all, ids, id) <==> Participates(all, ids, FindGroup(all, id).value)
  {
    hide FindGroup, NormalizeMode, KnownMode, OrdinaryGroup, Trim;
    ModesMean(FindGroup(all, id).value);
    forall other | other in ids && FindGroup(all, other).Some?
      ensures IsExclusive(all, other) <==> ExclusiveGroup(FindGroup(all, other).value)
    {
      ModesMean(FindGroup(all, other).value);
    }
  }

  // ----- The standing -----------------------------------------------------------------------

  /** Who grants, in the code's terms and in the stored ones. */
  lemma GrantsMean(all: seq<Group>, ids: seq<string>, groups: seq<Group>)
    requires Named(all) && EffectiveGroups(all, ids) == Ok(groups)
    ensures AnyGrantsAccess(groups) <==> exists group :: Participates(all, ids, group) && Grants(group)
    ensures HasExclusive(groups) <==> exists group :: Participates(all, ids, group) && ExclusiveGroup(group)
  {
    hide EffectiveGroups, Participates, NormalizeMode, RouteRule.Empty, Lists, KnownMode;
    EffectiveAreParticipants(all, ids);
    if AnyGrantsAccess(groups) {
      var i :| 0 <= i < |groups| && GrantsAccess(groups[i]);
      var group := StoredFor(all, ids, groups, groups[i]);
      ListingIsNotEmpty(group.rule);
    }
    if HasExclusive(groups) {
      var i :| 0 <= i < |groups| && groups[i].mode == EXCLUSIVE;
      var group := StoredFor(all, ids, groups, groups[i]);
      ModesMean(group);
      ParticipantsAreEnabled(all, ids, group);
    }
    forall group | Participates(all, ids, group)
      ensures Grants(group) ==> AnyGrantsAccess(groups)
      ensures ExclusiveGroup(group) ==> HasExclusive(groups)
    {
      var i := EffectiveFor(all, ids, groups, group);
      ListingIsNotEmpty(group.rule);
      ModesMean(group);
    }
  }

  lemma ParticipantsAreEnabled(all: seq<Group>, ids: seq<string>, group: Group)
    requires Participates(all, ids, group)
    ensures !group.disabled && KnownMode(group)
  {
  }

  lemma StoredFor(all: seq<Group>, ids: seq<string>, groups: seq<Group>, x: Group) returns (group: Group)
    requires Named(all) && EffectiveGroups(all, ids) == Ok(groups) && x in groups
    ensures Participates(all, ids, group) && NormalizeMode(group.mode).Ok? && x == group.(mode := NormalizeMode(group.mode).value)
  {
    hide EffectiveGroups, Participates, NormalizeMode;
    EffectiveAreParticipants(all, ids);
    assert FilledIn(all, ids, x);
    group :| Participates(all, ids, group) && NormalizeMode(group.mode).Ok? && x == group.(mode := NormalizeMode(group.mode).value);
  }

  lemma EffectiveFor(all: seq<Group>, ids: seq<string>, groups: seq<Group>, group: Group) returns (i: nat)
    requires Named(all) && EffectiveGroups(all, ids) == Ok(groups) && Participates(all, ids, group)
    ensures NormalizeMode(group.mode).Ok? && i < |groups| && groups[i] == group.(mode := NormalizeMode(group.mode).value)
  {
    ParticipantsAreEnabled(all, ids, group);
    ModesMean(group);
    hide EffectiveGroups, Participates, NormalizeMode;
    EffectiveAreParticipants(all, ids);
    var x := group.(mode := NormalizeMode(group.mode).value);
    assert FilledIn(all, ids, x) && x in groups;
    i :| i < |groups| && groups[i] == x;
  }

  lemma RoutesStored(routes: seq<Route>, ids: seq<string>)
    ensures RoutesExist(routes, ids) <==> forall id :: id in ids ==> RouteStored(routes, id)
  {
    hide FindRoute, RouteStored;
    forall id | id in ids
      ensures FindRoute(routes, id).Some? <==> RouteStored(routes, id)
    {
      StoredIsFound(routes, id);
    }
  }

  lemma StoredIsFound(routes: seq<Route>, id: string)
    ensures FindRoute(routes, id).Some? <==> RouteStored(routes, id)
  {
    hide Trim;
  }

  lemma DanglingMeans(routes: seq<Route>, all: seq<Group>, key: Key, groups: seq<Group>)
    requires Named(all) && EffectiveGroups(all, key.groupIDs) == Ok(groups)
    ensures Dangles(routes, all, key) <==> !GroupRoutesExist(routes, groups) || !RoutesExist(routes, key.bindings.routeIDs)
  {
    hide EffectiveGroups, Participates, NormalizeMode, RouteStored, RoutesExist;
    RoutesStored(routes, key.bindings.routeIDs);
    if !GroupRoutesExist(routes, groups) {
      var i :| 0 <= i < |groups| && !RoutesExist(routes, groups[i].routeIDs);
      var group := StoredFor(all, key.groupIDs, groups, groups[i]);
      RoutesStored(routes, group.routeIDs);
    }
    if group, id :| Participates(all, key.groupIDs, group) && id in group.routeIDs && !RouteStored(routes, id) {
      var i := EffectiveFor(all, key.groupIDs, groups, group);
      RoutesStored(routes, group.routeIDs);
      assert !RoutesExist(routes, groups[i].routeIDs);
    }
  }

  /** Nothing is managed exactly while access control is off, or for an unknown key that need not be in a group. */
  lemma UnmanagedExactly(s: Snapshot, key: Option<Key>)
    ensures StandingOf(s, key).Unmanaged? <==> !s.access.enabled || (key.None? && !s.access.denyUngrouped)
  {
    hide EffectiveGroups;
  }

  /**
    A key is refused exactly when it has no group although one is demanded, or has groups, in
    order, none of which takes part and binds a route or lists anything.
   */
  lemma RefusedExactly(s: Snapshot, key: Option<Key>)
    requires Named(s.groups)
    ensures StandingOf(s, key).Refused? <==>
            && s.access.enabled
            && (|| (s.access.denyUngrouped && Ungrouped(key))
                || (&& !Ungrouped(key) && !Muddled(s.groups, key.value.groupIDs)
                    && forall group :: Participates(s.groups, key.value.groupIDs, group) ==> !Grants(group)))
  {
    hide EffectiveGroups, AnyGrantsAccess, GroupRoutesExist, RoutesExist, Participates, Muddled, Grants, HasExclusive, Constrained, GrantContents;
    if key.Some? {
      var all, ids := s.groups, key.value.groupIDs;
      EffectiveAreParticipants(all, ids);
      if EffectiveGroups(all, ids).Ok? { GrantsMean(all, ids, EffectiveGroups(all, ids).value); }
    }
  }

  /** Its configuration is broken exactly when its groups are, or when, unless it is refused, a bound route is not stored. */
  lemma BrokenExactly(s: Snapshot, key: Option<Key>)
    requires Named(s.groups)
    ensures StandingOf(s, key).Broken? <==>
            && s.access.enabled && key.Some? && !(s.access.denyUngrouped && Ungrouped(key))
            && (|| Muddled(s.groups, key.value.groupIDs)
                || (Dangles(s.routes, s.groups, key.value) &&
                    (Ungrouped(key) || exists group :: Participates(s.groups, key.value.groupIDs, group) && Grants(group))))
  {
    hide EffectiveGroups, AnyGrantsAccess, GroupRoutesExist, RoutesExist, Participates, Muddled, Grants, Dangles, HasExclusive, Constrained, GrantContents;
    if key.Some? {
      var all, ids := s.groups, key.value.groupIDs;
      EffectiveAreParticipants(all, ids);
      if EffectiveGroups(all, ids).Ok? {
        var groups := EffectiveGroups(all, ids).value;
        GrantsMean(all, ids, groups);
        DanglingMeans(s.routes, all, key.value, groups);
        if |ids| == 0 { NobodyTakesPart(all, ids); }
      }
    }
  }

  lemma NobodyTakesPart(all: seq<Group>, ids: seq<string>)
    requires |ids| == 0
    ensures forall group :: !Participates(all, ids, group)
  {
  }

  /**
    What a managed key is held to: the groups that take part grant, and beside them the key's own
    rule and routes unless an exclusive group takes part; then these only limit the key.
   */
  lemma ManagedMeans(s: Snapshot, key: Option<Key>)
    requires Named(s.groups) && StandingOf(s, key).Managed?
    ensures key.Some?
    ensures var st, k := StandingOf(s, key), key.value;
            var own := GrantContents(s.routes, Grant(k.bindings.routeIDs, k.bindings.rule));
            && st.own == own
            && (st.exclusive <==> exists group :: Participates(s.groups, k.groupIDs, group) && ExclusiveGroup(group))
            && (forall c :: c in st.grants <==>
                  || (c == own && !st.exclusive)
                  || exists group :: Participates(s.groups, k.groupIDs, group) && c == GrantContents(s.routes, Grant(group.routeIDs, group.rule)))
            && (st.requireAllowlist <==> k.bindings.configured || |k.groupIDs| > 0 || |k.bindings.routeIDs| > 0 || Lists(k.bindings.rule))
            && (st.constrained <==>
                  && st.exclusive
                  && (|| (k.bindings.configured && (|k.bindings.routeIDs| > 0 || Lists(k.bindings.rule)))
                      || own.ids != {} || own.providers != {}))
  {
    hide EffectiveGroups, AnyGrantsAccess, GroupRoutesExist, RoutesExist, Participates, HasExclusive, GrantContents, RouteRule.Empty, Lists, ExclusiveGroup;
    var k := key.value;
    var groups := EffectiveGroups(s.groups, k.groupIDs).value;
    var st := StandingOf(s, key);
    GrantsMean(s.groups, k.groupIDs, groups);
    ListingIsNotEmpty(k.bindings.rule);
    var own := GrantContents(s.routes, OwnGrant(k));
    forall c
      ensures c in GrantsOfGroups(s.routes, groups) <==>
              exists group :: Participates(s.groups, k.groupIDs, group) && c == GrantContents(s.routes, Grant(group.routeIDs, group.rule))
    {
      GroupGrantsMean(s.routes, s.groups, k.groupIDs, groups, c);
    }
  }

  lemma GroupGrantsMean(routes: seq<Route>, all: seq<Group>, ids: seq<string>, groups: seq<Group>, c: Contents)
    requires Named(all) && EffectiveGroups(all, ids) == Ok(groups)
    ensures c in GrantsOfGroups(routes, groups) <==>
            exists group :: Participates(all, ids, group) && c == GrantContents(routes, Grant(group.routeIDs, group.rule))
  {
    hide EffectiveGroups, Participates, GrantContents;
    var grants := GrantsOfGroups(routes, groups);
    if c in grants {
      var i :| 0 <= i < |grants| && grants[i] == c;
      var group := StoredFor(all, ids, groups, groups[i]);
      assert c == GrantContents(routes, Grant(group.routeIDs, group.rule));
    }
    if group :| Participates(all, ids, group) && c == GrantContents(routes, Grant(group.routeIDs, group.rule)) {
      var i := EffectiveFor(all, ids, groups, group);
      assert grants[i] == c;
    }
  }
}
