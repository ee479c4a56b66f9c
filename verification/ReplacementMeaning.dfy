/**
  Credential replacement commutes with access resolution: a key's standing after the
  migration is its old standing with the references replaced, so a replacement inherits
  exactly the decisions of the credential it stands in for.
 */
module ReplacementMeaning {
  import opened Text
  import opened Model
  import opened Routing
  import opened CredentialMigration

  // ----- Standings after a migration --------------------------------------------------

  ghost function MovedContents(mapping: Mapping, complete: bool, c: Contents): Contents {
    c.(ids := Moved(mapping, complete, c.ids), deniedIds := Moved(mapping, complete, c.deniedIds))
  }

  ghost function MovedGrants(mapping: Mapping, complete: bool, grants: seq<Contents>): (r: seq<Contents>)
    ensures |r| == |grants| && forall i :: 0 <= i < |r| ==> r[i] == MovedContents(mapping, complete, grants[i])
  {
    seq(|grants|, i requires 0 <= i < |grants| => MovedContents(mapping, complete, grants[i]))
  }

  ghost function MovedStanding(mapping: Mapping, complete: bool, s: Standing): Standing {
    if s.Managed? then
      s.(grants := MovedGrants(mapping, complete, s.grants), own := MovedContents(mapping, complete, s.own))
    else s
  }

  lemma MovedUnion(mapping: Mapping, complete: bool, a: set<string>, b: set<string>)
    ensures Moved(mapping, complete, a + b) == Moved(mapping, complete, a) + Moved(mapping, complete, b)
  {
    forall x
      ensures x in Moved(mapping, complete, a + b) <==> x in Moved(mapping, complete, a) + Moved(mapping, complete, b)
    {
      if o :| o in a + b && o in mapping && mapping[o] == x {
        assert o in a || o in b;
      }
    }
  }

  lemma MovedPlus(mapping: Mapping, complete: bool, a: Contents, b: Contents)
    ensures MovedContents(mapping, complete, a.Plus(b)) == MovedContents(mapping, complete, a).Plus(MovedContents(mapping, complete, b))
  {
    hide Moved;
    MovedUnion(mapping, complete, a.ids, b.ids);
    MovedUnion(mapping, complete, a.deniedIds, b.deniedIds);
  }

  lemma MovedNothing(mapping: Mapping, complete: bool)
    ensures MovedContents(mapping, complete, NO_CONTENTS) == NO_CONTENTS
  {
  }

  lemma ListMoves(mapping: Mapping, complete: bool, values: seq<string>)
    ensures SetOf(Migrated(mapping, complete, values)) == Moved(mapping, complete, SetOf(values))
  {
    hide Migrated, Moved;
    MigratedElements(mapping, complete, values);
    assert SetOf(values) == set v | v in values;
  }

  lemma RuleMoves(mapping: Mapping, complete: bool, rule: RouteRule)
    ensures ContentsOf(MigratedRule(mapping, complete, rule)) == MovedContents(mapping, complete, ContentsOf(rule))
  {
    hide Migrated, Moved, SetOf;
    ListMoves(mapping, complete, rule.ids);
    ListMoves(mapping, complete, rule.deniedIds);
  }

  lemma RuleStaysEmpty(mapping: Mapping, complete: bool, rule: RouteRule)
    requires NoChains(mapping)
    ensures MigratedRule(mapping, complete, rule).Empty() <==> rule.Empty()
  {
    hide Migrated;
    NeverEmptied(mapping, complete, rule.ids);
    NeverEmptied(mapping, complete, rule.deniedIds);
  }

  lemma {:induction false} RouteMoves(mapping: Mapping, complete: bool, routes: seq<Route>, id: string)
    ensures var r := FindRoute(routes, id);
            FindRoute(MigratedRoutes(mapping, complete, routes), id) ==
            if r.Some? then Some(MigratedRoute(mapping, complete, r.value)) else None
  {
    hide MigratedRule, Trim;
    if routes != [] {
      RouteMoves(mapping, complete, routes[1..], id);
      assert MigratedRoutes(mapping, complete, routes)[1..] == MigratedRoutes(mapping, complete, routes[1..]);
    }
  }

  lemma {:induction false} GroupMoves(mapping: Mapping, complete: bool, groups: seq<Group>, id: string)
    ensures var g := FindGroup(groups, id);
            FindGroup(MigratedGroups(mapping, complete, groups), id) ==
            if g.Some? then Some(MigratedGroup(mapping, complete, g.value)) else None
  {
    hide MigratedRule;
    if groups != [] {
      GroupMoves(mapping, complete, groups[1..], id);
      assert MigratedGroups(mapping, complete, groups)[1..] == MigratedGroups(mapping, complete, groups[1..]);
    }
  }

  lemma {:induction false} RoutesMove(mapping: Mapping, complete: bool, routes: seq<Route>, ids: seq<string>, n: nat)
    requires n <= |ids|
    ensures RoutesTo(MigratedRoutes(mapping, complete, routes), ids, n) == MovedContents(mapping, complete, RoutesTo(routes, ids, n))
  {
    hide ContentsOf, MovedContents, MigratedRoutes, MigratedRule, Contents.Plus, FindRoute;
    MovedNothing(mapping, complete);
    if n > 0 {
      RoutesMove(mapping, complete, routes, ids, n - 1);
      RouteMoves(mapping, complete, routes, ids[n - 1]);
      var r := FindRoute(routes, ids[n - 1]);
      if r.Some? { RuleMoves(mapping, complete, r.value.rule); }
      MovedPlus(mapping, complete, RoutesTo(routes, ids, n - 1), RouteContents(routes, ids[n - 1]));
    }
  }

  lemma GrantMoves(mapping: Mapping, complete: bool, routes: seq<Route>, grant: Grant)
    ensures GrantContents(MigratedRoutes(mapping, complete, routes), grant.(rule := MigratedRule(mapping, complete, grant.rule))) ==
            MovedContents(mapping, complete, GrantContents(routes, grant))
  {
    hide ContentsOf, MovedContents, MigratedRoutes, MigratedRule, Contents.Plus, RoutesTo;
    RuleMoves(mapping, complete, grant.rule);
    RoutesMove(mapping, complete, routes, grant.routeIDs, |grant.routeIDs|);
    MovedPlus(mapping, complete, ContentsOf(grant.rule), RoutesTo(routes, grant.routeIDs, |grant.routeIDs|));
  }

  lemma RoutesStillExist(mapping: Mapping, complete: bool, routes: seq<Route>, ids: seq<string>)
    ensures RoutesExist(MigratedRoutes(mapping, complete, routes), ids) <==> RoutesExist(routes, ids)
  {
    hide MigratedRoutes, MigratedRoute, FindRoute;
    forall i | 0 <= i < |ids|
      ensures FindRoute(MigratedRoutes(mapping, complete, routes), ids[i]).Some? <==> FindRoute(routes, ids[i]).Some?
    {
      RouteMoves(mapping, complete, routes, ids[i]);
    }
  }

  // ----- The same groups take part ----------------------------------------------------

  function MovedGathered(mapping: Mapping, complete: bool, g: Result<Gathered>): Result<Gathered> {
    match g
    case Err(reason) => Err(reason)
    case Ok(found) => Ok(found.(groups := MigratedGroups(mapping, complete, found.groups)))
  }

  lemma {:induction false} GatherMoves(mapping: Mapping, complete: bool, all: seq<Group>, ids: seq<string>, n: nat)
    requires n <= |ids|
    ensures GatherTo(MigratedGroups(mapping, complete, all), ids, n) == MovedGathered(mapping, complete, GatherTo(all, ids, n))
  {
    hide GatherOne, MigratedGroup;
    if n > 0 {
      GatherMoves(mapping, complete, all, ids, n - 1);
      if GatherTo(all, ids, n - 1).Ok? {
        GatherOneMoves(mapping, complete, all, GatherTo(all, ids, n - 1).value, ids[n - 1]);
      }
    }
  }

  lemma GatherOneMoves(mapping: Mapping, complete: bool, all: seq<Group>, sofar: Gathered, id: string)
    ensures GatherOne(MigratedGroups(mapping, complete, all), sofar.(groups := MigratedGroups(mapping, complete, sofar.groups)), id) ==
            MovedGathered(mapping, complete, GatherOne(all, sofar, id))
  {
    hide MigratedRule, NormalizeMode, FindGroup;
    GroupMoves(mapping, complete, all, id);
    var found := FindGroup(all, id);
    if found.Some? && !found.value.disabled && NormalizeMode(found.value.mode).Ok? {
      var group := found.value.(mode := NormalizeMode(found.value.mode).value);
      assert MigratedGroups(mapping, complete, sofar.groups + [group]) ==
             MigratedGroups(mapping, complete, sofar.groups) + [MigratedGroup(mapping, complete, group)];
    }
  }

  lemma {:induction false} OrdinaryMoves(mapping: Mapping, complete: bool, groups: seq<Group>)
    ensures WithoutOrdinary(MigratedGroups(mapping, complete, groups)) == MigratedGroups(mapping, complete, WithoutOrdinary(groups))
  {
    hide MigratedRule;
    if groups != [] {
      var front, last := groups[..|groups| - 1], groups[|groups| - 1];
      OrdinaryMoves(mapping, complete, front);
      assert MigratedGroups(mapping, complete, groups)[..|groups| - 1] == MigratedGroups(mapping, complete, front);
      assert MigratedGroups(mapping, complete, WithoutOrdinary(front) + [last]) ==
             MigratedGroups(mapping, complete, WithoutOrdinary(front)) + [MigratedGroup(mapping, complete, last)];
    }
  }

  lemma EffectiveGroupsMove(mapping: Mapping, complete: bool, all: seq<Group>, ids: seq<string>)
    ensures var g := EffectiveGroups(all, ids);
            EffectiveGroups(MigratedGroups(mapping, complete, all), ids) ==
            if g.Ok? then Ok(MigratedGroups(mapping, complete, g.value)) else Err(g.reason)
  {
    hide GatherTo, MigratedGroups, WithoutOrdinary;
    GatherMoves(mapping, complete, all, ids, |ids|);
    if GatherTo(all, ids, |ids|).Ok? {
      OrdinaryMoves(mapping, complete, GatherTo(all, ids, |ids|).value.groups);
    }
  }

  lemma GroupFactsMove(mapping: Mapping, complete: bool, routes: seq<Route>, groups: seq<Group>)
    requires NoChains(mapping)
    ensures var routes', groups' := MigratedRoutes(mapping, complete, routes), MigratedGroups(mapping, complete, groups);
            && (AnyGrantsAccess(groups') <==> AnyGrantsAccess(groups))
            && (HasExclusive(groups') <==> HasExclusive(groups))
            && (GroupRoutesExist(routes', groups') <==> GroupRoutesExist(routes, groups))
  {
    hide MigratedRule, RouteRule.Empty, RoutesExist, MigratedRoutes;
    var groups' := MigratedGroups(mapping, complete, groups);
    forall i | 0 <= i < |groups|
      ensures groups'[i].mode == groups[i].mode && (GrantsAccess(groups'[i]) <==> GrantsAccess(groups[i]))
      ensures RoutesExist(MigratedRoutes(mapping, complete, routes), groups'[i].routeIDs) <==> RoutesExist(routes, groups[i].routeIDs)
    {
      RuleStaysEmpty(mapping, complete, groups[i].rule);
      RoutesStillExist(mapping, complete, routes, groups[i].routeIDs);
    }
  }

  lemma GrantsMove(mapping: Mapping, complete: bool, routes: seq<Route>, groups: seq<Group>)
    ensures GrantsOfGroups(MigratedRoutes(mapping, complete, routes), MigratedGroups(mapping, complete, groups)) ==
            MovedGrants(mapping, complete, GrantsOfGroups(routes, groups))
  {
    hide MigratedRule, MigratedRoutes, GrantContents, MovedContents;
    var a := GrantsOfGroups(MigratedRoutes(mapping, complete, routes), MigratedGroups(mapping, complete, groups));
    forall i | 0 <= i < |groups|
      ensures a[i] == MovedGrants(mapping, complete, GrantsOfGroups(routes, groups))[i]
    {
      GrantMoves(mapping, complete, routes, GrantOf(groups[i]));
    }
  }

  lemma ConstraintMoves(mapping: Mapping, complete: bool, routes: seq<Route>, key: Key)
    requires NoChains(mapping)
    ensures Constrained(MigratedRoutes(mapping, complete, routes), MigratedKey(mapping, complete, key)) <==> Constrained(routes, key)
  {
    hide MigratedRule, MigratedRoutes, GrantContents, Moved, RouteRule.Empty;
    GrantMoves(mapping, complete, routes, OwnGrant(key));
    RuleStaysEmpty(mapping, complete, key.bindings.rule);
  }

  lemma GroupedStandingMoves(mapping: Mapping, complete: bool, routes: seq<Route>, groups: seq<Group>, key: Key)
    requires NoChains(mapping)
    ensures GroupedStanding(MigratedRoutes(mapping, complete, routes), MigratedGroups(mapping, complete, groups), MigratedKey(mapping, complete, key)) ==
            MovedStanding(mapping, complete, GroupedStanding(routes, groups, key))
  {
    hide MigratedRule, MigratedRoutes, MigratedGroups, GrantContents, GrantsOfGroups, Constrained, AnyGrantsAccess, HasExclusive,
         GroupRoutesExist, RoutesExist, RouteRule.Empty, MovedContents;
    GroupFactsMove(mapping, complete, routes, groups);
    RoutesStillExist(mapping, complete, routes, key.bindings.routeIDs);
    GrantsMove(mapping, complete, routes, groups);
    GrantMoves(mapping, complete, routes, OwnGrant(key));
    ConstraintMoves(mapping, complete, routes, key);
    RuleStaysEmpty(mapping, complete, key.bindings.rule);
    var grants, own := GrantsOfGroups(routes, groups), GrantContents(routes, OwnGrant(key));
    assert MovedGrants(mapping, complete, grants + [own]) == MovedGrants(mapping, complete, grants) + [MovedContents(mapping, complete, own)];
    assert grants + [] == grants;
    assert MovedGrants(mapping, complete, grants) + [] == MovedGrants(mapping, complete, grants);
  }

  /** Resolving after the migration is migrating what was resolved before. */
  lemma StandingMoves(mapping: Mapping, complete: bool, order: seq<string>, s: Snapshot, scope: string)
    requires NoChains(mapping) && Enumerates(order, mapping) && scope in s.keys
    ensures var after := Replaced(mapping, complete, order, s);
            && scope in after.keys
            && StandingOf(after, Some(after.keys[scope])) == MovedStanding(mapping, complete, StandingOf(s, Some(s.keys[scope])))
  {
    hide MigratedRule, MigratedRoutes, MigratedGroups, EffectiveGroups, GroupedStanding, MoveAll;
    var key := s.keys[scope];
    EffectiveGroupsMove(mapping, complete, s.groups, key.groupIDs);
    var g := EffectiveGroups(s.groups, key.groupIDs);
    if g.Ok? { GroupedStandingMoves(mapping, complete, s.routes, g.value, key); }
  }

  // ----- Decisions after a migration --------------------------------------------------

  lemma {:induction false} TotalMoves(mapping: Mapping, complete: bool, grants: seq<Contents>, n: nat)
    requires n <= |grants|
    ensures TotalTo(MovedGrants(mapping, complete, grants), n) == MovedContents(mapping, complete, TotalTo(grants, n))
  {
    hide MovedContents, Contents.Plus;
    if n == 0 {
      MovedNothing(mapping, complete);
    } else {
      TotalMoves(mapping, complete, grants, n - 1);
      MovedPlus(mapping, complete, TotalTo(grants, n - 1), grants[n - 1]);
    }
  }

  /**
    Among the references listed, exactly those matching before turn into ones matching after,
    whether they stay as they are or are replaced.
   */
  ghost predicate Inherits(mapping: Mapping, complete: bool, listed: set<string>, after: string, before: string) {
    forall x :: x in listed ==>
                  ((EqualFold(x, after) && !(complete && x in mapping)) || (x in mapping && EqualFold(mapping[x], after)) <==>
                   EqualFold(x, before))
  }

  lemma InheritedMatches(mapping: Mapping, complete: bool, listed: set<string>, refs: set<string>, after: string, before: string)
    requires NoChains(mapping) && Inherits(mapping, complete, listed, after, before) && refs <= listed
    ensures Has(Moved(mapping, complete, refs), after) <==> Has(refs, before)
  {
    hide Lower;
    if x :| x in refs && EqualFold(x, before) {
      var y := if x in mapping && EqualFold(mapping[x], after) then mapping[x] else x;
      assert y in Moved(mapping, complete, refs) && EqualFold(y, after);
    }
    if y :| y in Moved(mapping, complete, refs) && EqualFold(y, after) {
      if y in refs {
        assert EqualFold(y, before);
      } else {
        var o :| o in refs && o in mapping && mapping[o] == y;
        assert EqualFold(o, before);
      }
    }
  }

  /** Every reference a standing mentions. */
  ghost function Mentioned(s: Standing): set<string>
    requires s.Managed?
  {
    var total := Total(s.grants);
    total.ids + total.deniedIds + s.own.ids + s.own.deniedIds
  }

  lemma {:induction false} PartOfTotal(grants: seq<Contents>, n: nat, i: nat)
    requires i < n <= |grants|
    ensures grants[i].ids <= TotalTo(grants, n).ids
  {
    if i < n - 1 { PartOfTotal(grants, n - 1, i); }
  }

  lemma OpensMoves(mapping: Mapping, complete: bool, grants: seq<Contents>)
    requires NoChains(mapping)
    ensures Opens(MovedGrants(mapping, complete, grants)) <==> Opens(grants)
    ensures forall p :: OpenProvider(MovedGrants(mapping, complete, grants), p) <==> OpenProvider(grants, p)
  {
    hide Moved;
    var moved := MovedGrants(mapping, complete, grants);
    forall i | 0 <= i < |grants|
      ensures moved[i].models == grants[i].models && moved[i].providers == grants[i].providers
      ensures moved[i].GrantsCredentials() <==> grants[i].GrantsCredentials()
      ensures moved[i] in moved && grants[i] in grants
    {
    }
    hide MovedGrants, Contents.GrantsCredentials;
    forall g | g in moved
      ensures exists i :: 0 <= i < |grants| && moved[i] == g
    {
    }
  }

  lemma OpenIdMoves(mapping: Mapping, complete: bool, s: Standing, after: string, before: string)
    requires NoChains(mapping) && s.Managed? && Inherits(mapping, complete, Mentioned(s), after, before)
    ensures OpenId(MovedGrants(mapping, complete, s.grants), after) <==> OpenId(s.grants, before)
  {
    hide Moved, Has, Inherits, TotalTo;
    var moved := MovedGrants(mapping, complete, s.grants);
    forall i | 0 <= i < |moved|
      ensures moved[i].models == s.grants[i].models && (Has(moved[i].ids, after) <==> Has(s.grants[i].ids, before))
      ensures moved[i] in moved && s.grants[i] in s.grants
    {
      PartOfTotal(s.grants, |s.grants|, i);
      InheritedMatches(mapping, complete, Mentioned(s), s.grants[i].ids, after, before);
    }
  }

  lemma ClosedMoves(mapping: Mapping, complete: bool, s: Standing)
    requires NoChains(mapping)
    ensures Closed(MovedStanding(mapping, complete, s)) <==> Closed(s)
  {
    hide Opens, Has, TotalTo, Moved;
    if s.Managed? {
      TotalMoves(mapping, complete, s.grants, |s.grants|);
      OpensMoves(mapping, complete, s.grants);
    }
  }

  lemma ModelsUntouched(mapping: Mapping, complete: bool, s: Standing, model: string)
    requires NoChains(mapping)
    ensures ModelPermitted(MovedStanding(mapping, complete, s), model) <==> ModelPermitted(s, model)
  {
    hide Opens, Has, TotalTo, Closed, Moved;
    ClosedMoves(mapping, complete, s);
    if s.Managed? {
      TotalMoves(mapping, complete, s.grants, |s.grants|);
      OpensMoves(mapping, complete, s.grants);
    }
  }

  lemma DenialsMove(mapping: Mapping, complete: bool, s: Standing, after: string, before: string, candidate: Selector)
    requires NoChains(mapping) && s.Managed? && Inherits(mapping, complete, Mentioned(s), after, before)
    ensures Denied(MovedStanding(mapping, complete, s), after, candidate) <==> Denied(s, before, candidate)
  {
    hide Moved, Has, Inherits, TotalTo;
    TotalMoves(mapping, complete, s.grants, |s.grants|);
    var t := Total(s.grants);
    MovedUnion(mapping, complete, t.deniedIds, s.own.deniedIds);
    InheritedMatches(mapping, complete, Mentioned(s), t.deniedIds + s.own.deniedIds, after, before);
  }

  lemma GrantedMoves(mapping: Mapping, complete: bool, s: Standing, model: string, after: string, before: string, candidate: Selector)
    requires NoChains(mapping) && s.Managed? && Inherits(mapping, complete, Mentioned(s), after, before)
    ensures Granted(MovedStanding(mapping, complete, s), model, after, candidate) <==> Granted(s, model, before, candidate)
  {
    hide Moved, Has, Inherits, TotalTo, Opens, OpenId, OpenProvider;
    TotalMoves(mapping, complete, s.grants, |s.grants|);
    OpensMoves(mapping, complete, s.grants);
    OpenIdMoves(mapping, complete, s, after, before);
    InheritedMatches(mapping, complete, Mentioned(s), Total(s.grants).ids, after, before);
  }

  lemma CredentialsMove(mapping: Mapping, complete: bool, s: Standing, model: string, after: string, before: string, source: string, provider: string)
    requires NoChains(mapping)
    requires s.Managed? ==> Inherits(mapping, complete, Mentioned(s), after, before)
    ensures CredentialPermitted(MovedStanding(mapping, complete, s), model, after, source, provider) <==>
            CredentialPermitted(s, model, before, source, provider)
  {
    hide Moved, Has, Inherits, Total, NothingInCommon, Denied, Granted, Described;
    ClosedMoves(mapping, complete, s);
    if s.Managed? {
      DenialsMove(mapping, complete, s, after, before, Described(source, provider));
      GrantedMoves(mapping, complete, s, model, after, before, Described(source, provider));
      InheritedMatches(mapping, complete, Mentioned(s), s.own.ids, after, before);
    }
  }

  // ----- What operators are promised --------------------------------------------------

  ghost predicate RuleIds(rule: RouteRule, x: string) {
    x in rule.ids || x in rule.deniedIds
  }

  /** Some rule in the working set mentions the reference. */
  ghost predicate Uses(s: Snapshot, x: string) {
    || (exists route :: route in s.routes && RuleIds(route.rule, x))
    || (exists group :: group in s.groups && RuleIds(group.rule, x))
    || (exists scope :: scope in s.keys && RuleIds(s.keys[scope].bindings.rule, x))
  }

  lemma {:induction false} RoutesUse(s: Snapshot, ids: seq<string>, n: nat, x: string)
    requires n <= |ids| && (x in RoutesTo(s.routes, ids, n).ids || x in RoutesTo(s.routes, ids, n).deniedIds)
    ensures Uses(s, x)
  {
    hide FindRoute;
    if n > 0 {
      var found := FindRoute(s.routes, ids[n - 1]);
      if found.Some? && RuleIds(found.value.rule, x) {
        assert found.value in s.routes;
      } else {
        RoutesUse(s, ids, n - 1, x);
      }
    }
  }

  lemma GrantUses(s: Snapshot, grant: Grant, x: string)
    requires x in GrantContents(s.routes, grant).ids || x in GrantContents(s.routes, grant).deniedIds
    requires RuleIds(grant.rule, x) ==> Uses(s, x)
    ensures Uses(s, x)
  {
    hide RoutesTo, Uses;
    if !RuleIds(grant.rule, x) {
      RoutesUse(s, grant.routeIDs, |grant.routeIDs|, x);
    }
  }

  /** A participating group is a stored one with its mode filled in. */
  lemma {:induction false} GatheredAreStored(all: seq<Group>, ids: seq<string>, n: nat)
    requires n <= |ids| && GatherTo(all, ids, n).Ok?
    ensures forall g :: g in GatherTo(all, ids, n).value.groups ==> exists stored :: stored in all && stored.rule == g.rule
  {
    hide NormalizeMode;
    if n > 0 { GatheredAreStored(all, ids, n - 1); }
  }

  lemma {:induction false} TotalUses(s: Snapshot, grants: seq<Contents>, n: nat, x: string)
    requires n <= |grants| && (x in TotalTo(grants, n).ids || x in TotalTo(grants, n).deniedIds)
    requires forall i :: 0 <= i < |grants| && (x in grants[i].ids || x in grants[i].deniedIds) ==> Uses(s, x)
    ensures Uses(s, x)
  {
    hide Uses;
    if n > 0 && !(x in grants[n - 1].ids || x in grants[n - 1].deniedIds) {
      TotalUses(s, grants, n - 1, x);
    }
  }

  lemma MentionedIsUsed(s: Snapshot, scope: string, x: string)
    requires scope in s.keys
    requires var st := StandingOf(s, Some(s.keys[scope])); st.Managed? && x in Mentioned(st)
    ensures Uses(s, x)
  {
    hide GrantContents, TotalTo, AnyGrantsAccess, HasExclusive, GroupRoutesExist, RoutesExist, Constrained, RouteRule.Empty, GatherTo;
    var key := s.keys[scope];
    var st := StandingOf(s, Some(key));
    var groups := EffectiveGroups(s.groups, key.groupIDs).value;
    GatheredAreStored(s.groups, key.groupIDs, |key.groupIDs|);
    forall i | 0 <= i < |st.grants| && (x in st.grants[i].ids || x in st.grants[i].deniedIds)
      ensures Uses(s, x)
    {
      if i < |groups| {
        assert groups[i] in groups;
        GrantUses(s, GrantOf(groups[i]), x);
      } else {
        GrantUses(s, OwnGrant(key), x);
      }
    }
    if x in st.own.ids || x in st.own.deniedIds {
      GrantUses(s, OwnGrant(key), x);
    } else {
      TotalUses(s, st.grants, |st.grants|, x);
    }
  }

  /** Stored references are normalized fingerprints, in lower case. */
  ghost predicate NormalizedRefs(s: Snapshot) {
    forall x :: Uses(s, x) ==> Lower(x) == x
  }

  /** Whether a key may use a credential for a model, as the working set stands. */
  ghost predicate MayUse(s: Snapshot, scope: string, model: string, ref: string, source: string, provider: string)
    requires scope in s.keys
  {
    CredentialPermitted(StandingOf(s, Some(s.keys[scope])), model, ref, source, provider)
  }

  lemma Follows(mapping: Mapping, complete: bool, order: seq<string>, s: Snapshot, scope: string, model: string,
                after: string, before: string, source: string, provider: string)
    requires NoChains(mapping) && Enumerates(order, mapping) && scope in s.keys
    requires forall listed :: (forall x :: x in listed ==> Uses(s, x)) ==> Inherits(mapping, complete, listed, after, before)
    ensures var done := Replaced(mapping, complete, order, s);
            && scope in done.keys
            && (MayUse(done, scope, model, after, source, provider) <==> MayUse(s, scope, model, before, source, provider))
  {
    hide StandingOf, CredentialPermitted, Uses, Inherits, Replaced, Mentioned, MovedStanding;
    StandingMoves(mapping, complete, order, s, scope);
    var st := StandingOf(s, Some(s.keys[scope]));
    if st.Managed? {
      forall x | x in Mentioned(st)
        ensures Uses(s, x)
      {
        MentionedIsUsed(s, scope, x);
      }
    }
    CredentialsMove(mapping, complete, st, model, after, before, source, provider);
  }

  /**
    A replacement nothing mentions yet and that stands in for one credential alone is treated,
    for every key and model, exactly as that credential was: after preparing and after completing.
   */
  lemma ReplacementInherits(mapping: Mapping, complete: bool, order: seq<string>, s: Snapshot, scope: string, model: string,
                            o: string, source: string, provider: string)
    requires Acceptable(mapping) && Enumerates(order, mapping) && scope in s.keys && NormalizedRefs(s)
    requires o in mapping && !Uses(s, mapping[o]) && forall p :: p in mapping && mapping[p] == mapping[o] ==> p == o
    ensures var done := Replaced(mapping, complete, order, s);
            && scope in done.keys
            && (MayUse(done, scope, model, mapping[o], source, provider) <==> MayUse(s, scope, model, o, source, provider))
  {
    hide Replaced, MayUse, Uses, ValidFingerprint, Lower, Enumerates;
    AcceptableHasNoChains(mapping);
    Follows(mapping, complete, order, s, scope, model, mapping[o], o, source, provider);
  }

  /** Preparing takes nothing away: the replaced credential keeps its decisions until completion. */
  lemma PreparingKeepsTheOld(mapping: Mapping, order: seq<string>, s: Snapshot, scope: string, model: string,
                             o: string, source: string, provider: string)
    requires Acceptable(mapping) && Enumerates(order, mapping) && scope in s.keys && NormalizedRefs(s) && o in mapping
    ensures var done := Replaced(mapping, false, order, s);
            scope in done.keys && (MayUse(done, scope, model, o, source, provider) <==> MayUse(s, scope, model, o, source, provider))
  {
    hide Replaced, MayUse, Uses, ValidFingerprint, Lower, Enumerates;
    AcceptableHasNoChains(mapping);
    Follows(mapping, false, order, s, scope, model, o, o, source, provider);
  }

  /** Credentials the mapping does not involve keep their decisions throughout. */
  lemma OthersKeepTheirs(mapping: Mapping, complete: bool, order: seq<string>, s: Snapshot, scope: string, model: string,
                         ref: string, source: string, provider: string)
    requires Acceptable(mapping) && Enumerates(order, mapping) && scope in s.keys
    requires forall o :: o in mapping ==> !EqualFold(o, ref) && !EqualFold(mapping[o], ref)
    ensures var done := Replaced(mapping, complete, order, s);
            scope in done.keys && (MayUse(done, scope, model, ref, source, provider) <==> MayUse(s, scope, model, ref, source, provider))
  {
    hide Replaced, MayUse, Uses, ValidFingerprint, Lower, Enumerates;
    AcceptableHasNoChains(mapping);
    Follows(mapping, complete, order, s, scope, model, ref, ref, source, provider);
  }

  /** No key gains or loses a model. */
  lemma ModelsKeepTheirs(mapping: Mapping, complete: bool, order: seq<string>, s: Snapshot, scope: string, model: string)
    requires NoChains(mapping) && Enumerates(order, mapping) && scope in s.keys
    ensures var done := Replaced(mapping, complete, order, s);
            && scope in done.keys
            && (ModelPermitted(StandingOf(done, Some(done.keys[scope])), model) <==>
                ModelPermitted(StandingOf(s, Some(s.keys[scope])), model))
  {
    hide StandingOf, ModelPermitted, Replaced, MovedStanding;
    StandingMoves(mapping, complete, order, s, scope);
    ModelsUntouched(mapping, complete, StandingOf(s, Some(s.keys[scope])), model);
  }

  /** Once completed, no rule mentions a retired credential any more. */
  lemma CompletionRetires(mapping: Mapping, order: seq<string>, s: Snapshot, o: string)
    requires NoChains(mapping) && Enumerates(order, mapping) && o in mapping
    ensures !Uses(Replaced(mapping, true, order, s), o)
  {
    hide AddedTo, MoveAll;
  }

  lemma RuleTwice(mapping: Mapping, first: bool, second: bool, rule: RouteRule)
    requires NoChains(mapping)
    ensures MigratedRule(mapping, second, MigratedRule(mapping, first, rule)) == MigratedRule(mapping, first || second, rule)
  {
    hide Migrated;
    RepeatsChangeNothing(mapping, first, second, rule.ids);
    RepeatsChangeNothing(mapping, first, second, rule.deniedIds);
  }

  lemma RoutesTwice(mapping: Mapping, first: bool, second: bool, routes: seq<Route>)
    requires NoChains(mapping)
    ensures MigratedRoutes(mapping, second, MigratedRoutes(mapping, first, routes)) == MigratedRoutes(mapping, first || second, routes)
  {
    hide MigratedRule, NoChains;
    forall i | 0 <= i < |routes|
      ensures MigratedRoute(mapping, second, MigratedRoute(mapping, first, routes[i])) == MigratedRoute(mapping, first || second, routes[i])
    {
      RuleTwice(mapping, first, second, routes[i].rule);
    }
  }

  lemma GroupsTwice(mapping: Mapping, first: bool, second: bool, groups: seq<Group>)
    requires NoChains(mapping)
    ensures MigratedGroups(mapping, second, MigratedGroups(mapping, first, groups)) == MigratedGroups(mapping, first || second, groups)
  {
    hide MigratedRule, NoChains;
    forall i | 0 <= i < |groups|
      ensures MigratedGroup(mapping, second, MigratedGroup(mapping, first, groups[i])) == MigratedGroup(mapping, first || second, groups[i])
    {
      RuleTwice(mapping, first, second, groups[i].rule);
    }
  }

  lemma KeysTwice(mapping: Mapping, first: bool, second: bool, keys: map<string, Key>)
    requires NoChains(mapping)
    ensures MigratedKeys(mapping, second, MigratedKeys(mapping, first, keys)) == MigratedKeys(mapping, first || second, keys)
  {
    hide MigratedRule, NoChains;
    forall scope | scope in keys
      ensures MigratedKey(mapping, second, MigratedKey(mapping, first, keys[scope])) == MigratedKey(mapping, first || second, keys[scope])
    {
      RuleTwice(mapping, first, second, keys[scope].bindings.rule);
    }
  }

  /** Preparing and then completing leaves the very rules one completion leaves, and repeating either changes none. */
  lemma PreparingFirstChangesNoRule(mapping: Mapping, first: bool, second: bool, p: seq<string>, q: seq<string>, r: seq<string>, s: Snapshot)
    requires NoChains(mapping) && Enumerates(p, mapping) && Enumerates(q, mapping) && Enumerates(r, mapping)
    ensures var twice := Replaced(mapping, second, q, Replaced(mapping, first, p, s));
            var once := Replaced(mapping, first || second, r, s);
            twice.routes == once.routes && twice.groups == once.groups && twice.keys == once.keys
  {
    hide MigratedRoutes, MigratedGroups, MigratedKeys, MoveAll, NoChains, Enumerates;
    RoutesTwice(mapping, first, second, s.routes);
    GroupsTwice(mapping, first, second, s.groups);
    KeysTwice(mapping, first, second, s.keys);
  }
}
