/**
  What the access meaning promises operators: it depends only on which grants take part, an
  exclusive pool can only be narrowed by a key's own rules, ordinary and disabled groups have
  no say beside an exclusive one, and hiding a candidate's metadata never helps it.
 */
module AccessMeaning {
  import opened Text
  import opened Model
  import opened Routing
  import opened Resolution

  // ----- Order and repetition ---------------------------------------------------------

  lemma {:induction false} TotalMembers(grants: seq<Contents>, n: nat)
    requires n <= |grants|
    ensures forall x :: x in TotalTo(grants, n).models <==> exists i :: 0 <= i < n && x in grants[i].models
    ensures forall x :: x in TotalTo(grants, n).ids <==> exists i :: 0 <= i < n && x in grants[i].ids
    ensures forall x :: x in TotalTo(grants, n).deniedModels <==> exists i :: 0 <= i < n && x in grants[i].deniedModels
    ensures forall x :: x in TotalTo(grants, n).deniedIds <==> exists i :: 0 <= i < n && x in grants[i].deniedIds
    ensures forall x :: x in TotalTo(grants, n).providers <==> exists i :: 0 <= i < n && x in grants[i].providers
    ensures forall x :: x in TotalTo(grants, n).deniedProviders <==> exists i :: 0 <= i < n && x in grants[i].deniedProviders
  {
    if n > 0 { TotalMembers(grants, n - 1); }
  }

  /** Every grant of a also occurs in b. */
  ghost predicate Within(a: seq<Contents>, b: seq<Contents>) {
    forall g :: g in a ==> g in b
  }

  ghost predicate SmallerContents(a: Contents, b: Contents) {
    && a.models <= b.models && a.ids <= b.ids && a.providers <= b.providers
    && a.deniedModels <= b.deniedModels && a.deniedIds <= b.deniedIds && a.deniedProviders <= b.deniedProviders
  }

  lemma TotalGrows(a: seq<Contents>, b: seq<Contents>)
    requires Within(a, b)
    ensures SmallerContents(Total(a), Total(b))
  {
    TotalMembers(a, |a|);
    TotalMembers(b, |b|);
    hide TotalTo;
    assert forall i :: 0 <= i < |a| ==> a[i] in b;
  }

  lemma TotalOfSame(a: seq<Contents>, b: seq<Contents>)
    requires Within(a, b) && Within(b, a)
    ensures Total(a) == Total(b)
  {
    hide Total;
    TotalGrows(a, b);
    TotalGrows(b, a);
  }

  /** Two standings that differ only in the order and repetition of the participating grants. */
  ghost predicate SameStanding(a: Standing, b: Standing) {
    if a.Managed? && b.Managed? then
      && Within(a.grants, b.grants) && Within(b.grants, a.grants)
      && a.own == b.own && a.exclusive == b.exclusive && a.constrained == b.constrained
      && a.requireAllowlist == b.requireAllowlist
    else a == b
  }

  lemma OpensOfSame(a: seq<Contents>, b: seq<Contents>)
    requires Within(a, b) && Within(b, a)
    ensures Opens(a) <==> Opens(b)
    ensures forall v :: OpenId(a, v) <==> OpenId(b, v)
    ensures forall p :: OpenProvider(a, p) <==> OpenProvider(b, p)
  {
    hide Contents.GrantsCredentials, Has;
  }

  lemma ClosedOfSame(a: Standing, b: Standing)
    requires SameStanding(a, b)
    ensures Closed(a) <==> Closed(b)
  {
    hide Has, Total, Opens, Within;
    if a.Managed? && b.Managed? {
      TotalOfSame(a.grants, b.grants);
      OpensOfSame(a.grants, b.grants);
    }
  }

  /** The order in which grants take part, and how often, changes no decision about a model. */
  lemma OrderDoesNotMatterForModels(a: Standing, b: Standing, model: string)
    requires SameStanding(a, b)
    ensures ModelPermitted(a, model) <==> ModelPermitted(b, model)
  {
    hide Within, Has, Total, Opens, Closed;
    ClosedOfSame(a, b);
    if a.Managed? && b.Managed? {
      TotalOfSame(a.grants, b.grants);
      OpensOfSame(a.grants, b.grants);
    }
  }

  /** Nor about a credential. */
  lemma OrderDoesNotMatterForCredentials(a: Standing, b: Standing, model: string, ref: string, source: string, provider: string)
    requires SameStanding(a, b)
    ensures CredentialPermitted(a, model, ref, source, provider) <==> CredentialPermitted(b, model, ref, source, provider)
  {
    hide Within, Has, Total, Opens, OpenId, OpenProvider, Described, MayMatch, Closed;
    ClosedOfSame(a, b);
    if a.Managed? && b.Managed? {
      TotalOfSame(a.grants, b.grants);
      OpensOfSame(a.grants, b.grants);
      assert Denied(a, ref, Described(source, provider)) <==> Denied(b, ref, Described(source, provider));
    }
  }

  // ----- Which groups take part -------------------------------------------------------

  predicate Enabled(all: seq<Group>, id: string) {
    FindGroup(all, id).Some? && !FindGroup(all, id).value.disabled
  }

  /** The stored mode with its default filled in. */
  function ModeOf(all: seq<Group>, id: string): Result<string>
    requires Enabled(all, id)
  {
    NormalizeMode(FindGroup(all, id).value.mode)
  }

  predicate IsExclusive(all: seq<Group>, id: string) {
    Enabled(all, id) && ModeOf(all, id) == Ok(EXCLUSIVE)
  }

  function Normalized(all: seq<Group>, id: string): Group
    requires Enabled(all, id) && ModeOf(all, id).Ok?
  {
    FindGroup(all, id).value.(mode := ModeOf(all, id).value)
  }

  /** Why a set of bound groups cannot be resolved. */
  ghost predicate Unusable(all: seq<Group>, id: string) {
    FindGroup(all, id).None? || (Enabled(all, id) && ModeOf(all, id).Err?)
  }

  ghost predicate Troubled(all: seq<Group>, ids: seq<string>) {
    || (exists id :: id in ids && Unusable(all, id))
    || (exists a, b :: a in ids && b in ids && a != b && IsExclusive(all, a) && IsExclusive(all, b))
  }

  ghost predicate Named(all: seq<Group>) {
    forall g :: g in all ==> g.id != ""
  }

  /** What the gathering loop knows of the first n IDs: all their enabled groups, and the exclusive one. */
  ghost predicate GatheredExactly(all: seq<Group>, ids: seq<string>, g: Gathered) {
    && (forall x :: x in g.groups ==> exists id :: id in ids && Enabled(all, id) && ModeOf(all, id).Ok? && x == Normalized(all, id))
    && (forall id :: id in ids && Enabled(all, id) ==> ModeOf(all, id).Ok? && Normalized(all, id) in g.groups)
    && (forall id :: id in ids && IsExclusive(all, id) ==> id == g.exclusiveID)
    && (g.exclusiveID != "" ==> g.exclusiveID in ids && IsExclusive(all, g.exclusiveID))
  }

  lemma {:induction false} GatherMeans(all: seq<Group>, ids: seq<string>, n: nat)
    requires n <= |ids| && Named(all)
    ensures GatherTo(all, ids, n).Err? <==> Troubled(all, ids[..n])
    ensures GatherTo(all, ids, n).Ok? ==> GatheredExactly(all, ids[..n], GatherTo(all, ids, n).value)
  {
    hide GatherOne, Troubled, GatheredExactly;
    if n == 0 {
      NothingGathered(all);
    } else {
      GatherMeans(all, ids, n - 1);
      assert ids[..n] == ids[..n - 1] + [ids[n - 1]];
      TroubleStays(all, ids[..n - 1], ids[n - 1]);
      if GatherTo(all, ids, n - 1).Ok? {
        if ids[n - 1] in ids[..n - 1] {
          GatherRepeat(all, ids[..n - 1], GatherTo(all, ids, n - 1).value, ids[n - 1]);
        } else {
          GatherOneMeans(all, ids[..n - 1], GatherTo(all, ids, n - 1).value, ids[n - 1]);
        }
      }
    }
  }

  lemma NothingGathered(all: seq<Group>)
    ensures !Troubled(all, []) && GatheredExactly(all, [], Gathered([], ""))
  {
  }

  lemma TroubleStays(all: seq<Group>, ids: seq<string>, id: string)
    ensures Troubled(all, ids) ==> Troubled(all, ids + [id])
  {
    hide Unusable, IsExclusive;
    assert forall x :: x in ids ==> x in ids + [id];
  }

  lemma GatherRepeat(all: seq<Group>, ids: seq<string>, g: Gathered, id: string)
    requires id in ids && !Troubled(all, ids) && GatheredExactly(all, ids, g)
    ensures !Troubled(all, ids + [id]) && GatheredExactly(all, ids + [id], g)
  {
    hide Unusable, IsExclusive, Normalized, ModeOf;
    assert forall x :: x in ids + [id] <==> x in ids;
  }

  lemma GatherOneMeans(all: seq<Group>, ids: seq<string>, g: Gathered, id: string)
    requires Named(all) && id !in ids && !Troubled(all, ids) && GatheredExactly(all, ids, g)
    ensures GatherOne(all, g, id).Err? <==> Troubled(all, ids + [id])
    ensures GatherOne(all, g, id).Ok? ==> GatheredExactly(all, ids + [id], GatherOne(all, g, id).value)
  {
    hide NormalizeMode;
    assert forall x :: x in ids + [id] <==> x in ids || x == id;
    GatherOneTrouble(all, ids, g, id);
    if GatherOne(all, g, id).Ok? {
      GatherOneExact(all, ids, g, id);
    }
  }

  lemma GatherOneTrouble(all: seq<Group>, ids: seq<string>, g: Gathered, id: string)
    requires Named(all) && id !in ids && !Troubled(all, ids) && GatheredExactly(all, ids, g)
    ensures GatherOne(all, g, id).Err? <==> Troubled(all, ids + [id])
  {
    hide NormalizeMode, Normalized;
    assert forall x :: x in ids + [id] <==> x in ids || x == id;
    assert IsExclusive(all, id) && g.exclusiveID != "" ==> Troubled(all, ids + [id]);
    if Troubled(all, ids + [id]) && !Unusable(all, id) {
      var a, b :| a in ids + [id] && b in ids + [id] && a != b && IsExclusive(all, a) && IsExclusive(all, b);
      var other := if a == id then b else a;
      assert other in ids && IsExclusive(all, other);
      assert g.exclusiveID == other != "";
    }
  }

  lemma GatherOneExact(all: seq<Group>, ids: seq<string>, g: Gathered, id: string)
    requires Named(all) && id !in ids && GatheredExactly(all, ids, g) && GatherOne(all, g, id).Ok?
    ensures GatheredExactly(all, ids + [id], GatherOne(all, g, id).value)
  {
    hide NormalizeMode;
    assert forall x :: x in ids + [id] <==> x in ids || x == id;
  }

  /** An enabled bound group takes part unless it is ordinary beside an exclusive one. */
  ghost predicate TakesPart(all: seq<Group>, ids: seq<string>, id: string) {
    && id in ids && Enabled(all, id) && ModeOf(all, id).Ok?
    && (ModeOf(all, id).value == ORDINARY ==> !exists other :: other in ids && IsExclusive(all, other))
  }

  /** effectiveKeyGroups fails exactly on a dangling or malformed group or two exclusive ones, else selects exactly who takes part. */
  lemma EffectiveGroupsMean(all: seq<Group>, ids: seq<string>)
    requires Named(all)
    ensures EffectiveGroups(all, ids).Err? <==> Troubled(all, ids)
    ensures EffectiveGroups(all, ids).Ok? ==>
              forall x :: x in EffectiveGroups(all, ids).value <==> exists id :: TakesPart(all, ids, id) && x == Normalized(all, id)
  {
    hide Troubled, GatherTo, NormalizeMode;
    GatherMeans(all, ids, |ids|);
    assert ids[..|ids|] == ids;
    if GatherTo(all, ids, |ids|).Ok? {
      var g := GatherTo(all, ids, |ids|).value;
      var groups := EffectiveGroups(all, ids).value;
      assert g.exclusiveID != "" <==> exists other :: other in ids && IsExclusive(all, other);
      forall x
        ensures x in groups <==> exists id :: TakesPart(all, ids, id) && x == Normalized(all, id)
      {
        if x in groups {
          var id :| id in ids && Enabled(all, id) && ModeOf(all, id).Ok? && x == Normalized(all, id);
          assert TakesPart(all, ids, id);
        }
      }
    }
  }

  // ----- How rules and lists are written ------------------------------------------------

  /** Every reference finds a route listing the same items, or none. */
  ghost predicate AlikeRoutes(a: seq<Route>, b: seq<Route>) {
    forall id :: (FindRoute(a, id).Some? <==> FindRoute(b, id).Some?) && RouteContents(a, id) == RouteContents(b, id)
  }

  predicate AlikeGrants(a: Grant, b: Grant) {
    SetOf(a.routeIDs) == SetOf(b.routeIDs) && ContentsOf(a.rule) == ContentsOf(b.rule)
  }

  predicate AlikeGroup(a: Group, b: Group) {
    a.disabled == b.disabled && a.mode == b.mode && AlikeGrants(GrantOf(a), GrantOf(b))
  }

  /** Every reference finds a group of the same mode and grant, or none. */
  ghost predicate AlikeGroups(a: seq<Group>, b: seq<Group>) {
    forall id :: (FindGroup(a, id).Some? <==> FindGroup(b, id).Some?)
              && (FindGroup(a, id).Some? ==> AlikeGroup(FindGroup(a, id).value, FindGroup(b, id).value))
  }

  /** Two keys bound to the same routes, with rules listing the same items. */
  predicate AlikeKeys(a: Key, b: Key) {
    a.bindings.configured == b.bindings.configured && AlikeGrants(OwnGrant(a), OwnGrant(b))
  }

  /** The contents of the bound routes, one by one. */
  function Listed(routes: seq<Route>, ids: seq<string>): (r: seq<Contents>)
    ensures |r| == |ids| && forall i :: 0 <= i < |ids| ==> r[i] == RouteContents(routes, ids[i])
  {
    seq(|ids|, i requires 0 <= i < |ids| => RouteContents(routes, ids[i]))
  }

  lemma {:induction false} RoutesAreTotal(routes: seq<Route>, ids: seq<string>, n: nat)
    requires n <= |ids|
    ensures RoutesTo(routes, ids, n) == TotalTo(Listed(routes, ids), n)
  {
    hide RouteContents, Contents.Plus;
    if n > 0 { RoutesAreTotal(routes, ids, n - 1); }
  }

  /** A grant gives the same however its routes and items are ordered and repeated. */
  lemma GrantContentsAlike(a: seq<Route>, b: seq<Route>, g: Grant, h: Grant)
    requires AlikeRoutes(a, b) && AlikeGrants(g, h)
    ensures GrantContents(a, g) == GrantContents(b, h)
    ensures RoutesExist(a, g.routeIDs) <==> RoutesExist(b, h.routeIDs)
    ensures (g.routeIDs != [] || !g.rule.Empty()) <==> (h.routeIDs != [] || !h.rule.Empty())
  {
    hide RouteContents, Contents.Plus, TotalTo, RoutesTo;
    RoutesAreTotal(a, g.routeIDs, |g.routeIDs|);
    RoutesAreTotal(b, h.routeIDs, |h.routeIDs|);
    ListedWithin(a, b, g.routeIDs, h.routeIDs);
    ListedWithin(b, a, h.routeIDs, g.routeIDs);
    TotalOfSame(Listed(a, g.routeIDs), Listed(b, h.routeIDs));
    assert ContentsOf(g.rule) == NO_CONTENTS <==> g.rule.Empty();
    assert ContentsOf(h.rule) == NO_CONTENTS <==> h.rule.Empty();
  }

  lemma ListedWithin(a: seq<Route>, b: seq<Route>, ids: seq<string>, others: seq<string>)
    requires AlikeRoutes(a, b) && SetOf(ids) == SetOf(others)
    ensures Within(Listed(a, ids), Listed(b, others))
    ensures RoutesExist(b, others) ==> RoutesExist(a, ids)
  {
    hide RouteContents;
    forall i | 0 <= i < |ids|
      ensures exists j :: 0 <= j < |others| && others[j] == ids[i] && Listed(b, others)[j] == Listed(a, ids)[i]
    {
      assert ids[i] in SetOf(ids);
      var j :| 0 <= j < |others| && others[j] == ids[i];
      assert RouteContents(a, ids[i]) == RouteContents(b, ids[i]);
      assert Listed(b, others)[j] == Listed(a, ids)[i];
    }
  }

  /** Every group of a has one like it in b. */
  ghost predicate CoveredBy(a: seq<Group>, b: seq<Group>) {
    forall x :: x in a ==> exists y :: y in b && AlikeGroup(x, y)
  }

  lemma GroupedAlike(r: seq<Route>, q: seq<Route>, a: seq<Group>, b: seq<Group>, keyA: Key, keyB: Key)
    requires AlikeRoutes(r, q) && CoveredBy(a, b) && CoveredBy(b, a) && AlikeKeys(keyA, keyB)
    requires keyA.groupIDs == [] <==> keyB.groupIDs == []
    ensures SameStanding(GroupedStanding(r, a, keyA), GroupedStanding(q, b, keyB))
  {
    hide GrantContents, GrantsAccess, RoutesExist, AlikeRoutes, CoveredBy, AlikeGrants;
    AlikeBack(r, q);
    FactsAlike(r, q, a, b);
    FactsAlike(q, r, b, a);
    GrantContentsAlike(r, q, OwnGrant(keyA), OwnGrant(keyB));
    var own := GrantContents(r, OwnGrant(keyA));
    GrantsWithin(r, q, a, b, own);
    GrantsWithin(q, r, b, a, own);
    OwnFacts(keyA, keyB);
    hide GrantsOfGroups, AnyGrantsAccess, GroupRoutesExist, HasExclusive, Within;
  }

  lemma AlikeBack(a: seq<Route>, b: seq<Route>)
    requires AlikeRoutes(a, b)
    ensures AlikeRoutes(b, a)
  {
    hide RouteContents;
  }

  lemma OwnFacts(a: Key, b: Key)
    requires AlikeKeys(a, b)
    ensures a.bindings.routeIDs == [] <==> b.bindings.routeIDs == []
    ensures a.bindings.rule.Empty() <==> b.bindings.rule.Empty()
  {
    assert ContentsOf(a.bindings.rule) == NO_CONTENTS <==> a.bindings.rule.Empty();
    assert ContentsOf(b.bindings.rule) == NO_CONTENTS <==> b.bindings.rule.Empty();
  }

  lemma SameAreAlike(a: seq<Group>, b: seq<Group>)
    requires forall x :: x in a ==> x in b
    ensures CoveredBy(a, b)
  {
    forall x | x in a
      ensures x in b && AlikeGroup(x, x)
    {
    }
  }

  lemma FactsAlike(r: seq<Route>, q: seq<Route>, a: seq<Group>, b: seq<Group>)
    requires AlikeRoutes(r, q) && CoveredBy(a, b)
    ensures AnyGrantsAccess(a) ==> AnyGrantsAccess(b)
    ensures HasExclusive(a) ==> HasExclusive(b)
    ensures GroupRoutesExist(q, b) ==> GroupRoutesExist(r, a)
  {
    hide RoutesExist, AlikeRoutes, AlikeGrants, GrantContents;
    forall i | 0 <= i < |a|
      ensures GrantsAccess(a[i]) ==> AnyGrantsAccess(b)
      ensures a[i].mode == EXCLUSIVE ==> HasExclusive(b)
      ensures GroupRoutesExist(q, b) ==> RoutesExist(r, a[i].routeIDs)
    {
      assert a[i] in a;
      var y :| y in b && AlikeGroup(a[i], y);
      var j :| 0 <= j < |b| && b[j] == y;
      GrantContentsAlike(r, q, GrantOf(a[i]), GrantOf(y));
    }
  }

  lemma GrantsWithin(r: seq<Route>, q: seq<Route>, a: seq<Group>, b: seq<Group>, own: Contents)
    requires AlikeRoutes(r, q) && CoveredBy(a, b)
    ensures Within(GrantsOfGroups(r, a), GrantsOfGroups(q, b))
    ensures Within(GrantsOfGroups(r, a) + [own], GrantsOfGroups(q, b) + [own])
  {
    hide GrantContents, AlikeRoutes, AlikeGrants, RoutesExist;
    var ga, gb := GrantsOfGroups(r, a), GrantsOfGroups(q, b);
    forall g | g in ga
      ensures g in gb
    {
      var i :| 0 <= i < |a| && ga[i] == g;
      assert a[i] in a;
      var y :| y in b && AlikeGroup(a[i], y);
      var j :| 0 <= j < |b| && b[j] == y;
      GrantContentsAlike(r, q, GrantOf(a[i]), GrantOf(y));
      assert gb[j] == g;
    }
  }

  lemma TroubledAlike(all: seq<Group>, others: seq<Group>, ids: seq<string>, otherIDs: seq<string>)
    requires AlikeGroups(all, others) && SetOf(ids) == SetOf(otherIDs)
    ensures Troubled(all, ids) ==> Troubled(others, otherIDs)
  {
    hide NormalizeMode, AlikeGrants;
    assert forall id :: id in ids ==> id in SetOf(ids) && id in otherIDs;
    assert forall id :: Unusable(all, id) ==> Unusable(others, id);
    assert forall id :: IsExclusive(all, id) <==> IsExclusive(others, id);
  }

  lemma ParticipantsAlike(all: seq<Group>, others: seq<Group>, ids: seq<string>, otherIDs: seq<string>)
    requires AlikeGroups(all, others) && SetOf(ids) == SetOf(otherIDs)
    requires Named(all) && Named(others) && EffectiveGroups(all, ids).Ok? && EffectiveGroups(others, otherIDs).Ok?
    ensures CoveredBy(EffectiveGroups(all, ids).value, EffectiveGroups(others, otherIDs).value)
  {
    hide NormalizeMode, AlikeGrants, EffectiveGroups;
    EffectiveGroupsMean(all, ids);
    EffectiveGroupsMean(others, otherIDs);
    assert forall id :: id in ids <==> id in SetOf(ids);
    assert forall id :: id in otherIDs <==> id in SetOf(ids);
    assert forall id :: IsExclusive(all, id) <==> IsExclusive(others, id);
    forall x | x in EffectiveGroups(all, ids).value
      ensures exists y :: y in EffectiveGroups(others, otherIDs).value && AlikeGroup(x, y)
    {
      var id :| TakesPart(all, ids, id) && x == Normalized(all, id);
      assert TakesPart(others, otherIDs, id);
      assert AlikeGroup(x, Normalized(others, id));
    }
  }

  /**
    Nothing but what is listed matters. Reordering or repeating the entries of any rule, the
    routes of any group or key, the groups of a key, or the stored routes and groups leaves
    the standing as it was, hence every decision.
   */
  lemma WritingDoesNotMatter<K, L>(s: State<K>, t: State<L>, a: Key, b: Key)
    requires Named(s.groups) && Named(t.groups)
    requires s.access == t.access && AlikeRoutes(s.routes, t.routes) && AlikeGroups(s.groups, t.groups)
    requires AlikeKeys(a, b) && SetOf(a.groupIDs) == SetOf(b.groupIDs)
    ensures SameStanding(StandingOf(s, Some(a)), StandingOf(t, Some(b)))
  {
    hide Troubled, EffectiveGroups, GroupedStanding, AlikeRoutes, AlikeGroup, AlikeGrants;
    assert a.groupIDs == [] <==> b.groupIDs == [] by { assert SetOf(a.groupIDs) == {} <==> a.groupIDs == []; }
    EffectiveGroupsMean(s.groups, a.groupIDs);
    EffectiveGroupsMean(t.groups, b.groupIDs);
    TroubledAlike(s.groups, t.groups, a.groupIDs, b.groupIDs);
    GroupsAlikeBack(s.groups, t.groups);
    TroubledAlike(t.groups, s.groups, b.groupIDs, a.groupIDs);
    if EffectiveGroups(s.groups, a.groupIDs).Ok? {
      ParticipantsAlike(s.groups, t.groups, a.groupIDs, b.groupIDs);
      ParticipantsAlike(t.groups, s.groups, b.groupIDs, a.groupIDs);
      GroupedAlike(s.routes, t.routes, EffectiveGroups(s.groups, a.groupIDs).value,
                   EffectiveGroups(t.groups, b.groupIDs).value, a, b);
    }
  }

  lemma GroupsAlikeBack(a: seq<Group>, b: seq<Group>)
    requires AlikeGroups(a, b)
    ensures AlikeGroups(b, a)
  {
  }

  /** Stored lists with the same entries and distinct identifiers find alike, in whatever order. */
  lemma StoredOrderDoesNotMatter(r: seq<Route>, q: seq<Route>, a: seq<Group>, b: seq<Group>)
    requires (forall x :: x in r <==> x in q) && (forall x, y :: x in r && y in r && x.id == y.id ==> x == y)
    requires (forall x :: x in a <==> x in b) && (forall x, y :: x in a && y in a && x.id == y.id ==> x == y)
    ensures AlikeRoutes(r, q) && AlikeGroups(a, b)
  {
    hide ContentsOf;
    forall id
      ensures FindRoute(r, id) == FindRoute(q, id) && FindGroup(a, id) == FindGroup(b, id)
    {
    }
  }

  /**
    Only who takes part matters. Reordering or repeating a key's groups, adding or dropping
    disabled groups, and adding or dropping ordinary groups beside an exclusive one all
    leave the same set of participants, hence every decision as it was.
   */
  lemma OnlyParticipantsMatter<K>(state: State<K>, key: Key, ids: seq<string>)
    requires Named(state.groups) && key.groupIDs != [] && ids != []
    requires !Troubled(state.groups, key.groupIDs) && !Troubled(state.groups, ids)
    requires forall id :: TakesPart(state.groups, key.groupIDs, id) <==> TakesPart(state.groups, ids, id)
    ensures SameStanding(StandingOf(state, Some(key)), StandingOf(state, Some(key.(groupIDs := ids))))
  {
    hide Troubled, TakesPart, EffectiveGroups, StandingOf, SameStanding, CoveredBy;
    EffectiveGroupsMean(state.groups, key.groupIDs);
    EffectiveGroupsMean(state.groups, ids);
    SameParticipants(state.groups, key.groupIDs, ids);
    var groups, others := EffectiveGroups(state.groups, key.groupIDs).value, EffectiveGroups(state.groups, ids).value;
    SameAreAlike(groups, others);
    SameAreAlike(others, groups);
    StandingBySelection(state, key, key.(groupIDs := ids), groups, others);
  }

  lemma StandingBySelection<K>(state: State<K>, a: Key, b: Key, groups: seq<Group>, others: seq<Group>)
    requires a.bindings == b.bindings && a.groupIDs != [] && b.groupIDs != []
    requires EffectiveGroups(state.groups, a.groupIDs) == Ok(groups) && EffectiveGroups(state.groups, b.groupIDs) == Ok(others)
    requires CoveredBy(groups, others) && CoveredBy(others, groups)
    ensures SameStanding(StandingOf(state, Some(a)), StandingOf(state, Some(b)))
  {
    hide EffectiveGroups, GroupedStanding, AlikeRoutes, AlikeGrants, CoveredBy, Within;
    AlikeToItself(state.routes, OwnGrant(a));
    GroupedAlike(state.routes, state.routes, groups, others, a, b);
  }

  lemma SameParticipants(all: seq<Group>, ids: seq<string>, others: seq<string>)
    requires Named(all) && EffectiveGroups(all, ids).Ok? && EffectiveGroups(all, others).Ok?
    requires forall id :: TakesPart(all, ids, id) <==> TakesPart(all, others, id)
    ensures forall x :: x in EffectiveGroups(all, ids).value <==> x in EffectiveGroups(all, others).value
  {
    hide TakesPart, EffectiveGroups, Normalized, Enabled, ModeOf;
    EffectiveGroupsMean(all, ids);
    EffectiveGroupsMean(all, others);
  }

  lemma AlikeToItself(routes: seq<Route>, grant: Grant)
    ensures AlikeRoutes(routes, routes) && AlikeGrants(grant, grant)
  {
  }

  /** Beside an exclusive group, binding an ordinary or disabled one as well has no effect. */
  lemma OutsidersHaveNoEffect<K>(state: State<K>, key: Key, extra: string)
    requires Named(state.groups) && !Troubled(state.groups, key.groupIDs)
    requires exists id :: id in key.groupIDs && IsExclusive(state.groups, id)
    requires FindGroup(state.groups, extra).Some?
    requires !Enabled(state.groups, extra) || ModeOf(state.groups, extra) == Ok(ORDINARY)
    ensures SameStanding(StandingOf(state, Some(key)), StandingOf(state, Some(key.(groupIDs := key.groupIDs + [extra]))))
  {
    hide NormalizeMode, StandingOf, SameStanding;
    var ids := key.groupIDs + [extra];
    assert forall x :: x in ids <==> x in key.groupIDs || x == extra;
    assert !IsExclusive(state.groups, extra);
    OnlyParticipantsMatter(state, key, ids);
  }

  // ----- Exclusive pools --------------------------------------------------------------

  const CLEARED := Bindings([], false, EMPTY_RULE)

  lemma ClearedContents(routes: seq<Route>, key: Key)
    requires key.bindings == CLEARED
    ensures GrantContents(routes, OwnGrant(key)) == NO_CONTENTS && !Constrained(routes, key)
    ensures RoutesExist(routes, key.bindings.routeIDs)
  {
  }

  /** With an exclusive group, the groups alone already permit every model and credential the key ends up with. */
  lemma ExclusivePoolOnlyShrinks<K>(state: State<K>, key: Key, model: string, ref: string, source: string, provider: string)
    requires EffectiveGroups(state.groups, key.groupIDs).Ok?
    requires HasExclusive(EffectiveGroups(state.groups, key.groupIDs).value)
    ensures var s, alone := StandingOf(state, Some(key)), StandingOf(state, Some(key.(bindings := CLEARED)));
            && (ModelPermitted(s, model) ==> ModelPermitted(alone, model))
            && (CredentialPermitted(s, model, ref, source, provider) ==> CredentialPermitted(alone, model, ref, source, provider))
  {
    hide EffectiveGroups, HasExclusive, GroupedStanding, ModelPermitted, CredentialPermitted;
    if state.access.enabled {
      var groups := EffectiveGroups(state.groups, key.groupIDs).value;
      GroupsNeedIDs(state.groups, key.groupIDs);
      ExclusiveStandings(state.routes, groups, key);
      LimitShrinks(GroupedStanding(state.routes, groups, key),
                   GroupedStanding(state.routes, groups, key.(bindings := CLEARED)), model, ref, source, provider);
    }
  }

  lemma GroupsNeedIDs(all: seq<Group>, ids: seq<string>)
    requires EffectiveGroups(all, ids).Ok? && HasExclusive(EffectiveGroups(all, ids).value)
    ensures ids != []
  {
    NoGroups(all, ids);
  }

  /** alone is s without anything of the key's own. */
  ghost predicate PoolOf(s: Standing, alone: Standing) {
    && alone.Managed? && alone.exclusive && alone.own == NO_CONTENTS && !alone.constrained && alone.requireAllowlist
    && s.Managed? && s.exclusive && s.requireAllowlist && s.grants == alone.grants
  }

  lemma ExclusiveStandings(routes: seq<Route>, groups: seq<Group>, key: Key)
    requires HasExclusive(groups) && key.groupIDs != []
    ensures var s, alone := GroupedStanding(routes, groups, key), GroupedStanding(routes, groups, key.(bindings := CLEARED));
            PoolOf(s, alone) || s.Refused? || s.Broken?
  {
    hide HasExclusive, AnyGrantsAccess, GroupRoutesExist, RoutesExist, GrantContents, GrantsOfGroups, Constrained;
    ClearedContents(routes, key.(bindings := CLEARED));
  }

  lemma LimitShrinks(s: Standing, alone: Standing, model: string, ref: string, source: string, provider: string)
    requires PoolOf(s, alone) || s.Refused? || s.Broken?
    ensures ModelPermitted(s, model) ==> ModelPermitted(alone, model)
    ensures CredentialPermitted(s, model, ref, source, provider) ==> CredentialPermitted(alone, model, ref, source, provider)
  {
    hide Has, Total, Opens, OpenId, OpenProvider, Described, MayMatch;
    if PoolOf(s, alone) {
      var t := Total(s.grants);
      var candidate := Described(source, provider);
      HasMore(t.deniedModels + NO_CONTENTS.deniedModels, t.deniedModels + s.own.deniedModels, model);
      HasMore(t.deniedIds + NO_CONTENTS.deniedIds, t.deniedIds + s.own.deniedIds, ref);
      OpenIsPart(s.grants, ref, candidate);
      assert OnlyOpen(alone, model) ==> OnlyOpen(s, model);
    }
  }

  /** What the open grants give, all grants together give too. */
  lemma OpenIsPart(grants: seq<Contents>, ref: string, candidate: Selector)
    ensures OpenId(grants, ref) ==> Has(Total(grants).ids, ref)
    ensures OpenProvider(grants, candidate) ==> candidate in Total(grants).providers
  {
    hide TotalTo;
    TotalMembers(grants, |grants|);
    if OpenId(grants, ref) {
      var g :| g in grants && g.models == {} && Has(g.ids, ref);
      var i :| 0 <= i < |grants| && grants[i] == g;
      var x :| x in g.ids && EqualFold(x, ref);
      assert x in Total(grants).ids;
    }
    if OpenProvider(grants, candidate) {
      var g :| g in grants && g.models == {} && candidate in g.providers;
      var i :| 0 <= i < |grants| && grants[i] == g;
    }
  }

  // ----- Hidden metadata --------------------------------------------------------------

  /** Every category a standing grants names a source and a provider, as normalization demands. */
  ghost predicate Categorized(s: Standing) {
    s.Managed? ==> forall p :: p in Total(s.grants).providers + s.own.providers ==> p.source != "" && p.provider != ""
  }

  /** The same candidate with its source, its provider or both left out. */
  ghost predicate Erased(source: string, provider: string, source': string, provider': string) {
    && (source' == source || Lower(Trim(source')) == "")
    && (provider' == provider || Lower(Trim(provider')) == "")
  }

  lemma DenialsSeeMore(s: Standing, ref: string, full: Selector, bare: Selector)
    requires s.Managed? && (bare.source == full.source || bare.source == "") && (bare.provider == full.provider || bare.provider == "")
    ensures Denied(s, ref, full) ==> Denied(s, ref, bare)
  {
    hide Has, Total;
  }

  /** Leaving out a candidate's source or provider never turns a refusal into a permission. */
  lemma ErasingNeverHelps(s: Standing, model: string, ref: string, source: string, provider: string, source': string, provider': string)
    requires Categorized(s) && Erased(source, provider, source', provider')
    ensures CredentialPermitted(s, model, ref, source', provider') ==> CredentialPermitted(s, model, ref, source, provider)
  {
    hide Has, Total, OnlyOpen, OpenId, OpenProvider, Lower, Trim, NothingInCommon, Denied;
    if s.Managed? {
      var full, bare := Described(source, provider), Described(source', provider');
      DenialsSeeMore(s, ref, full, bare);
      var named := Total(s.grants).providers + s.own.providers;
      assert bare in named ==> bare == full;
      assert (bare in Total(s.grants).providers || bare in s.own.providers) ==> bare in named;
      OpenIsPart(s.grants, ref, bare);
    }
  }

  /** Normalization is needed: a category with a blank source would match only candidates that hide theirs. */
  lemma ErasingCouldHelp(s: Standing)
    requires s == Managed([NO_CONTENTS.(providers := {Selector("", "codex")})], NO_CONTENTS, false, false, true)
    ensures CredentialPermitted(s, "", "", "", "codex") && !CredentialPermitted(s, "", "", "auth-files", "codex")
  {
    assert Total(s.grants) == NO_CONTENTS.Plus(s.grants[0]) by { assert TotalTo(s.grants, 0) == NO_CONTENTS; }
    assert Described("", "codex") == Selector("", "codex");
    assert Described("auth-files", "codex").source != "";
  }
}
