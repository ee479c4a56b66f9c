/**
  Every way the working set of internal/billing changes, as one kind of edit each, and what
  all of them keep: plans and cycles stay consistent, bindings stay well-formed, and so no key
  in any reachable state is left with a configuration error.
 */
module ReachableStates {
  import opened Text
  import opened Model
  import opened ModelNames
  import opened QuotaCycles
  import opened QuotaScopes
  import A = AccessEdits
  import B = AccessBindings
  import C = CredentialMigration
  import E = Enforcement
  import K = KeyLists
  import M = AccessMeaning
  import P = Plans
  import PB = PlanBindings
  import Q = QuotaState
  import R = RouteEdits
  import G = Routing
  import S = Stores
  import U = UsageRecords

  /** A call of one of the store's operations, with what clocks and generators give it. */
  datatype Edit =
    | CreatePlan(plan: Plan, scopes: seq<string>, generated: string, now: Time, freshIDs: seq<string>)
    | UpdatePlan(id: string, name: Option<string>, windows: Option<seq<Window>>, selected: Option<seq<string>>, now: Time, freshIDs: seq<string>)
    | DeletePlan(id: string)
    | BindKey(scope: string, planID: string)
    | UnbindKey(scope: string)
    | ResetQuota(everyone: bool, scopes: seq<string>)
    | Authorize(prices: Prices, scope: string, upstream: string, requested: string, now: Time, scoped: bool)
    | RecordUsage(prices: Prices, event: U.UsageEvent)
    | ViewKeys(now: Time)
    | ViewKey(scope: string, now: Time)
    | SyncKeys(listed: map<string, string>, allowEmpty: bool, now: Time)
    | SetConcurrencyLimit(scope: string, limit: int)
    | CreateGroup(group: Group, scopes: seq<string>, generated: string)
    | UpdateGroup(patch: A.GroupPatch)
    | DeleteGroup(id: string)
    | SetKeyGroups(scopes: seq<string>, groupIDs: seq<string>)
    | CreateRoute(route: Route, scopes: seq<string>, generated: string)
    | UpdateRoute(id: string, name: Option<string>, rule: Option<RouteRule>, selected: Option<seq<string>>)
    | DeleteRoute(id: string)
    | SetKeyRoutes(scope: string, bindings: Bindings)
    | SetAccessControl(settings: AccessControl)
    | SyncConfigCredentials(credentials: map<string, ConfigCredential>)
    | ReplaceCredentials(mapping: C.Mapping, complete: bool, order: seq<string>)
  {
    /** What the program guarantees of the inputs: enough generated IDs, times after 1970, no negative cost. */
    ghost predicate Possible() {
      match this
      case CreatePlan(plan, _, _, _, freshIDs) => |plan.windows| <= |freshIDs|
      case UpdatePlan(_, _, windows, _, _, freshIDs) => windows.Some? ==> |windows.value| <= |freshIDs|
      case Authorize(_, _, _, _, now, _) => SaneClock(now)
      case RecordUsage(_, event) => U.Plausible(event)
      case SyncKeys(listed, _, _) => "" !in listed
      case ReplaceCredentials(mapping, _, order) => C.Acceptable(mapping) ==> C.Enumerates(order, mapping)
      case _ => true
    }
  }

  // ----- What each edit does ----------------------------------------------------------

  ghost function AfterPlanEdit(s: Snapshot, e: Edit): Snapshot
    requires e.Possible()
  {
    match e
    case CreatePlan(plan, scopes, generated, now, freshIDs) =>
      var made := PB.PlanCreation(s, plan, scopes, generated, now, freshIDs);
      if made.Ok? then PB.PlanCreated(s, made.value, SetOf(NormalizeScopes(scopes))) else s
    case UpdatePlan(id, name, windows, selected, now, freshIDs) =>
      var made := P.PlanUpdate(s, id, name, windows, selected, now, freshIDs);
      if made.Ok? then
        var (i, updated) := made.value;
        P.PlanUpdated(s, i, updated, P.Resets(windows, s.plans[i], updated), P.Selection(selected))
      else s
    case DeletePlan(id) =>
      var index := P.PlanIndex(s.plans, Trim(id));
      if Trim(id) == "" || index.None? then s else PB.PlanDeleted(s, index.value)
    case BindKey(scope, planID) =>
      var name, found := NormalizeScopeName(scope), Q.FindPlan(s.plans, planID);
      if found.None? || !LiveKey(s, name) || s.keys[name].planID == found.value.id then s
      else Q.WithKey(s, name, P.BoundTo(s.keys[name], found.value.id))
    case UnbindKey(scope) =>
      var name := NormalizeScopeName(scope);
      if name == "" || !LiveKey(s, name) || s.keys[name].planID == "" then s else Q.WithKey(s, name, Q.Unbound(s.keys[name]))
    case ResetQuota(everyone, scopes) =>
      var targets := PB.ResetTargets(s, everyone, scopes);
      if (everyone <==> NormalizeScopes(scopes) != []) || !PB.Resettable(s, targets) then s else PB.QuotaReset(s, targets)
    case _ => s
  }

  ghost function AfterUse(s: Snapshot, e: Edit): Snapshot
    requires Q.Sound(s) && e.Possible()
  {
    match e
    case Authorize(prices, scope, upstream, requested, now, scoped) =>
      var name := Trim(scope);
      if name == "" || name !in s.keys || s.keys[name].planID == "" then s else
      var found := Q.FindPlan(s.plans, s.keys[name].planID);
      if found.None? then Q.WithKey(s, name, Q.Unbound(s.keys[name]))
      else if scoped && Unresolvable(found.value.windows, upstream, requested) then s
      else E.AdmittedState(s, name, prices, upstream, requested, now, scoped)
    case RecordUsage(prices, event) => U.UsedState(s, ResolveBillingModel(prices, event.upstream, event.route), event)
    case _ => s
  }

  ghost function AfterKeyEdit(s: Snapshot, e: Edit): Snapshot {
    match e
    case ViewKeys(now) => K.KeysViewed(s, s.keys.Keys, now)
    case ViewKey(scope, now) =>
      var name := NormalizeScopeName(scope);
      if name != "" && LiveKey(s, name) then K.KeysViewed(s, {name}, now) else s
    case SyncKeys(listed, allowEmpty, now) => if listed == map[] && !allowEmpty then s else K.KeysSynced(s, listed, now)
    case SetConcurrencyLimit(scope, limit) =>
      var name := NormalizeScopeName(scope);
      if name == "" || !(0 <= limit <= K.MAX_CONCURRENCY) || !LiveKey(s, name) then s else K.Limited(s, name, limit)
    case SyncConfigCredentials(credentials) => s.(credentials := credentials)
    case _ => s
  }

  ghost function AfterGroupEdit(s: Snapshot, e: Edit): Snapshot {
    match e
    case CreateGroup(group, scopes, generated) =>
      var names := NormalizeScopes(scopes);
      var made := A.GroupCreation(s, group, names, generated);
      if made.Ok? then A.GroupCreated(s, made.value, SetOf(names)) else s
    case UpdateGroup(patch) =>
      var made := A.GroupUpdate(s, patch);
      if made.Ok? then A.GroupUpdated(s, made.value.0, made.value.1, A.Selected(patch.scopes)) else s
    case DeleteGroup(id) =>
      var index := A.GroupIndex(s.groups, Trim(id));
      if index.Some? then A.GroupDeleted(s, index.value) else s
    case SetKeyGroups(scopes, groupIDs) =>
      var names := NormalizeScopes(scopes);
      var made := A.Grouping(s, names, groupIDs);
      if made.Ok? then A.KeysGrouped(s, made.value, SetOf(names)) else s
    case SetAccessControl(settings) => s.(access := settings)
    case _ => s
  }

  ghost function AfterRouteEdit(s: Snapshot, e: Edit): Snapshot {
    match e
    case CreateRoute(route, scopes, generated) =>
      var names := NormalizeScopes(scopes);
      var made := R.RouteCreation(s, route, names, generated);
      if made.Ok? then R.RouteCreated(s, made.value, SetOf(names)) else s
    case UpdateRoute(id, name, rule, selected) =>
      var made := R.RouteUpdate(s, id, name, rule, selected);
      if made.Ok? then R.RouteUpdated(s, made.value.0, made.value.1, A.Selected(selected)) else s
    case DeleteRoute(id) =>
      var index := R.RouteIndex(s.routes, Trim(id));
      if Trim(id) != "" && index.Some? && !R.BoundByGroup(s.groups, Trim(id)) then R.RouteDeleted(s, index.value) else s
    case SetKeyRoutes(scope, bindings) =>
      var made := R.Binding(s, NormalizeScopeName(scope), bindings);
      if made.Ok? then R.KeyRouted(s, NormalizeScopeName(scope), made.value) else s
    case ReplaceCredentials(mapping, complete, order) =>
      if C.Acceptable(mapping) && C.Enumerates(order, mapping) then C.Replaced(mapping, complete, order, s) else s
    case _ => s
  }

  /** The working set after a call that succeeds; one that is refused or cannot be saved leaves it, but for uses, which always count. */
  ghost function After(s: Snapshot, e: Edit): Snapshot
    requires Q.Sound(s) && e.Possible()
  {
    if e.CreatePlan? || e.UpdatePlan? || e.DeletePlan? || e.BindKey? || e.UnbindKey? || e.ResetQuota? then AfterPlanEdit(s, e)
    else if e.Authorize? || e.RecordUsage? then AfterUse(s, e)
    else if e.ViewKeys? || e.ViewKey? || e.SyncKeys? || e.SetConcurrencyLimit? || e.SyncConfigCredentials? then AfterKeyEdit(s, e)
    else if e.CreateGroup? || e.UpdateGroup? || e.DeleteGroup? || e.SetKeyGroups? || e.SetAccessControl? then AfterGroupEdit(s, e)
    else AfterRouteEdit(s, e)
  }

  // ----- What is kept -----------------------------------------------------------------

  /** Every stored window has a normalized scope. */
  ghost predicate NormalScopes(plans: seq<Plan>) {
    forall plan, w :: plan in plans && w in plan.windows ==> StoredScope(w.scope)
  }

  /** A state as the store keeps it: plans and cycles consistent, every binding well-formed, scopes normalized. */
  ghost predicate Good(s: Snapshot) {
    Q.Consistent(s) && B.WellBound(s) && NormalScopes(s.plans)
  }

  /** Edits of plans, quotas and key lists leave the bindings alone. */
  lemma QuotaEditIsGood(s: Snapshot, t: Snapshot)
    requires Good(s) && Q.Consistent(t) && NormalScopes(t.plans) && B.SameBindings(s, t)
    ensures Good(t)
  {
    hide B.WellBound, Q.Consistent, NormalScopes, B.SameBindings;
    B.OtherEditsKeepBindings(s, t);
  }

  /** The same keys with the same plans and cycles. */
  ghost predicate SameQuotas(s: Snapshot, t: Snapshot) {
    && t.plans == s.plans && t.keys.Keys == s.keys.Keys
    && forall scope :: scope in s.keys ==> t.keys[scope].planID == s.keys[scope].planID && t.keys[scope].cycles == s.keys[scope].cycles
  }

  /** Edits of groups, routes, bindings and credentials leave plans and cycles alone. */
  lemma AccessEditIsGood(s: Snapshot, t: Snapshot)
    requires Good(s) && B.WellBound(t) && SameQuotas(s, t)
    ensures Good(t)
  {
    hide B.WellBound, NormalScopes, Q.GoodPlans, Q.FindPlan, GoodCycles;
    forall scope | scope in t.keys
      ensures Q.SoundKey(t.plans, t.keys[scope])
    {
      assert Q.SoundKey(s.plans, s.keys[scope]);
    }
  }

  lemma SameAsBefore(s: Snapshot)
    ensures SameQuotas(s, s)
  {
  }

  lemma EditedKeepsQuotas(s: Snapshot, routes: seq<Route>, groups: seq<Group>, f: (string, Key) -> Key)
    requires forall scope, key :: f(scope, key).planID == key.planID && f(scope, key).cycles == key.cycles
    ensures SameQuotas(s, A.BindingsEdited(s, routes, groups, f))
  {
  }

  // ----- Plan edits -------------------------------------------------------------------

  lemma {:induction false} PreparedScopes(windows: seq<Window>, existing: seq<Window>, now: Time, freshIDs: seq<string>)
    requires |windows| <= |freshIDs| && P.PreparedTo(windows, existing, now, freshIDs, |windows|).Ok?
    ensures forall w :: w in P.PreparedTo(windows, existing, now, freshIDs, |windows|).value ==> StoredScope(w.scope)
  {
    hide StoredScope, P.PreparedTo, P.PrepareOne;
    P.PreparedMeans(windows, existing, now, freshIDs, |windows|);
    forall w | w in P.PreparedTo(windows, existing, now, freshIDs, |windows|).value
      ensures StoredScope(w.scope)
    {
      var i :| 0 <= i < |windows| && P.PrepareOne(windows[i], existing, now, freshIDs[i]) == Ok(w);
      PreparedScope(windows[i], existing, now, freshIDs[i]);
    }
  }

  lemma PreparedScope(w: Window, existing: seq<Window>, now: Time, fresh': string)
    requires P.PrepareOne(w, existing, now, fresh').Ok?
    ensures StoredScope(P.PrepareOne(w, existing, now, fresh').value.scope)
  {
    hide StoredScope, NormalizeScope, Trim, SameSchedule;
    NormalizingIsStable(w.scope, NormalizeScope(w.scope).value);
  }

  lemma SameBindingsKept(s: Snapshot, plans: seq<Plan>, f: (string, Key) -> Key)
    requires forall scope, key :: f(scope, key).groupIDs == key.groupIDs && f(scope, key).bindings == key.bindings
    ensures B.SameBindings(s, S.Edited(s, plans, s.routes, s.groups, s.access, f))
  {
  }

  lemma CreatePlanIsGood(s: Snapshot, e: Edit)
    requires Good(s) && e.Possible() && e.CreatePlan?
    ensures Good(AfterPlanEdit(s, e))
  {
    hide Q.Consistent, B.WellBound, B.SameBindings, P.PreparedTo, P.ValidPlan, NormalizeScopes, StoredScope, Trim, PB.PlanCreated;
    var created := PB.PlanCreation(s, e.plan, e.scopes, e.generated, e.now, e.freshIDs);
    if created.Ok? {
      var made, bound := created.value, SetOf(NormalizeScopes(e.scopes));
      PB.CreationIsConsistent(s, e.plan, e.scopes, e.generated, e.now, e.freshIDs);
      PreparedScopes(e.plan.windows, [], e.now, e.freshIDs);
      CreatedKeepsBindings(s, made, bound);
      QuotaEditIsGood(s, PB.PlanCreated(s, made, bound));
    }
  }

  lemma CreatedKeepsBindings(s: Snapshot, made: Plan, bound: set<string>)
    ensures B.SameBindings(s, PB.PlanCreated(s, made, bound)) && PB.PlanCreated(s, made, bound).plans == s.plans + [made]
  {
    SameBindingsKept(s, s.plans + [made], (scope, key) => PB.CreatedKey(made.id, bound, scope, key));
  }

  lemma UpdatePlanIsGood(s: Snapshot, e: Edit)
    requires Good(s) && e.Possible() && e.UpdatePlan?
    ensures Good(AfterPlanEdit(s, e))
  {
    hide Q.Consistent, B.WellBound, B.SameBindings, P.PreparedTo, P.ValidPlan, NormalizeScopes, StoredScope, Trim, P.PlanUpdated, P.PlanUpdate, P.Resets;
    var edited := P.PlanUpdate(s, e.id, e.name, e.windows, e.selected, e.now, e.freshIDs);
    if edited.Ok? {
      var (i, updated) := edited.value;
      var reset, selected := P.Resets(e.windows, s.plans[i], updated), P.Selection(e.selected);
      ConsistentIsSound(s);
      P.UpdateIsConsistent(s, i, updated, e.windows, selected);
      UpdatedScopes(s, e);
      UpdatedKeepsBindings(s, i, updated, reset, selected);
      QuotaEditIsGood(s, P.PlanUpdated(s, i, updated, reset, selected));
    }
  }

  lemma ConsistentIsSound(s: Snapshot)
    requires Q.Consistent(s)
    ensures Q.Sound(s) && Q.Bound(s)
  {
  }

  lemma UpdatedScopes(s: Snapshot, e: Edit)
    requires NormalScopes(s.plans) && e.Possible() && e.UpdatePlan?
    requires P.PlanUpdate(s, e.id, e.name, e.windows, e.selected, e.now, e.freshIDs).Ok?
    ensures var (i, updated) := P.PlanUpdate(s, e.id, e.name, e.windows, e.selected, e.now, e.freshIDs).value;
            NormalScopes(s.plans[i := updated])
  {
    hide P.PreparedTo, P.ValidPlan, NormalizeScopes, StoredScope, Trim;
    var (i, updated) := P.PlanUpdate(s, e.id, e.name, e.windows, e.selected, e.now, e.freshIDs).value;
    if e.windows.Some? { PreparedScopes(e.windows.value, s.plans[i].windows, e.now, e.freshIDs); }
    assert s.plans[i] in s.plans;
    forall plan, w | plan in s.plans[i := updated] && w in plan.windows
      ensures StoredScope(w.scope)
    {
      var j :| 0 <= j < |s.plans| && s.plans[i := updated][j] == plan;
      assert j != i ==> plan in s.plans;
    }
  }

  lemma UpdatedKeepsBindings(s: Snapshot, i: nat, updated: Plan, reset: set<string>, selected: Option<set<string>>)
    requires i < |s.plans|
    ensures var t := P.PlanUpdated(s, i, updated, reset, selected); B.SameBindings(s, t) && t.plans == s.plans[i := updated]
  {
    SameBindingsKept(s, s.plans[i := updated], (scope, key) => P.UpdatedKey(updated.id, reset, selected, scope, key));
  }

  lemma DeletePlanIsGood(s: Snapshot, e: Edit)
    requires Good(s) && e.Possible() && e.DeletePlan?
    ensures Good(AfterPlanEdit(s, e))
  {
    hide Q.Consistent, B.WellBound, B.SameBindings, StoredScope, Trim;
    var index := P.PlanIndex(s.plans, Trim(e.id));
    if Trim(e.id) != "" && index.Some? {
      var i := index.value;
      var t := PB.PlanDeleted(s, i);
      PB.DeletionKeepsConsistent(s, i);
      SameBindingsKept(s, s.plans[..i] + s.plans[i + 1..], (scope, key) => PB.DeletedKey(s.plans[i].id, key));
      assert forall plan :: plan in t.plans ==> plan in s.plans;
      QuotaEditIsGood(s, t);
    }
  }

  /** Rewriting one key's plan and cycles. */
  lemma KeyEditIsGood(s: Snapshot, scope: string, key: Key)
    requires Good(s) && scope in s.keys && Q.SoundKey(s.plans, key) && (key.planID != "" ==> Q.FindPlan(s.plans, key.planID).Some?)
    requires key.groupIDs == s.keys[scope].groupIDs && key.bindings == s.keys[scope].bindings
    ensures Good(Q.WithKey(s, scope, key))
  {
    hide Q.Consistent, B.WellBound, Q.SoundKey, Q.FindPlan, NormalScopes;
    PB.KeyKeepsConsistent(s, scope, key);
    QuotaEditIsGood(s, Q.WithKey(s, scope, key));
  }

  lemma BindingIsGood(s: Snapshot, e: Edit)
    requires Good(s) && e.Possible() && (e.BindKey? || e.UnbindKey?)
    ensures Good(AfterPlanEdit(s, e))
  {
    hide Q.Consistent, B.WellBound, Q.SoundKey, Q.FindPlan, NormalScopes, NormalizeScopeName;
    var name := NormalizeScopeName(e.scope);
    if LiveKey(s, name) {
      PB.ReleasedIsSound(s, name);
      if e.UnbindKey? {
        KeyEditIsGood(s, name, Q.Unbound(s.keys[name]));
      } else if Q.FindPlan(s.plans, e.planID).Some? {
        PB.BoundIsSound(s, name, e.planID);
        KeyEditIsGood(s, name, P.BoundTo(s.keys[name], Q.FindPlan(s.plans, e.planID).value.id));
      }
    }
  }

  lemma ResetIsGood(s: Snapshot, e: Edit)
    requires Good(s) && e.Possible() && e.ResetQuota?
    ensures Good(AfterPlanEdit(s, e))
  {
    hide Q.Consistent, B.WellBound, B.SameBindings, NormalScopes, PB.Resettable, NormalizeScopes;
    var targets := PB.ResetTargets(s, e.everyone, e.scopes);
    PB.ResetKeepsConsistent(s, targets);
    SameBindingsKept(s, s.plans, (scope, key) => PB.ResetKey(targets, scope, key));
    QuotaEditIsGood(s, PB.QuotaReset(s, targets));
  }

  // ----- Uses -------------------------------------------------------------------------

  lemma AuthorizeIsGood(s: Snapshot, e: Edit)
    requires Good(s) && e.Possible() && e.Authorize?
    ensures Q.Sound(s) && Good(AfterUse(s, e))
  {
    hide Q.Sound, Q.Bound, B.WellBound, NormalScopes, Unresolvable, Trim, E.Decided, Q.FindPlan, E.Selected, SaneClock;
    var name := Trim(e.scope);
    if name != "" && name in s.keys && s.keys[name].planID != "" && Q.FindPlan(s.plans, s.keys[name].planID).Some? {
      E.AdmittedIsSound(s, name, e.prices, e.upstream, e.requested, e.now, e.scoped);
      E.AdmittedIsBound(s, name, e.prices, e.upstream, e.requested, e.now, e.scoped);
      QuotaEditIsGood(s, E.AdmittedState(s, name, e.prices, e.upstream, e.requested, e.now, e.scoped));
    } else if name in s.keys {
      E.UnboundIsSound(s, name);
      Q.BoundWith(s, name, Q.Unbound(s.keys[name]));
      QuotaEditIsGood(s, Q.WithKey(s, name, Q.Unbound(s.keys[name])));
    }
  }

  lemma UsageIsGood(s: Snapshot, e: Edit)
    requires Good(s) && e.Possible() && e.RecordUsage?
    ensures Q.Sound(s) && Good(AfterUse(s, e))
  {
    hide Q.Sound, Q.Bound, B.WellBound, NormalScopes, ResolveBillingModel, U.Plausible, U.UsedState;
    var model := ResolveBillingModel(e.prices, e.event.upstream, e.event.route);
    U.UsedIsSound(s, model, e.event);
    U.UsedIsBound(s, model, e.event);
    UseKeepsBindings(s, model, e.event);
    QuotaEditIsGood(s, U.UsedState(s, model, e.event));
  }

  lemma UseKeepsBindings(s: Snapshot, model: string, event: U.UsageEvent)
    ensures B.SameBindings(s, U.UsedState(s, model, event)) && U.UsedState(s, model, event).plans == s.plans
  {
    hide Trim, U.PreviewOf, Matching, Charged, Settled;
  }

  // ----- The key list -----------------------------------------------------------------

  lemma ViewIsGood(s: Snapshot, scopes: set<string>, now: Time)
    requires Good(s)
    ensures Good(K.KeysViewed(s, scopes, now))
  {
    hide B.WellBound, NormalScopes, Q.FindPlan, Q.GoodPlan, GoodCycles, Settled;
    var t := K.KeysViewed(s, scopes, now);
    assert B.SameBindings(s, t);
    forall scope | scope in t.keys
      ensures Q.SoundKey(t.plans, t.keys[scope]) && (t.keys[scope].planID != "" ==> Q.FindPlan(t.plans, t.keys[scope].planID).Some?)
    {
      ViewedIsSound(s, scope, now);
    }
    QuotaEditIsGood(s, t);
  }

  lemma ViewedIsSound(s: Snapshot, scope: string, now: Time)
    requires Q.Consistent(s) && scope in s.keys
    ensures forall key :: key == s.keys[scope] || key == K.ViewedKey(s.plans, s.keys[scope], now) ==>
              Q.SoundKey(s.plans, key) && (key.planID != "" ==> Q.FindPlan(s.plans, key.planID).Some?)
  {
    hide Q.GoodPlan, GoodCycle, WindowOf;
    var key := s.keys[scope];
    PB.NoNamelessPlan(s.plans);
    assert Q.SoundKey(s.plans, key);
    var found := Q.FindPlan(s.plans, key.planID);
    if found.Some? { SettlingKeepsGood(found.value.id, found.value.windows, key.cycles, now); }
  }

  lemma KeyListIsGood(s: Snapshot, e: Edit)
    requires Good(s) && (e.ViewKeys? || e.ViewKey? || e.SyncKeys? || e.SetConcurrencyLimit? || e.SyncConfigCredentials?)
    ensures Good(AfterKeyEdit(s, e))
  {
    hide Good, K.KeysViewed, K.KeysSynced, K.Limited, NormalizeScopeName;
    match e
    case ViewKeys(now) => ViewIsGood(s, s.keys.Keys, now);
    case ViewKey(scope, now) => ViewIsGood(s, {NormalizeScopeName(scope)}, now);
    case SyncKeys(listed, _, now) => SyncIsGood(s, listed, now);
    case SetConcurrencyLimit(scope, limit) =>
      if NormalizeScopeName(scope) in s.keys { LimitIsGood(s, NormalizeScopeName(scope), limit); }
    case SyncConfigCredentials(credentials) => InventoryIsGood(s, credentials);
  }

  lemma SyncIsGood(s: Snapshot, listed: map<string, string>, now: Time)
    requires Good(s)
    ensures Good(K.KeysSynced(s, listed, now))
  {
    hide B.WellBound, NormalScopes, Q.FindPlan, Q.GoodPlans, Q.SoundKey, K.SyncedKey, B.SameBindings;
    var t := K.KeysSynced(s, listed, now);
    SyncKeepsBindings(s, listed, now);
    forall scope | scope in t.keys
      ensures Q.SoundKey(t.plans, t.keys[scope]) && (t.keys[scope].planID != "" ==> Q.FindPlan(t.plans, t.keys[scope].planID).Some?)
    {
      SyncedIsSound(s, listed, now, scope);
    }
    QuotaEditIsGood(s, t);
  }

  lemma SyncKeepsBindings(s: Snapshot, listed: map<string, string>, now: Time)
    ensures B.SameBindings(s, K.KeysSynced(s, listed, now))
  {
  }

  lemma SyncedIsSound(s: Snapshot, listed: map<string, string>, now: Time, scope: string)
    requires Q.Consistent(s) && (scope in s.keys || scope in listed)
    ensures var key := K.SyncedKey(s.keys, listed, now, scope);
            Q.SoundKey(s.plans, key) && (key.planID != "" ==> Q.FindPlan(s.plans, key.planID).Some?)
  {
    hide Q.FindPlan, Q.GoodPlans, GoodCycles;
    PB.NoNamelessPlan(s.plans);
    if scope in s.keys { assert Q.SoundKey(s.plans, s.keys[scope]); }
  }

  lemma LimitIsGood(s: Snapshot, name: string, limit: int)
    requires Good(s) && name in s.keys
    ensures Good(K.Limited(s, name, limit))
  {
    hide B.WellBound, NormalScopes, Q.FindPlan, Q.GoodPlans, GoodCycles;
    assert Q.SoundKey(s.plans, s.keys[name]);
    KeyEditIsGood(s, name, s.keys[name].(concurrencyLimit := limit));
  }

  lemma InventoryIsGood(s: Snapshot, credentials: map<string, ConfigCredential>)
    requires Good(s)
    ensures Good(s.(credentials := credentials))
  {
    hide NormalScopes, Q.SoundKey, Q.GoodPlans, B.GoodKey, B.GoodRoutes, B.GoodGroups, Q.FindPlan;
  }

  // ----- Access edits -----------------------------------------------------------------

  lemma GroupEditIsGood(s: Snapshot, e: Edit)
    requires Good(s) && (e.CreateGroup? || e.UpdateGroup? || e.DeleteGroup? || e.SetKeyGroups? || e.SetAccessControl?)
    ensures Good(AfterGroupEdit(s, e)) && SameQuotas(s, AfterGroupEdit(s, e))
  {
    SameAsBefore(s);
    hide Q.Consistent, B.WellBound, NormalScopes, SameQuotas, NormalizeScopes, A.GroupCreation, A.GroupUpdate, A.Grouping, Trim;
    match e
    case CreateGroup(group, scopes, generated) =>
      var made, bound := A.GroupCreation(s, group, NormalizeScopes(scopes), generated), SetOf(NormalizeScopes(scopes));
      if made.Ok? {
        A.NormalizedGroupIsGood(s.routes, if Trim(group.id) == "" then group.(id := generated) else group);
        A.GroupCreatedIsWellBound(s, made.value, bound);
        EditedKeepsQuotas(s, s.routes, s.groups + [made.value], (scope, key) => A.JoinedKey(made.value.id, bound, scope, key));
        AccessEditIsGood(s, A.GroupCreated(s, made.value, bound));
      }
    case UpdateGroup(patch) =>
      var made := A.GroupUpdate(s, patch);
      if made.Ok? {
        var (i, group) := made.value;
        A.UpdateIsWellBound(s, patch);
        EditedKeepsQuotas(s, s.routes, s.groups[i := group], (scope, key) => A.RegroupedKey(group.id, A.Selected(patch.scopes), scope, key));
        AccessEditIsGood(s, A.GroupUpdated(s, i, group, A.Selected(patch.scopes)));
      }
    case DeleteGroup(id) =>
      var index := A.GroupIndex(s.groups, Trim(id));
      if index.Some? {
        var i := index.value;
        A.GroupDeletedIsWellBound(s, i);
        EditedKeepsQuotas(s, s.routes, s.groups[..i] + s.groups[i + 1..], (scope, key) => A.UngroupedKey(s.groups[i].id, scope, key));
        AccessEditIsGood(s, A.GroupDeleted(s, i));
      }
    case SetKeyGroups(scopes, groupIDs) =>
      var names := NormalizeScopes(scopes);
      var made := A.Grouping(s, names, groupIDs);
      if made.Ok? {
        A.KeysGroupedIsWellBound(s, made.value, SetOf(names));
        EditedKeepsQuotas(s, s.routes, s.groups, (scope, key) => A.GroupedKey(made.value, SetOf(names), scope, key));
        AccessEditIsGood(s, A.KeysGrouped(s, made.value, SetOf(names)));
      }
    case SetAccessControl(settings) => SettingsAreGood(s, settings);
  }

  lemma SettingsAreGood(s: Snapshot, settings: AccessControl)
    requires Good(s)
    ensures Good(s.(access := settings)) && SameQuotas(s, s.(access := settings))
  {
    hide NormalScopes, Q.SoundKey, Q.GoodPlans, B.GoodKey, B.GoodRoutes, B.GoodGroups, Q.FindPlan;
  }

  lemma RouteEditIsGood(s: Snapshot, e: Edit)
    requires Good(s) && e.Possible() && (e.CreateRoute? || e.UpdateRoute? || e.DeleteRoute? || e.SetKeyRoutes? || e.ReplaceCredentials?)
    ensures Good(AfterRouteEdit(s, e)) && SameQuotas(s, AfterRouteEdit(s, e))
  {
    SameAsBefore(s);
    hide SameQuotas, Good, NormalizeScopes, R.RouteCreation, R.RouteUpdate, R.Binding, Trim, NormalizeScopeName, R.RouteIndex, R.BoundByGroup,
         R.RouteCreated, R.RouteUpdated, R.RouteDeleted, R.KeyRouted, C.Replaced, C.Acceptable, C.Enumerates;
    match e
    case CreateRoute(route, scopes, generated) => RouteCreationIsGood(s, route, NormalizeScopes(scopes), generated);
    case UpdateRoute(id, name, rule, selected) => RouteUpdateIsGood(s, id, name, rule, selected);
    case DeleteRoute(id) => RouteDeletionIsGood(s, id);
    case SetKeyRoutes(scope, bindings) => KeyRoutesAreGood(s, NormalizeScopeName(scope), bindings);
    case ReplaceCredentials(mapping, complete, order) => ReplacementIsGood(s, mapping, complete, order);
  }

  lemma RouteCreationIsGood(s: Snapshot, route: Route, names: seq<string>, generated: string)
    requires Good(s)
    ensures var made := R.RouteCreation(s, route, names, generated);
            made.Ok? ==> var t := R.RouteCreated(s, made.value, SetOf(names)); Good(t) && SameQuotas(s, t)
  {
    hide Q.Consistent, B.WellBound, NormalScopes, SameQuotas, R.RouteCreation, Trim;
    var made, bound := R.RouteCreation(s, route, names, generated), SetOf(names);
    if made.Ok? {
      A.NormalizedRouteIsGood(if Trim(route.id) == "" then route.(id := generated) else route);
      R.RouteCreatedIsWellBound(s, made.value, bound);
      EditedKeepsQuotas(s, s.routes + [made.value], s.groups, (scope, key) => R.RouteJoinedKey(made.value.id, bound, scope, key));
      AccessEditIsGood(s, R.RouteCreated(s, made.value, bound));
    }
  }

  lemma RouteUpdateIsGood(s: Snapshot, id: string, name: Option<string>, rule: Option<RouteRule>, selected: Option<seq<string>>)
    requires Good(s)
    ensures var made := R.RouteUpdate(s, id, name, rule, selected);
            made.Ok? ==>
              && made.value.0 < |s.routes|
              && var t := R.RouteUpdated(s, made.value.0, made.value.1, A.Selected(selected)); Good(t) && SameQuotas(s, t)
  {
    hide Q.Consistent, B.WellBound, NormalScopes, SameQuotas, NormalizeScopes, R.RouteUpdate, Trim;
    var made := R.RouteUpdate(s, id, name, rule, selected);
    if made.Ok? {
      var (i, route) := made.value;
      R.RouteUpdateIsWellBound(s, id, name, rule, selected);
      EditedKeepsQuotas(s, s.routes[i := route], s.groups, (scope, key) => R.ReroutedKey(route.id, A.Selected(selected), scope, key));
      AccessEditIsGood(s, R.RouteUpdated(s, i, route, A.Selected(selected)));
    }
  }

  lemma RouteDeletionIsGood(s: Snapshot, id: string)
    requires Good(s)
    ensures var index := R.RouteIndex(s.routes, Trim(id));
            index.Some? && !R.BoundByGroup(s.groups, Trim(id)) ==> var t := R.RouteDeleted(s, index.value); Good(t) && SameQuotas(s, t)
  {
    hide Q.Consistent, B.WellBound, NormalScopes, SameQuotas, Trim, R.RouteIndex, R.BoundByGroup;
    var index := R.RouteIndex(s.routes, Trim(id));
    if index.Some? && !R.BoundByGroup(s.groups, Trim(id)) {
      var i := index.value;
      TrimIdempotent(id);
      R.RouteDeletedIsWellBound(s, i);
      EditedKeepsQuotas(s, s.routes[..i] + s.routes[i + 1..], s.groups, (scope, key) => R.UnroutedKey(s.routes[i].id, scope, key));
      AccessEditIsGood(s, R.RouteDeleted(s, i));
    }
  }

  lemma KeyRoutesAreGood(s: Snapshot, name: string, bindings: Bindings)
    requires Good(s)
    ensures var made := R.Binding(s, name, bindings); made.Ok? ==> var t := R.KeyRouted(s, name, made.value); Good(t) && SameQuotas(s, t)
  {
    hide Q.Consistent, B.WellBound, NormalScopes, SameQuotas, R.Binding;
    var made := R.Binding(s, name, bindings);
    if made.Ok? {
      R.BindingIsGood(s, name, bindings);
      R.KeyRoutedIsWellBound(s, name, made.value);
      EditedKeepsQuotas(s, s.routes, s.groups, (other, key) => R.BoundKey(name, made.value, other, key));
      AccessEditIsGood(s, R.KeyRouted(s, name, made.value));
    }
  }

  lemma ReplacementIsGood(s: Snapshot, mapping: C.Mapping, complete: bool, order: seq<string>)
    requires Good(s)
    ensures C.Acceptable(mapping) && C.Enumerates(order, mapping) ==>
              var t := C.Replaced(mapping, complete, order, s); Good(t) && SameQuotas(s, t)
  {
    hide Good, C.Acceptable, C.Enumerates, C.Replaced, B.WellBound, SameQuotas;
    if C.Acceptable(mapping) && C.Enumerates(order, mapping) {
      GoodIsWellBound(s);
      B.ReplacementKeepsBindings(mapping, complete, order, s);
      ReplacedKeepsQuotas(mapping, complete, order, s);
      AccessEditIsGood(s, C.Replaced(mapping, complete, order, s));
    }
  }

  lemma GoodIsWellBound(s: Snapshot)
    requires Good(s)
    ensures B.WellBound(s)
  {
  }

  lemma ReplacedKeepsQuotas(mapping: C.Mapping, complete: bool, order: seq<string>, s: Snapshot)
    requires C.Enumerates(order, mapping)
    ensures SameQuotas(s, C.Replaced(mapping, complete, order, s))
  {
    hide C.MigratedRule, C.MoveAll;
  }

  // ----- Runs -------------------------------------------------------------------------

  /** Whatever is done to it, a good state stays good. */
  lemma StepKeepsGood(s: Snapshot, e: Edit)
    requires Good(s) && e.Possible()
    ensures Q.Sound(s) && Good(After(s, e))
  {
    hide Good, Edit.Possible, AfterPlanEdit, AfterUse, AfterKeyEdit, AfterGroupEdit, AfterRouteEdit;
    GoodIsSound(s);
    if e.CreatePlan? { CreatePlanIsGood(s, e); }
    else if e.UpdatePlan? { UpdatePlanIsGood(s, e); }
    else if e.DeletePlan? { DeletePlanIsGood(s, e); }
    else if e.BindKey? || e.UnbindKey? { BindingIsGood(s, e); }
    else if e.ResetQuota? { ResetIsGood(s, e); }
    else if e.Authorize? { AuthorizeIsGood(s, e); }
    else if e.RecordUsage? { UsageIsGood(s, e); }
    else if e.ViewKeys? || e.ViewKey? || e.SyncKeys? || e.SetConcurrencyLimit? || e.SyncConfigCredentials? { KeyListIsGood(s, e); }
    else if e.CreateGroup? || e.UpdateGroup? || e.DeleteGroup? || e.SetKeyGroups? || e.SetAccessControl? { GroupEditIsGood(s, e); }
    else { RouteEditIsGood(s, e); }
  }

  lemma GoodIsSound(s: Snapshot)
    requires Good(s)
    ensures Q.Sound(s)
  {
  }

  ghost predicate AllPossible(edits: seq<Edit>) {
    forall i :: 0 <= i < |edits| ==> edits[i].Possible()
  }

  ghost function Run(s: Snapshot, edits: seq<Edit>): (t: Snapshot)
    requires Good(s) && AllPossible(edits)
    ensures Good(t)
    decreases |edits|
  {
    if edits == [] then s else
    StepKeepsGood(s, edits[0]);
    Run(After(s, edits[0]), edits[1..])
  }

  /**
    In every state that any run of edits reaches, each key is bound to an existing plan with
    valid cycles, and resolving its access never ends in a configuration error.
   */
  lemma EveryReachableStateResolves(s: Snapshot, edits: seq<Edit>, scope: string)
    requires Good(s) && AllPossible(edits) && scope in Run(s, edits).keys
    ensures var t := Run(s, edits);
            && Q.Consistent(t) && B.WellBound(t)
            && !G.StandingOf(t, Some(t.keys[scope])).Broken?
  {
    hide Run, B.WellBound, Q.Consistent, G.StandingOf;
    B.NeverBroken(Run(s, edits), scope);
  }

  const NOTHING_YET: Snapshot := State([], map[], [], [], AccessControl(false, false), map[])

  /** The empty working set is good, so every state the program builds up from it is. */
  lemma EmptyIsGood()
    ensures Good(NOTHING_YET)
  {
  }

  // ----- The operations make these steps ----------------------------------------------

  method PerformPlanEdit(store: S.Store, e: Edit, fails: bool)
    requires store.Valid() && Good(store.Memory()) && e.Possible()
    requires e.CreatePlan? || e.UpdatePlan? || e.DeletePlan? || e.BindKey? || e.UnbindKey? || e.ResetQuota?
    modifies store`state, store`dirty, store`unsavedNormal, store`unsavedErrors, store.repo
    ensures store.Valid() && (store.Memory() == AfterPlanEdit(old(store.Memory()), e) || (fails && store.Memory() == old(store.Memory())))
  {
    hide Q.Consistent, B.WellBound, NormalScopes, S.Store.Valid, S.Store.Kept, S.Store.Attempted, KeysOf, PB.PlanCreation, P.PlanUpdate, PB.PlanDeleted, PB.QuotaReset,
         PB.Resettable, Q.FindPlan, NormalizeScopes, NormalizeScopeName, Trim;
    match e
    case CreatePlan(plan, scopes, generated, now, freshIDs) => var _ := PB.CreatePlan(store, plan, scopes, generated, now, freshIDs, fails);
    case UpdatePlan(id, name, windows, selected, now, freshIDs) => var _ := P.UpdatePlan(store, id, name, windows, selected, now, freshIDs, fails);
    case DeletePlan(id) => var _ := PB.DeletePlan(store, id, fails);
    case BindKey(scope, planID) => var _ := PB.BindKey(store, scope, planID, fails);
    case UnbindKey(scope) => var _ := PB.UnbindKey(store, scope, fails);
    case ResetQuota(everyone, scopes) => var _, _, _ := PB.ResetQuota(store, everyone, scopes, fails);
  }

  method PerformUse(store: S.Store, e: Edit, fails: bool)
    requires store.Valid() && Good(store.Memory()) && e.Possible() && (e.Authorize? || e.RecordUsage?)
    modifies store, store.repo, Cells(store.state.keys)
    ensures store.Valid() && Q.Sound(old(store.Memory())) && store.Memory() == AfterUse(old(store.Memory()), e)
  {
    hide Q.Sound, Q.Bound, B.WellBound, NormalScopes, S.Store.Valid, S.Store.Kept, S.Store.Attempted, KeysOf, Q.FindPlan, E.AdmittedState, U.UsedState, Unresolvable, Trim;
    match e
    case Authorize(prices, scope, upstream, requested, now, scoped) =>
      var _ := E.Authorize(store, prices, scope, upstream, requested, now, scoped, fails);
    case RecordUsage(prices, event) => U.RecordUsage(store, prices, event, fails);
  }

  method PerformKeyEdit(store: S.Store, e: Edit, fails: bool)
    requires store.Valid() && e.Possible() && (e.ViewKeys? || e.ViewKey? || e.SyncKeys? || e.SetConcurrencyLimit? || e.SyncConfigCredentials?)
    modifies store, store.repo, Cells(store.state.keys)
    ensures store.Valid() && (store.Memory() == AfterKeyEdit(old(store.Memory()), e) || (fails && store.Memory() == old(store.Memory())))
  {
    hide S.Store.Valid, S.Store.Kept, S.Store.Attempted, KeysOf, K.KeysViewed, K.KeysSynced, K.Limited, NormalizeScopeName;
    match e
    case ViewKeys(now) => K.ViewKeys(store, now, fails);
    case ViewKey(scope, now) => var _ := K.ViewKey(store, scope, now, fails);
    case SyncKeys(listed, allowEmpty, now) => var _ := K.SyncKeys(store, listed, allowEmpty, now, fails);
    case SetConcurrencyLimit(scope, limit) => var _ := K.SetConcurrencyLimit(store, scope, limit, fails);
    case SyncConfigCredentials(credentials) => var _ := K.SyncConfigCredentials(store, credentials, fails);
  }

  method PerformGroupEdit(store: S.Store, e: Edit, fails: bool)
    requires store.Valid() && Good(store.Memory()) && (e.CreateGroup? || e.UpdateGroup? || e.DeleteGroup? || e.SetKeyGroups? || e.SetAccessControl?)
    modifies store`state, store`dirty, store`unsavedNormal, store`unsavedErrors, store.repo
    ensures store.Valid() && (store.Memory() == AfterGroupEdit(old(store.Memory()), e) || (fails && store.Memory() == old(store.Memory())))
  {
    hide Q.Consistent, B.WellBound, NormalScopes, S.Store.Valid, S.Store.Kept, S.Store.Attempted, KeysOf, A.GroupCreation, A.GroupUpdate, A.GroupIndex, A.Grouping,
         A.GroupDeleted, A.GroupCreated, A.GroupUpdated, A.KeysGrouped, S.Store.Held, NormalizeScopes, Trim, SetOf;
    match e
    case CreateGroup(group, scopes, generated) => var _ := A.CreateGroup(store, group, scopes, generated, fails);
    case UpdateGroup(patch) => var _ := A.UpdateGroup(store, patch, fails);
    case DeleteGroup(id) => var _ := A.DeleteGroup(store, id, fails);
    case SetKeyGroups(scopes, groupIDs) => var _ := A.SetKeyGroups(store, scopes, groupIDs, fails);
    case SetAccessControl(settings) => var _ := A.SetAccessControl(store, settings, fails);
  }

  method PerformRouteEdit(store: S.Store, e: Edit, fails: bool)
    requires store.Valid() && Good(store.Memory()) && (e.CreateRoute? || e.UpdateRoute? || e.DeleteRoute? || e.SetKeyRoutes?)
    modifies store`state, store`dirty, store`unsavedNormal, store`unsavedErrors, store.repo
    ensures store.Valid() && (store.Memory() == AfterRouteEdit(old(store.Memory()), e) || (fails && store.Memory() == old(store.Memory())))
  {
    hide Q.Consistent, B.WellBound, NormalScopes, S.Store.Valid, S.Store.Kept, S.Store.Attempted, KeysOf, R.RouteCreation, R.RouteUpdate, R.RouteIndex, R.Binding,
         R.BoundByGroup, R.RouteDeleted, R.RouteCreated, R.RouteUpdated, R.KeyRouted, S.Store.Held, NormalizeScopes, NormalizeScopeName, Trim, SetOf;
    match e
    case CreateRoute(route, scopes, generated) => var _ := R.CreateRoute(store, route, scopes, generated, fails);
    case UpdateRoute(id, name, rule, selected) => var _ := R.UpdateRoute(store, id, name, rule, selected, fails);
    case DeleteRoute(id) => var _ := R.DeleteRoute(store, id, fails);
    case SetKeyRoutes(scope, bindings) => var _ := R.SetKeyRoutes(store, scope, bindings, fails);
  }

  method PerformReplacement(store: S.Store, e: Edit, fails: bool) returns (ghost done: Edit)
    requires store.Valid() && e.Possible() && e.ReplaceCredentials?
    modifies store`state, store`dirty, store`unsavedNormal, store`unsavedErrors, store.repo
    ensures store.Valid() && done.Possible() && done.ReplaceCredentials?
    ensures store.Memory() == AfterRouteEdit(old(store.Memory()), done) || (fails && store.Memory() == old(store.Memory()))
  {
    hide S.Store.Valid, S.Store.Kept, S.Store.Attempted, KeysOf, C.Acceptable, C.Enumerates, C.Replaced;
    var ok, order := C.MigrateCredentialRefs(store, e.mapping, e.complete, fails);
    done := if ok then e.(order := order) else e;
  }

  /**
    Any call of any operation, whether or not its save works: a good state stays good, and the
    working set either makes exactly the edit's step or, when the save fails, stays as it was; a
    use always counts.
    The order in which a replacement visits the configured credentials is its own choice.
   */
  method Perform(store: S.Store, e: Edit, fails: bool) returns (ghost done: Edit)
    requires store.Valid() && Good(store.Memory()) && e.Possible()
    modifies store, store.repo, Cells(store.state.keys)
    ensures store.Valid() && Good(store.Memory()) && Q.Sound(old(store.Memory()))
    ensures done.Possible() && (!e.ReplaceCredentials? ==> done == e)
    ensures store.Memory() in {old(store.Memory()), After(old(store.Memory()), done)}
    ensures !fails || e.RecordUsage? || e.Authorize? ==> store.Memory() == After(old(store.Memory()), done)
  {
    hide Good, Edit.Possible, AfterPlanEdit, AfterUse, AfterKeyEdit, AfterGroupEdit, AfterRouteEdit, S.Store.Valid, S.Store.Kept, S.Store.Attempted, KeysOf;
    ghost var s := store.Memory();
    done := e;
    if e.CreatePlan? || e.UpdatePlan? || e.DeletePlan? || e.BindKey? || e.UnbindKey? || e.ResetQuota? {
      PerformPlanEdit(store, e, fails);
    } else if e.Authorize? || e.RecordUsage? {
      PerformUse(store, e, fails);
    } else if e.ViewKeys? || e.ViewKey? || e.SyncKeys? || e.SetConcurrencyLimit? || e.SyncConfigCredentials? {
      PerformKeyEdit(store, e, fails);
    } else if e.CreateGroup? || e.UpdateGroup? || e.DeleteGroup? || e.SetKeyGroups? || e.SetAccessControl? {
      PerformGroupEdit(store, e, fails);
    } else if e.ReplaceCredentials? {
      done := PerformReplacement(store, e, fails);
    } else {
      PerformRouteEdit(store, e, fails);
    }
    StepKeepsGood(s, done);
  }
}
