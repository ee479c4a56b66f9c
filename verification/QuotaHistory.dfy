/**
  The quota ledger of one key along runs of the whole store: whatever is done to plans, keys,
  groups, routes and credentials, each live cycle's counters are the capped sum of the usage
  recorded for that key.
 */
module QuotaHistory {
  import opened Text
  import opened Model
  import opened ModelNames
  import opened QuotaCycles
  import opened QuotaScopes
  import opened ReachableStates
  import B = AccessBindings
  import E = Enforcement
  import G = Routing
  import K = KeyLists
  import L = QuotaLedger
  import P = Plans
  import PB = PlanBindings
  import Q = QuotaState
  import U = UsageRecords

  function WindowsOf(plans: seq<Plan>, planID: string): seq<Window> {
    match Q.FindPlan(plans, planID)
    case None => []
    case Some(plan) => plan.windows
  }

  /** The ledger is at the key's plan and cycles; a scope without a record is as good as an unbound one. */
  ghost predicate Follows(l: L.Ledger, s: Snapshot, scope: string) {
    if scope in s.keys then
      && l.planID == s.keys[scope].planID && l.cycles == s.keys[scope].cycles
      && l.windows == WindowsOf(s.plans, s.keys[scope].planID)
    else l.planID == "" && l.cycles == map[] && l.windows == []
  }

  // ----- What an edit means for one key -----------------------------------------------

  ghost function PlanSteps(s: Snapshot, e: Edit, scope: string): seq<L.Step>
    requires e.Possible() && scope in s.keys
  {
    var key := s.keys[scope];
    match e
    case CreatePlan(plan, scopes, generated, now, freshIDs) =>
      var made := PB.PlanCreation(s, plan, scopes, generated, now, freshIDs);
      if made.Ok? && scope in SetOf(NormalizeScopes(scopes)) then [L.Rebind(made.value.id, made.value.windows)] else []
    case UpdatePlan(id, name, windows, selected, now, freshIDs) =>
      var made := P.PlanUpdate(s, id, name, windows, selected, now, freshIDs);
      if made.Err? then []
      else UpdateSteps(made.value.1, windows, P.Selection(selected), scope, key)
    case DeletePlan(id) =>
      var index := P.PlanIndex(s.plans, Trim(id));
      if Trim(id) != "" && index.Some? && key.planID == s.plans[index.value].id then [L.Rebind("", [])] else []
    case BindKey(name, planID) =>
      var found := Q.FindPlan(s.plans, planID);
      if found.Some? && scope == NormalizeScopeName(name) && key.Live() && key.planID != found.value.id then
        [L.Rebind(found.value.id, found.value.windows)]
      else []
    case UnbindKey(name) =>
      if scope == NormalizeScopeName(name) && scope != "" && key.Live() && key.planID != "" then [L.Rebind("", [])] else []
    case ResetQuota(everyone, scopes) =>
      var targets := PB.ResetTargets(s, everyone, scopes);
      if (everyone <==> NormalizeScopes(scopes) != []) || !PB.Resettable(s, targets) || scope !in targets then [] else [L.Reset]
    case _ => []
  }

  ghost function UpdateSteps(updated: Plan, windows: Option<seq<Window>>, selected: Option<set<string>>, scope: string, key: Key): seq<L.Step> {
    if key.planID == updated.id then
      if selected.Some? && scope !in selected.value then [L.Rebind("", [])]
      else if windows.None? then []
      else [L.Replan(updated.windows)]
    else if selected.Some? && scope in selected.value && key.planID == "" then [L.Rebind(updated.id, updated.windows)]
    else []
  }

  function RecordOf(prices: Prices, event: U.UsageEvent): L.Record {
    L.Record(event.requestedAt, ResolveBillingModel(prices, event.upstream, event.route), event.Usage())
  }

  predicate Records(e: Edit, scope: string) {
    e.RecordUsage? && Trim(e.event.scope) == scope != ""
  }

  ghost function UseSteps(s: Snapshot, e: Edit, scope: string): seq<L.Step> {
    match e
    case Authorize(prices, name, upstream, requested, now, scoped) =>
      if Trim(name) != scope || scope == "" || scope !in s.keys || s.keys[scope].planID == "" then []
      else if scoped && Unresolvable(WindowsOf(s.plans, s.keys[scope].planID), upstream, requested) then []
      else [L.Admit(ResolveBillingModel(prices, upstream, requested), now, scoped)]
    case RecordUsage(prices, event) => if Records(e, scope) then [L.Use(RecordOf(prices, event), event.at)] else []
    case _ => []
  }

  ghost function ViewSteps(s: Snapshot, e: Edit, scope: string): seq<L.Step>
    requires scope in s.keys
  {
    var key := s.keys[scope];
    if !key.Live() || key.planID == "" then []
    else if e.ViewKeys? then [L.Settle(e.now)]
    else if e.ViewKey? && scope == NormalizeScopeName(e.scope) && scope != "" then [L.Settle(e.now)]
    else []
  }

  ghost function StepsOf(s: Snapshot, e: Edit, scope: string): seq<L.Step>
    requires e.Possible()
  {
    if e.Authorize? || e.RecordUsage? then UseSteps(s, e, scope)
    else if scope !in s.keys then []
    else if e.ViewKeys? || e.ViewKey? then ViewSteps(s, e, scope)
    else PlanSteps(s, e, scope)
  }

  // ----- The ledger follows -----------------------------------------------------------

  ghost predicate Tracks(l: L.Ledger, steps: seq<L.Step>, t: Snapshot, scope: string)
    requires L.Sound(l)
  {
    L.Fits(l, steps) && Follows(L.Run(l, steps), t, scope)
  }

  lemma NoStep(l: L.Ledger, t: Snapshot, scope: string)
    requires L.Sound(l) && Follows(l, t, scope)
    ensures Tracks(l, [], t, scope)
  {
    hide L.Sound, Follows;
  }

  lemma OneStep(l: L.Ledger, step: L.Step, t: Snapshot, scope: string)
    requires L.Sound(l) && L.Sensible(l, step) && PositivePeriods(l.windows) && Follows(L.After(l, step), t, scope)
    ensures Tracks(l, [step], t, scope)
  {
    hide L.Sound, L.Sensible, L.After, Follows;
    L.StepKeepsSound(l, step);
    var steps, next := [step], L.After(l, step);
    assert steps[0] == step && steps[1..] == [];
    assert L.Fits(next, []) && L.Run(next, []) == next;
    assert L.Fits(l, steps);
    assert L.Run(l, steps) == L.Run(next, steps[1..]);
  }

  lemma GoodPlanOf(s: Snapshot, plan: Plan)
    requires Good(s) && plan in s.plans
    ensures GoodWindows(plan.windows) && L.GoodScopes(plan.windows) && plan.id != "" && WindowsOf(s.plans, plan.id) == plan.windows
  {
    hide StoredScope, GoodWindow, Q.SoundKey, Q.Bound;
    hide B.WellBound;
    var i :| 0 <= i < |s.plans| && s.plans[i] == plan;
    Q.FindFirst(s.plans, i);
    assert Q.GoodPlan(plan);
  }

  lemma NothingWindowed(plans: seq<Plan>)
    ensures WindowsOf(plans, "") == []
  {
    PB.NoNamelessPlan(plans);
  }

  /** A key put on a plan, without cycles. */
  lemma Rebinds(l: L.Ledger, t: Snapshot, scope: string, plan: Plan)
    requires L.Sound(l) && Good(t) && plan in t.plans
    requires scope in t.keys && t.keys[scope].planID == plan.id && t.keys[scope].cycles == map[]
    ensures Tracks(l, [L.Rebind(plan.id, plan.windows)], t, scope)
  {
    hide Good, L.Sound, GoodWindows, L.GoodScopes, WindowsOf;
    GoodPlanOf(t, plan);
    L.SoundParts(l);
    OneStep(l, L.Rebind(plan.id, plan.windows), t, scope);
  }

  /** A key taken off its plan. */
  lemma Releases(l: L.Ledger, t: Snapshot, scope: string)
    requires L.Sound(l) && scope in t.keys && t.keys[scope].planID == "" && t.keys[scope].cycles == map[]
    ensures Tracks(l, [L.Rebind("", [])], t, scope)
  {
    hide L.Sound, WindowsOf;
    NothingWindowed(t.plans);
    L.SoundParts(l);
    OneStep(l, L.Rebind("", []), t, scope);
  }

  /** A key an edit leaves on its plan, with the same windows and cycles. */
  lemma Stays(l: L.Ledger, s: Snapshot, t: Snapshot, scope: string)
    requires L.Sound(l) && Follows(l, s, scope) && (scope in t.keys <==> scope in s.keys)
    requires scope in s.keys ==>
               && t.keys[scope].planID == s.keys[scope].planID && t.keys[scope].cycles == s.keys[scope].cycles
               && WindowsOf(t.plans, s.keys[scope].planID) == WindowsOf(s.plans, s.keys[scope].planID)
    ensures Tracks(l, [], t, scope)
  {
    hide L.Sound, WindowsOf;
    NoStep(l, t, scope);
  }

  lemma FollowsCreation(l: L.Ledger, s: Snapshot, e: Edit, scope: string)
    requires L.Sound(l) && Follows(l, s, scope) && Good(s) && e.Possible() && e.CreatePlan? && scope in s.keys
    ensures Tracks(l, PlanSteps(s, e, scope), AfterPlanEdit(s, e), scope)
  {
    hide L.Sound, Good, Follows, Tracks, PB.PlanCreation, NormalizeScopes, WindowsOf;
    var made := PB.PlanCreation(s, e.plan, e.scopes, e.generated, e.now, e.freshIDs);
    if made.Ok? {
      var bound := SetOf(NormalizeScopes(e.scopes));
      var t := PB.PlanCreated(s, made.value, bound);
      CreatePlanIsGood(s, e);
      if scope in bound {
        Rebinds(l, t, scope, made.value);
      } else {
        BoundPlanExists(s, scope);
        AppendedWindows(s, made.value, s.keys[scope].planID);
        Stays(l, s, t, scope);
      }
    } else {
      Stays(l, s, s, scope);
    }
  }

  lemma BoundPlanExists(s: Snapshot, scope: string)
    requires Good(s) && scope in s.keys
    ensures s.keys[scope].planID == "" || Q.FindPlan(s.plans, s.keys[scope].planID).Some?
    ensures Q.FindPlan(s.plans, s.keys[scope].planID).Some? ==> Q.FindPlan(s.plans, s.keys[scope].planID).value.id == s.keys[scope].planID
  {
    hide B.WellBound, NormalScopes, Q.GoodPlan, GoodCycles;
    assert Q.SoundKey(s.plans, s.keys[scope]);
  }

  lemma AppendedWindows(s: Snapshot, plan: Plan, planID: string)
    requires planID == "" || Q.FindPlan(s.plans, planID).Some?
    ensures WindowsOf(s.plans + [plan], planID) == WindowsOf(s.plans, planID)
  {
    if planID == "" {
      NothingWindowed(s.plans);
      NothingWindowed(s.plans + [plan]);
    } else {
      PB.FindAppended(s.plans, plan, planID);
    }
  }

  lemma FollowsUpdate(l: L.Ledger, s: Snapshot, e: Edit, scope: string)
    requires L.Sound(l) && Follows(l, s, scope) && Good(s) && e.Possible() && e.UpdatePlan? && scope in s.keys
    ensures Tracks(l, PlanSteps(s, e, scope), AfterPlanEdit(s, e), scope)
  {
    hide L.Sound, Good, Follows, Tracks, P.PlanUpdate, P.PlanUpdated, P.Resets, P.Selection, UpdateSteps, WindowsOf;
    var made := P.PlanUpdate(s, e.id, e.name, e.windows, e.selected, e.now, e.freshIDs);
    if made.Ok? {
      var (i, updated) := made.value;
      var reset, selected := P.Resets(e.windows, s.plans[i], updated), P.Selection(e.selected);
      UpdatePlanIsGood(s, e);
      FollowsUpdated(l, s, i, updated, e.windows, selected, scope);
    } else {
      Stays(l, s, s, scope);
    }
  }

  lemma FollowsUpdated(l: L.Ledger, s: Snapshot, i: nat, updated: Plan, windows: Option<seq<Window>>, selected: Option<set<string>>, scope: string)
    requires L.Sound(l) && Follows(l, s, scope) && Good(s) && scope in s.keys && i < |s.plans| && updated.id == s.plans[i].id
    requires windows.None? ==> updated.windows == s.plans[i].windows
    requires Good(P.PlanUpdated(s, i, updated, P.Resets(windows, s.plans[i], updated), selected))
    ensures Tracks(l, UpdateSteps(updated, windows, selected, scope, s.keys[scope]),
                   P.PlanUpdated(s, i, updated, P.Resets(windows, s.plans[i], updated), selected), scope)
  {
    hide L.Sound, Good, Follows, Tracks, WindowsOf, P.ResetWindows;
    var reset := P.Resets(windows, s.plans[i], updated);
    var t, key := P.PlanUpdated(s, i, updated, reset, selected), s.keys[scope];
    assert t.keys[scope] == P.UpdatedKey(updated.id, reset, selected, scope, key);
    assert t.plans == s.plans[i := updated] && t.plans[i] in t.plans;
    GoodPlanOf(s, s.plans[i]);
    if key.planID == updated.id {
      if selected.Some? && scope !in selected.value {
        Releases(l, t, scope);
      } else {
        FollowsReplan(l, s, t, i, updated, windows, scope);
      }
    } else if selected.Some? && scope in selected.value && key.planID == "" {
      Rebinds(l, t, scope, updated);
    } else {
      BoundPlanExists(s, scope);
      ReplacedWindows(s, i, updated, key.planID);
      Stays(l, s, t, scope);
    }
  }

  lemma FollowsReplan(l: L.Ledger, s: Snapshot, t: Snapshot, i: nat, updated: Plan, windows: Option<seq<Window>>, scope: string)
    requires L.Sound(l) && Follows(l, s, scope) && Good(s) && Good(t) && i < |s.plans| && updated.id == s.plans[i].id
    requires windows.None? ==> updated.windows == s.plans[i].windows
    requires scope in s.keys && s.keys[scope].planID == updated.id && updated in t.plans
    requires scope in t.keys && t.keys[scope] == s.keys[scope].(cycles := s.keys[scope].cycles - P.Resets(windows, s.plans[i], updated))
    ensures Tracks(l, if windows.None? then [] else [L.Replan(updated.windows)], t, scope)
  {
    hide L.Sound, Good, Tracks, WindowsOf, P.ResetWindows, GoodWindows, L.GoodScopes;
    GoodPlanOf(s, s.plans[i]);
    GoodPlanOf(t, updated);
    L.SoundParts(l);
    if windows.None? {
      assert t.keys[scope].cycles == s.keys[scope].cycles;
      Stays(l, s, t, scope);
    } else {
      OneStep(l, L.Replan(updated.windows), t, scope);
    }
  }

  lemma ReplacedWindows(s: Snapshot, i: nat, updated: Plan, planID: string)
    requires i < |s.plans| && updated.id == s.plans[i].id != planID
    requires planID == "" || (Q.FindPlan(s.plans, planID).Some? && Q.FindPlan(s.plans, planID).value.id == planID)
    ensures WindowsOf(s.plans[i := updated], planID) == WindowsOf(s.plans, planID)
  {
    if planID == "" {
      NothingWindowed(s.plans);
      NothingWindowed(s.plans[i := updated]);
    } else {
      P.FindReplaced(s.plans, i, updated, planID);
    }
  }

  lemma FollowsDeletion(l: L.Ledger, s: Snapshot, e: Edit, scope: string)
    requires L.Sound(l) && Follows(l, s, scope) && Good(s) && e.Possible() && e.DeletePlan? && scope in s.keys
    ensures Tracks(l, PlanSteps(s, e, scope), AfterPlanEdit(s, e), scope)
  {
    hide L.Sound, Good, Follows, Tracks, WindowsOf, P.PlanIndex, Trim;
    var index := P.PlanIndex(s.plans, Trim(e.id));
    if Trim(e.id) != "" && index.Some? {
      var i, key := index.value, s.keys[scope];
      var t := PB.PlanDeleted(s, i);
      if key.planID == s.plans[i].id {
        Releases(l, t, scope);
      } else {
        BoundPlanExists(s, scope);
        RemainingWindows(s, i, key.planID);
        Stays(l, s, t, scope);
      }
    } else {
      Stays(l, s, s, scope);
    }
  }

  lemma RemainingWindows(s: Snapshot, i: nat, planID: string)
    requires i < |s.plans| && planID != s.plans[i].id
    requires planID == "" || (Q.FindPlan(s.plans, planID).Some? && Q.FindPlan(s.plans, planID).value.id == planID)
    ensures WindowsOf(s.plans[..i] + s.plans[i + 1..], planID) == WindowsOf(s.plans, planID)
  {
    hide Trim;
    if planID == "" {
      NothingWindowed(s.plans);
      NothingWindowed(s.plans[..i] + s.plans[i + 1..]);
    } else {
      PB.FindRemaining(s.plans, i, planID);
    }
  }

  lemma FollowsBinding(l: L.Ledger, s: Snapshot, e: Edit, scope: string)
    requires L.Sound(l) && Follows(l, s, scope) && Good(s) && e.Possible() && (e.BindKey? || e.UnbindKey?) && scope in s.keys
    ensures Tracks(l, PlanSteps(s, e, scope), AfterPlanEdit(s, e), scope)
  {
    hide L.Sound, Good, Follows, Tracks, WindowsOf, Q.FindPlan, NormalizeScopeName;
    var t := AfterPlanEdit(s, e);
    BindingIsGood(s, e);
    if PlanSteps(s, e, scope) == [] {
      Stays(l, s, t, scope);
    } else if e.BindKey? {
      Rebinds(l, t, scope, Q.FindPlan(s.plans, e.planID).value);
    } else {
      Releases(l, t, scope);
    }
  }

  lemma FollowsReset(l: L.Ledger, s: Snapshot, e: Edit, scope: string)
    requires L.Sound(l) && Follows(l, s, scope) && Good(s) && e.Possible() && e.ResetQuota? && scope in s.keys
    ensures Tracks(l, PlanSteps(s, e, scope), AfterPlanEdit(s, e), scope)
  {
    hide L.Sound, Good, Tracks, WindowsOf, PB.Resettable, NormalizeScopes, PB.ResetTargets;
    L.SoundParts(l);
    if PlanSteps(s, e, scope) == [] {
      Stays(l, s, AfterPlanEdit(s, e), scope);
    } else {
      OneStep(l, L.Reset, AfterPlanEdit(s, e), scope);
    }
  }

  lemma FollowsAdmission(l: L.Ledger, s: Snapshot, e: Edit, scope: string)
    requires L.Sound(l) && Follows(l, s, scope) && Good(s) && e.Possible() && e.Authorize? && Q.Sound(s)
    ensures Tracks(l, UseSteps(s, e, scope), AfterUse(s, e), scope)
  {
    hide L.Sound, Good, Tracks, Q.Sound, Q.FindPlan, E.Decided, Matching, ResolveBillingModel, Unresolvable, Trim, Settled;
    L.SoundParts(l);
    var name := Trim(e.scope);
    if name in s.keys { BoundPlanExists(s, name); }
    var t := AfterUse(s, e);
    if UseSteps(s, e, scope) == [] {
      Stays(l, s, t, scope);
    } else {
      OneStep(l, L.Admit(ResolveBillingModel(e.prices, e.upstream, e.requested), e.now, e.scoped), t, scope);
    }
  }

  lemma FollowsUse(l: L.Ledger, s: Snapshot, e: Edit, scope: string)
    requires L.Sound(l) && Follows(l, s, scope) && Good(s) && e.Possible() && e.RecordUsage? && Q.Sound(s)
    ensures Tracks(l, UseSteps(s, e, scope), AfterUse(s, e), scope)
  {
    hide L.Sound, Good, Tracks, Q.Sound, WindowsOf, Charged, Matching, ResolveBillingModel, Trim, Settled, U.UsedState;
    L.SoundParts(l);
    var model := ResolveBillingModel(e.prices, e.event.upstream, e.event.route);
    if Trim(e.event.scope) != "" { UsedCycles(s, model, e.event); }
    if Records(e, scope) {
      NothingWindowed(s.plans);
      UnboundIsFree(l, e.event, Matching(l.windows, model));
      OneStep(l, L.Use(RecordOf(e.prices, e.event), e.event.at), AfterUse(s, e), scope);
    } else {
      OthersUnused(s, model, e.event, scope);
      Stays(l, s, AfterUse(s, e), scope);
    }
  }

  lemma OthersUnused(s: Snapshot, model: string, event: U.UsageEvent, scope: string)
    requires Trim(event.scope) != scope || scope == ""
    ensures var t := U.UsedState(s, model, event);
            t.plans == s.plans && (scope in t.keys <==> scope in s.keys) && (scope in s.keys ==> t.keys[scope] == s.keys[scope])
  {
    hide Trim, U.UsedKey, U.Ensured;
  }

  /** What a use leaves of its key: the plan it had, and its cycles charged and settled. */
  lemma UsedCycles(s: Snapshot, model: string, event: U.UsageEvent)
    requires Good(s) && Trim(event.scope) != ""
    ensures var t, scope := U.UsedState(s, model, event), Trim(event.scope);
            var planID := if scope in s.keys then s.keys[scope].planID else "";
            && t.plans == s.plans && scope in t.keys && t.keys[scope].planID == planID
            && t.keys[scope].cycles ==
               if planID == "" then map[]
               else Settled(Charged(s.keys[scope].cycles, planID, event.requestedAt, event.Usage(), Matching(WindowsOf(s.plans, planID), model)), event.at)
  {
    hide Good, Charged, Matching, Trim, U.PreviewOf, Settled, Q.FindPlan;
    var scope := Trim(event.scope);
    PB.NoNamelessPlan(s.plans);
    if scope in s.keys {
      BoundPlanExists(s, scope);
      UnboundKeyIsFree(s, scope);
    }
  }

  lemma UnboundKeyIsFree(s: Snapshot, scope: string)
    requires Good(s) && scope in s.keys
    ensures s.keys[scope].planID == "" ==> s.keys[scope].cycles == map[]
  {
    hide B.WellBound, NormalScopes, Q.GoodPlan, GoodCycles;
    assert Q.SoundKey(s.plans, s.keys[scope]);
  }

  /** A key without a plan has no cycles to charge or settle. */
  lemma UnboundIsFree(l: L.Ledger, event: U.UsageEvent, some: seq<Window>)
    requires L.Sound(l)
    ensures l.planID == "" ==> Settled(Charged(l.cycles, l.planID, event.requestedAt, event.Usage(), some), event.at) == map[]
  {
    hide GoodCycles, GoodWindows;
  }

  lemma FollowsView(l: L.Ledger, s: Snapshot, e: Edit, scope: string)
    requires L.Sound(l) && Follows(l, s, scope) && Good(s) && e.Possible() && (e.ViewKeys? || e.ViewKey?) && scope in s.keys
    ensures Tracks(l, ViewSteps(s, e, scope), AfterKeyEdit(s, e), scope)
  {
    hide L.Sound, Good, Tracks, Q.FindPlan, Settled, NormalizeScopeName;
    L.SoundParts(l);
    BoundPlanExists(s, scope);
    if ViewSteps(s, e, scope) == [] {
      Stays(l, s, AfterKeyEdit(s, e), scope);
    } else {
      OneStep(l, L.Settle(e.now), AfterKeyEdit(s, e), scope);
    }
  }

  lemma PlanEditKeepsKeys(s: Snapshot, e: Edit)
    requires e.Possible()
    ensures AfterPlanEdit(s, e).keys.Keys == s.keys.Keys
  {
    hide PB.PlanCreation, P.PlanUpdate, P.PlanIndex, Q.FindPlan, PB.Resettable, PB.ResetTargets, NormalizeScopes, NormalizeScopeName, Trim,
         P.UpdatedKey, PB.CreatedKey, PB.DeletedKey, PB.ResetKey, P.Resets, P.Selection, Edit.Possible;
  }

  /** The key list gains only unbound keys, and no edit of it but a view touches a key's plan or cycles. */
  lemma KeyListStays(l: L.Ledger, s: Snapshot, e: Edit, scope: string)
    requires L.Sound(l) && Follows(l, s, scope) && (e.SyncKeys? || e.SetConcurrencyLimit? || e.SyncConfigCredentials? || scope !in s.keys)
    ensures Tracks(l, [], AfterKeyEdit(s, e), scope)
  {
    hide L.Sound, WindowsOf, NormalizeScopeName, K.ShownKey;
    NothingWindowed(s.plans);
    NoStep(l, AfterKeyEdit(s, e), scope);
  }

  lemma SameQuotasStay(l: L.Ledger, s: Snapshot, t: Snapshot, scope: string)
    requires L.Sound(l) && Follows(l, s, scope) && SameQuotas(s, t)
    ensures Tracks(l, [], t, scope)
  {
    hide L.Sound, WindowsOf, Follows, Tracks;
    Stays(l, s, t, scope);
  }

  /** A scope without a record gets one only from a use or from synchronization, and no plan by either. */
  lemma NobodyStays(l: L.Ledger, s: Snapshot, e: Edit, scope: string)
    requires L.Sound(l) && Follows(l, s, scope) && Good(s) && e.Possible() && scope !in s.keys && !e.Authorize? && !e.RecordUsage?
    ensures Q.Sound(s) && Tracks(l, [], After(s, e), scope)
  {
    hide L.Sound, Good, Follows, Tracks, Edit.Possible, AfterPlanEdit, AfterUse, AfterKeyEdit, AfterGroupEdit, AfterRouteEdit, SameQuotas;
    GoodIsSound(s);
    if e.CreatePlan? || e.UpdatePlan? || e.DeletePlan? || e.BindKey? || e.UnbindKey? || e.ResetQuota? {
      PlanEditKeepsKeys(s, e);
      Stays(l, s, AfterPlanEdit(s, e), scope);
    } else if e.ViewKeys? || e.ViewKey? || e.SyncKeys? || e.SetConcurrencyLimit? || e.SyncConfigCredentials? {
      KeyListStays(l, s, e, scope);
    } else {
      OthersStay(l, s, e, scope);
    }
  }

  lemma OthersStay(l: L.Ledger, s: Snapshot, e: Edit, scope: string)
    requires L.Sound(l) && Follows(l, s, scope) && Good(s) && e.Possible()
    requires !(e.CreatePlan? || e.UpdatePlan? || e.DeletePlan? || e.BindKey? || e.UnbindKey? || e.ResetQuota?)
    requires !(e.Authorize? || e.RecordUsage? || e.ViewKeys? || e.ViewKey?)
    ensures Q.Sound(s) && Tracks(l, [], After(s, e), scope)
    ensures scope in s.keys ==> PlanSteps(s, e, scope) == []
  {
    hide L.Sound, Good, Follows, Tracks, Edit.Possible, AfterPlanEdit, AfterUse, AfterKeyEdit, AfterGroupEdit, AfterRouteEdit, SameQuotas;
    GoodIsSound(s);
    if e.SyncKeys? || e.SetConcurrencyLimit? || e.SyncConfigCredentials? {
      KeyListStays(l, s, e, scope);
    } else if e.CreateGroup? || e.UpdateGroup? || e.DeleteGroup? || e.SetKeyGroups? || e.SetAccessControl? {
      GroupEditIsGood(s, e);
      SameQuotasStay(l, s, AfterGroupEdit(s, e), scope);
    } else {
      RouteEditIsGood(s, e);
      SameQuotasStay(l, s, AfterRouteEdit(s, e), scope);
    }
  }

  /** Whatever one edit does, the ledger of a key can follow it. */
  lemma LedgerFollows(l: L.Ledger, s: Snapshot, e: Edit, scope: string)
    requires L.Sound(l) && Follows(l, s, scope) && Good(s) && e.Possible()
    ensures Q.Sound(s) && Tracks(l, StepsOf(s, e, scope), After(s, e), scope)
  {
    hide L.Sound, Good, Follows, Tracks, Edit.Possible, AfterPlanEdit, AfterUse, AfterKeyEdit, AfterGroupEdit, AfterRouteEdit,
         PlanSteps, UseSteps, ViewSteps;
    GoodIsSound(s);
    StepKeepsGood(s, e);
    if e.Authorize? {
      FollowsAdmission(l, s, e, scope);
    } else if e.RecordUsage? {
      FollowsUse(l, s, e, scope);
    } else if scope !in s.keys {
      NobodyStays(l, s, e, scope);
    } else if e.CreatePlan? {
      FollowsCreation(l, s, e, scope);
    } else if e.UpdatePlan? {
      FollowsUpdate(l, s, e, scope);
    } else if e.DeletePlan? {
      FollowsDeletion(l, s, e, scope);
    } else if e.BindKey? || e.UnbindKey? {
      FollowsBinding(l, s, e, scope);
    } else if e.ResetQuota? {
      FollowsReset(l, s, e, scope);
    } else if e.ViewKeys? || e.ViewKey? {
      FollowsView(l, s, e, scope);
    } else {
      OthersStay(l, s, e, scope);
    }
  }

  // ----- Runs -------------------------------------------------------------------------

  /** The usage recorded for a key by a run of edits, oldest first. */
  function Recorded(edits: seq<Edit>, scope: string): seq<L.Record> {
    if edits == [] then [] else RecordedBy(edits[0], scope) + Recorded(edits[1..], scope)
  }

  function RecordedBy(e: Edit, scope: string): seq<L.Record> {
    if Records(e, scope) then [RecordOf(e.prices, e.event)] else []
  }

  predicate Admits(e: Edit, scope: string) {
    e.Authorize? && Trim(e.scope) == scope
  }

  /** No admission of the key comes before a request whose use was recorded earlier. */
  ghost predicate Orderly(edits: seq<Edit>, scope: string) {
    forall i, j :: 0 <= i < j < |edits| && Records(edits[i], scope) && Admits(edits[j], scope) ==> edits[i].event.requestedAt < edits[j].now
  }

  ghost predicate AllBefore(log: seq<L.Record>, edits: seq<Edit>, scope: string) {
    forall i, j :: 0 <= i < |log| && 0 <= j < |edits| && Admits(edits[j], scope) ==> log[i].at < edits[j].now
  }

  /** An edit makes at most one step, which records a use exactly if the edit does, and admits only at the edit's time. */
  lemma StepsShape(s: Snapshot, e: Edit, scope: string)
    requires e.Possible()
    ensures var steps := StepsOf(s, e, scope);
            && |steps| <= 1
            && (Records(e, scope) ==> steps == [L.Use(RecordOf(e.prices, e.event), e.event.at)])
            && (!Records(e, scope) && steps != [] ==> !steps[0].Use?)
            && (steps != [] && steps[0].Admit? ==> Admits(e, scope) && steps[0].at == e.now)
  {
    hide PB.PlanCreation, P.PlanUpdate, P.PlanIndex, Q.FindPlan, PB.Resettable, PB.ResetTargets, NormalizeScopes, NormalizeScopeName, Trim,
         P.Selection, Edit.Possible, Unresolvable, ResolveBillingModel;
  }

  lemma OneStepRun(l: L.Ledger, step: L.Step)
    requires L.Sound(l) && L.Fits(l, [step])
    ensures PositivePeriods(l.windows) && L.Run(l, [step]) == L.After(l, step)
  {
    hide L.Sound, L.After;
    L.RunUnfolds(l, [step]);
    assert [step][1..] == [];
  }

  lemma OnlyUsesAreLogged(l: L.Ledger, step: L.Step)
    requires PositivePeriods(l.windows)
    ensures L.After(l, step).log == if step.Use? then l.log + [step.record] else l.log
  {
  }

  /** What one edit adds to the log, and that cycles stay younger than what was logged before them. */
  lemma EditOnLedger(l: L.Ledger, s: Snapshot, e: Edit, scope: string)
    requires L.Sound(l) && e.Possible() && L.Fits(l, StepsOf(s, e, scope))
    ensures var next := L.Run(l, StepsOf(s, e, scope));
            && L.Sound(next) && next.log == l.log + RecordedBy(e, scope)
            && (L.Timely(l) && AllBefore(l.log, [e], scope) ==> L.Timely(next))
  {
    hide L.Sound, L.After, StepsOf, L.Timely, Edit.Possible, RecordOf;
    var steps := StepsOf(s, e, scope);
    StepsShape(s, e, scope);
    L.CountersAreExact(l, steps);
    if steps != [] {
      assert steps == [steps[0]];
      OneStepRun(l, steps[0]);
      OnlyUsesAreLogged(l, steps[0]);
      if L.Timely(l) && AllBefore(l.log, [e], scope) {
        assert L.Punctual(l, steps[0]) by { assert [e][0] == e; }
        NoMoreSteps(l, steps);
        L.RunKeepsTimely(l, steps);
      }
    }
  }

  lemma NoMoreSteps(l: L.Ledger, steps: seq<L.Step>)
    requires L.Sound(l) && |steps| == 1 && L.Fits(l, steps) && L.Punctual(l, steps[0])
    ensures L.AllPunctual(l, steps)
  {
    hide L.Sound, L.After, L.Punctual;
    L.RunUnfolds(l, steps);
    assert steps[1..] == [];
  }

  /** The key's ledger after a run of edits. */
  ghost function Story(l: L.Ledger, s: Snapshot, edits: seq<Edit>, scope: string): L.Ledger
    requires L.Sound(l) && Follows(l, s, scope) && Good(s) && AllPossible(edits)
    decreases |edits|
  {
    if edits == [] then l else
    LedgerFollows(l, s, edits[0], scope);
    StepKeepsGood(s, edits[0]);
    L.CountersAreExact(l, StepsOf(s, edits[0], scope));
    Story(L.Run(l, StepsOf(s, edits[0], scope)), After(s, edits[0]), edits[1..], scope)
  }

  /** Along any run the ledger follows the key, and its log is exactly what was recorded for it. */
  lemma {:induction false} StoryFollows(l: L.Ledger, s: Snapshot, edits: seq<Edit>, scope: string)
    requires L.Sound(l) && Follows(l, s, scope) && Good(s) && AllPossible(edits)
    ensures var end := Story(l, s, edits, scope);
            && L.Sound(end) && Follows(end, Run(s, edits), scope) && end.log == l.log + Recorded(edits, scope)
            && (L.Timely(l) && Orderly(edits, scope) && AllBefore(l.log, edits, scope) ==> L.Timely(end))
    decreases |edits|
  {
    hide L.Sound, Good, Follows, Edit.Possible, After, StepsOf, L.Run, L.Fits, L.Timely, RecordOf, Records, Admits;
    if edits != [] {
      var e, rest := edits[0], edits[1..];
      LedgerFollows(l, s, e, scope);
      StepKeepsGood(s, e);
      EditOnLedger(l, s, e, scope);
      var next := L.Run(l, StepsOf(s, e, scope));
      StoryFollows(next, After(s, e), rest, scope);
      if Orderly(edits, scope) && AllBefore(l.log, edits, scope) { StillOrderly(l.log, edits, scope, next.log); }
    }
  }

  lemma StillOrderly(log: seq<L.Record>, edits: seq<Edit>, scope: string, more: seq<L.Record>)
    requires edits != [] && Orderly(edits, scope) && AllBefore(log, edits, scope)
    requires more == log + RecordedBy(edits[0], scope)
    ensures AllBefore(log, [edits[0]], scope) && Orderly(edits[1..], scope) && AllBefore(more, edits[1..], scope)
  {
    hide Trim, ResolveBillingModel;
    var rest := edits[1..];
    assert forall j :: 0 <= j < |rest| ==> rest[j] == edits[j + 1];
    forall i, j | 0 <= i < |more| && 0 <= j < |rest| && Admits(rest[j], scope)
      ensures more[i].at < rest[j].now
    {
      if i >= |log| { assert more[i].at == edits[0].event.requestedAt; }
    }
  }

  // ----- The sum, in the terms of the reported uses -------------------------------------

  /** The edit reports a use of the key that the cycle's time covers and the window's scope matches. */
  ghost predicate CoversUse(e: Edit, scope: string, w: Window, c: Cycle) {
    && e.RecordUsage? && scope != "" && Trim(e.event.scope) == scope && e.event.requestedAt != ZERO_TIME
    && c.startAt <= e.event.requestedAt && c.usageSince <= e.event.requestedAt < c.endAt
    && Matches(w.scope, ResolveBillingModel(e.prices, e.event.upstream, e.event.route))
  }

  /** What all uses reported so far add up to in one dimension. */
  ghost function SumOf(edits: seq<Edit>, scope: string, w: Window, c: Cycle, d: E.Dimension): real {
    if edits == [] then 0.0 else
    var last := edits[|edits| - 1];
    SumOf(edits[..|edits| - 1], scope, w, c, d) + (if CoversUse(last, scope, w, c) then U.Reported(last.event, d) else 0.0)
  }

  /** Every counter of the cycle is the sum of the uses reported for it, up to its cap. */
  ghost predicate CountsAll(edits: seq<Edit>, scope: string, w: Window, c: Cycle) {
    forall d :: E.UsedOf(c, d) == U.Least(SumOf(edits, scope, w, c, d), U.CapOf(d))
  }

  ghost predicate SumsUp(u: Usage, edits: seq<Edit>, scope: string, w: Window, c: Cycle) {
    && u.amount == SumOf(edits, scope, w, c, E.Money) && u.tokens as real == SumOf(edits, scope, w, c, E.Tokens)
    && u.requests as real == SumOf(edits, scope, w, c, E.Requests)
  }

  lemma UseIsReported(e: Edit, scope: string, w: Window, c: Cycle)
    ensures Records(e, scope) && L.Counted(w, c, RecordOf(e.prices, e.event)) <==> CoversUse(e, scope, w, c)
    ensures e.RecordUsage? ==>
              var u := e.event.Usage();
              && u.amount == U.Reported(e.event, E.Money) && u.tokens as real == U.Reported(e.event, E.Tokens)
              && u.requests as real == U.Reported(e.event, E.Requests)
  {
    hide Trim, ResolveBillingModel, Matches;
  }

  lemma {:induction false} SumIsOwed(edits: seq<Edit>, scope: string, w: Window, c: Cycle)
    ensures var log := Recorded(edits, scope); SumsUp(L.Owed(log, w, c, 0, |log|), edits, scope, w, c)
  {
    hide CoversUse, RecordedBy, L.Counted, U.Reported, L.Owed;
    if edits == [] {
      NothingOwed(w, c);
    } else {
      var n := |edits| - 1;
      var front, last := edits[..n], edits[n];
      SumIsOwed(front, scope, w, c);
      RecordedSplits(edits, scope, n);
      assert edits[n..] == [last] && [last][1..] == [];
      assert Recorded([last], scope) == RecordedBy(last, scope);
      OneMoreOwed(Recorded(front, scope), last, scope, w, c);
    }
  }

  lemma NothingOwed(w: Window, c: Cycle)
    ensures L.Owed([], w, c, 0, 0) == L.NOTHING
  {
  }

  /** One more edit owes what it reports, if the cycle covers it. */
  lemma OneMoreOwed(log: seq<L.Record>, e: Edit, scope: string, w: Window, c: Cycle)
    ensures var before, more := L.Owed(log, w, c, 0, |log|), log + RecordedBy(e, scope);
            var after := L.Owed(more, w, c, 0, |more|);
            if CoversUse(e, scope, w, c) then
              && e.RecordUsage? && after.amount == before.amount + U.Reported(e.event, E.Money)
              && after.tokens as real == before.tokens as real + U.Reported(e.event, E.Tokens)
              && after.requests as real == before.requests as real + U.Reported(e.event, E.Requests)
            else after == before
  {
    hide CoversUse, L.Counted, U.Reported, L.Owed, Trim, ResolveBillingModel;
    UseIsReported(e, scope, w, c);
    if Records(e, scope) {
      var r := RecordOf(e.prices, e.event);
      L.OwedPrefix(log, r, w, c, 0, |log|);
      L.OwedNext(log + [r], w, c, 0, |log| + 1);
    } else {
      assert log + [] == log;
    }
  }

  /** The ledger's capped sum is the capped sum of what was reported. */
  lemma CountsAllIsOwed(edits: seq<Edit>, scope: string, w: Window, c: Cycle)
    ensures var log := Recorded(edits, scope);
            CountsAll(edits, scope, w, c) <==> L.CountersOf(c) == L.Capped(L.Owed(log, w, c, 0, |log|))
  {
    hide Recorded, L.Owed, SumOf;
    SumIsOwed(edits, scope, w, c);
    if CountsAll(edits, scope, w, c) {
      assert E.UsedOf(c, E.Money) == U.Least(SumOf(edits, scope, w, c, E.Money), U.CapOf(E.Money));
      assert E.UsedOf(c, E.Tokens) == U.Least(SumOf(edits, scope, w, c, E.Tokens), U.CapOf(E.Tokens));
      assert E.UsedOf(c, E.Requests) == U.Least(SumOf(edits, scope, w, c, E.Requests), U.CapOf(E.Requests));
    } else {
      var d :| E.UsedOf(c, d) != U.Least(SumOf(edits, scope, w, c, d), U.CapOf(d));
      match d
      case Money =>
      case Tokens =>
      case Requests =>
    }
  }

  /** The ledger of a key that has no cycles yet. */
  ghost function Opening(s: Snapshot, scope: string): L.Ledger {
    var planID := if scope in s.keys then s.keys[scope].planID else "";
    L.Ledger(planID, if scope in s.keys then WindowsOf(s.plans, planID) else [], map[], [], map[], map[])
  }

  lemma OpeningIsSound(s: Snapshot, scope: string)
    requires Good(s) && (scope in s.keys ==> s.keys[scope].cycles == map[])
    ensures L.Sound(Opening(s, scope)) && Follows(Opening(s, scope), s, scope) && L.Timely(Opening(s, scope))
  {
    hide Good, StoredScope, GoodWindow;
    if scope in s.keys {
      BoundPlanExists(s, scope);
      var found := Q.FindPlan(s.plans, s.keys[scope].planID);
      if found.Some? { GoodPlanOf(s, found.value); }
    }
    L.ClearedIsSound(Opening(s, scope));
  }

  /**
    Whatever operators and clients do, in whatever order and over however many plan, key,
    access and credential edits: for a key that starts without cycles, every live cycle's
    counters are the capped sum, over all the usage recorded for the key, of what its time and
    scope cover, provided no admission of the key precedes a request recorded before it.
   */
  lemma EveryCounterIsExact(s: Snapshot, edits: seq<Edit>, scope: string, id: string)
    requires Good(s) && AllPossible(edits) && (scope in s.keys ==> s.keys[scope].cycles == map[]) && Orderly(edits, scope)
    requires scope in Run(s, edits).keys && id in Run(s, edits).keys[scope].cycles
    ensures var t, log := Run(s, edits), Recorded(edits, scope);
            var c, w := t.keys[scope].cycles[id], WindowOf(WindowsOf(t.plans, t.keys[scope].planID), id);
            && w.Some? && L.CountersOf(c) == L.Capped(L.Owed(log, w.value, c, 0, |log|))
            && CountsAll(edits, scope, w.value, c)
  {
    hide CountsAll, Good, Orderly, Run, Story, Recorded, L.Owed, WindowOf, WindowsOf, GoodWindows, L.GoodScopes, GoodCycle, Matches;
    var l := Opening(s, scope);
    OpeningIsSound(s, scope);
    StoryFollows(l, s, edits, scope);
    var end, log := Story(l, s, edits, scope), Recorded(edits, scope);
    assert l.log + log == log;
    L.SoundBalanced(end, id);
    L.EarlierOweNothing(end.log, WindowOf(end.windows, id).value, end.cycles[id], end.from[id], |end.log|);
    CountsAllIsOwed(edits, scope, WindowOf(end.windows, id).value, end.cycles[id]);
  }

  // ----- Exactly when a use is lost -----------------------------------------------------

  predicate HasCycle(s: Snapshot, scope: string, id: string) {
    scope in s.keys && id in s.keys[scope].cycles
  }

  /** An admission of the key that finds no live cycle of the window. */
  predicate Creates(s: Snapshot, e: Edit, scope: string, id: string) {
    Admits(e, scope) && !(HasCycle(s, scope, id) && e.now < s.keys[scope].cycles[id].endAt)
  }

  /** A cycle was there from the start (j < 0) or created by the j-th edit, and has been there since. */
  ghost predicate Created(s: Snapshot, edits: seq<Edit>, scope: string, id: string, j: int)
    requires Good(s) && AllPossible(edits)
  {
    && -1 <= j < |edits| && (j >= 0 ==> Creates(Run(s, edits[..j]), edits[j], scope, id))
    && forall k :: j < k <= |edits| ==> HasCycle(Run(s, edits[..k]), scope, id)
  }

  /** The edit records a use of the key that the cycle covers and whose loss its counters would show. */
  ghost predicate Overlooked(e: Edit, scope: string, w: Window, c: Cycle) {
    Records(e, scope) && L.Overlooked(w, c, RecordOf(e.prices, e.event))
  }

  lemma EditOrigin(l: L.Ledger, s: Snapshot, e: Edit, scope: string, id: string)
    requires L.Sound(l) && e.Possible() && L.Fits(l, StepsOf(s, e, scope)) && id in L.Run(l, StepsOf(s, e, scope)).cycles
    ensures var next := L.Run(l, StepsOf(s, e, scope));
            && id in next.from && id in next.born
            && (|| (id in l.cycles && id in l.from && id in l.born && next.from[id] == l.from[id] && next.born[id] == l.born[id])
                || (Admits(e, scope) && id !in Settled(l.cycles, e.now) && next.from[id] == |l.log| && next.born[id] == e.now))
  {
    hide L.Sound, L.After, StepsOf, Edit.Possible, RecordOf, Admits, Settled, Records, L.Sensible;
    var steps := StepsOf(s, e, scope);
    StepsShape(s, e, scope);
    if steps == [] {
      L.BalancedIsBooked(l, id);
    } else {
      assert steps == [steps[0]];
      OneStepRun(l, steps[0]);
      L.RunUnfolds(l, steps);
      L.StepOrigin(l, steps[0], id);
    }
  }

  lemma PrefixRun(s: Snapshot, edits: seq<Edit>, k: nat)
    requires Good(s) && AllPossible(edits) && edits != [] && k < |edits|
    ensures Q.Sound(s) && Good(After(s, edits[0])) && Run(s, edits[..k + 1]) == Run(After(s, edits[0]), edits[1..][..k])
  {
    hide Good, After, Edit.Possible;
    StepKeepsGood(s, edits[0]);
    assert edits[..k + 1][0] == edits[0] && edits[..k + 1][1..] == edits[1..][..k];
  }

  lemma RecordedPrefix(edits: seq<Edit>, scope: string, k: nat)
    requires edits != [] && k < |edits|
    ensures Recorded(edits[..k + 1], scope) == RecordedBy(edits[0], scope) + Recorded(edits[1..][..k], scope)
  {
    hide RecordedBy;
    assert edits[..k + 1][0] == edits[0] && edits[..k + 1][1..] == edits[1..][..k];
  }

  /** One edit earlier. */
  lemma CreatedEarlier(s: Snapshot, edits: seq<Edit>, scope: string, id: string, i: int, j: int)
    requires Good(s) && AllPossible(edits) && edits != [] && Q.Sound(s) && Good(After(s, edits[0]))
    requires Created(After(s, edits[0]), edits[1..], scope, id, i)
    requires if i >= 0 then j == i + 1 else (j == -1 && HasCycle(s, scope, id)) || (j == 0 && Creates(s, edits[0], scope, id))
    ensures Created(s, edits, scope, id, j)
  {
    hide Good, Edit.Possible, After, HasCycle, Creates;
    var t, rest := After(s, edits[0]), edits[1..];
    assert edits[..0] == [] && Run(s, edits[..0]) == s;
    if i >= 0 { PrefixRun(s, edits, i); }
    forall k | j < k <= |edits|
      ensures HasCycle(Run(s, edits[..k]), scope, id)
    {
      if k > 0 {
        PrefixRun(s, edits, k - 1);
        assert HasCycle(Run(t, rest[..k - 1]), scope, id);
      }
    }
  }

  /** When the ledger says a cycle of the story was created, and how much was on the log by then. */
  ghost predicate Booked(l: L.Ledger, end: L.Ledger, edits: seq<Edit>, scope: string, id: string, j: int) {
    && -1 <= j < |edits| && id in end.from && id in end.born
    && (j < 0 ==> id in l.cycles && id in l.from && id in l.born && end.from[id] == l.from[id] && end.born[id] == l.born[id])
    && (j >= 0 ==> Admits(edits[j], scope) && end.born[id] == edits[j].now && end.from[id] == |l.log| + |Recorded(edits[..j], scope)|)
  }

  lemma BookedEarlier(l: L.Ledger, next: L.Ledger, end: L.Ledger, edits: seq<Edit>, scope: string, id: string, i: int)
    requires edits != [] && i >= 0 && Booked(next, end, edits[1..], scope, id, i) && |next.log| == |l.log| + |RecordedBy(edits[0], scope)|
    ensures Booked(l, end, edits, scope, id, i + 1)
  {
    hide Admits, RecordedBy;
    RecordedPrefix(edits, scope, i);
  }

  /** Where a cycle of the story comes from: it was there all along, or the j-th edit has created it. */
  lemma {:induction false} Origin(l: L.Ledger, s: Snapshot, edits: seq<Edit>, scope: string, id: string) returns (j: int)
    requires L.Sound(l) && Follows(l, s, scope) && Good(s) && AllPossible(edits) && id in Story(l, s, edits, scope).cycles
    ensures Created(s, edits, scope, id, j) && Booked(l, Story(l, s, edits, scope), edits, scope, id, j)
    decreases |edits|
  {
    hide L.Sound, Good, Edit.Possible, After, StepsOf, L.Run, L.Fits, RecordedBy, Admits;
    if edits == [] {
      j := -1;
      L.BalancedIsBooked(l, id);
    } else {
      var e, rest := edits[0], edits[1..];
      LedgerFollows(l, s, e, scope);
      StepKeepsGood(s, e);
      EditOnLedger(l, s, e, scope);
      var next := L.Run(l, StepsOf(s, e, scope));
      hide Created, Booked;
      var i := Origin(next, After(s, e), rest, scope, id);
      if i >= 0 {
        j := i + 1;
        BookedEarlier(l, next, Story(l, s, edits, scope), edits, scope, id, i);
      } else {
        j := OriginHere(l, s, edits, scope, id, Story(l, s, edits, scope));
      }
      CreatedEarlier(s, edits, scope, id, i, j);
    }
  }

  lemma OriginHere(l: L.Ledger, s: Snapshot, edits: seq<Edit>, scope: string, id: string, end: L.Ledger) returns (j: int)
    requires L.Sound(l) && Follows(l, s, scope) && AllPossible(edits) && edits != [] && edits[0].Possible() && L.Fits(l, StepsOf(s, edits[0], scope))
    requires Booked(L.Run(l, StepsOf(s, edits[0], scope)), end, edits[1..], scope, id, -1)
    ensures Booked(l, end, edits, scope, id, j)
    ensures (j == -1 && HasCycle(s, scope, id)) || (j == 0 && Creates(s, edits[0], scope, id))
  {
    hide L.Sound, L.Fits, L.Run, Edit.Possible, StepsOf, RecordedBy;
    EditOrigin(l, s, edits[0], scope, id);
    var next := L.Run(l, StepsOf(s, edits[0], scope));
    assert edits[..0] == [];
    j := if id in l.cycles && id in l.from && id in l.born && next.from[id] == l.from[id] && next.born[id] == l.born[id] then -1 else 0;
  }

  lemma {:induction false} RecordedSplits(edits: seq<Edit>, scope: string, k: nat)
    requires k <= |edits|
    ensures Recorded(edits, scope) == Recorded(edits[..k], scope) + Recorded(edits[k..], scope)
    decreases k
  {
    hide RecordedBy;
    if k == 0 {
      assert edits[..0] == [] && edits[0..] == edits;
    } else {
      var head, rest := RecordedBy(edits[0], scope), edits[1..];
      RecordedPrefix(edits, scope, k - 1);
      RecordedSplits(rest, scope, k - 1);
      assert rest[k - 1..] == edits[k..];
      assert (head + Recorded(rest[..k - 1], scope)) + Recorded(edits[k..], scope) == head + (Recorded(rest[..k - 1], scope) + Recorded(edits[k..], scope));
    }
  }

  predicate Logs(e: Edit, scope: string, r: L.Record) {
    Records(e, scope) && RecordOf(e.prices, e.event) == r
  }

  /** The log holds exactly what the recording edits recorded. */
  lemma {:induction false} RecordedHolds(edits: seq<Edit>, scope: string, r: L.Record)
    ensures r in Recorded(edits, scope) <==>
            exists i :: 0 <= i < |edits| && Logs(edits[i], scope, r)
  {
    hide Trim, RecordOf;
    if edits != [] {
      var rest := edits[1..];
      RecordedHolds(rest, scope, r);
      assert forall i :: 0 <= i < |rest| ==> rest[i] == edits[i + 1];
      if i :| 0 <= i < |edits| && Logs(edits[i], scope, r) {
        if i > 0 { assert Logs(rest[i - 1], scope, r); }
      }
    }
  }

  /** The first j edits and the part of the log they recorded overlook the same uses. */
  lemma SameOverlooked(edits: seq<Edit>, scope: string, j: nat, end: L.Ledger, w: Window, c: Cycle)
    requires j <= |edits| && end.log == Recorded(edits, scope)
    ensures var n := |Recorded(edits[..j], scope)|;
            && n <= |end.log|
            && ((forall i :: 0 <= i < n ==> !L.Overlooked(w, c, end.log[i])) <==> forall i :: 0 <= i < j ==> !Overlooked(edits[i], scope, w, c))
  {
    hide Recorded, Trim, RecordOf, L.Overlooked;
    RecordedSplits(edits, scope, j);
    var first, early := edits[..j], Recorded(edits[..j], scope);
    assert forall i :: 0 <= i < |early| ==> end.log[i] == early[i];
    forall i | 0 <= i < j && Overlooked(edits[i], scope, w, c)
      ensures exists k :: 0 <= k < |early| && L.Overlooked(w, c, end.log[k])
    {
      var r := RecordOf(edits[i].prices, edits[i].event);
      assert Logs(first[i], scope, r);
      RecordedHolds(first, scope, r);
      var k :| 0 <= k < |early| && early[k] == r;
      assert L.Overlooked(w, c, end.log[k]);
    }
    forall k | 0 <= k < |early| && L.Overlooked(w, c, end.log[k])
      ensures exists i :: 0 <= i < j && Overlooked(edits[i], scope, w, c)
    {
      RecordedHolds(first, scope, early[k]);
      var i :| 0 <= i < |first| && Logs(first[i], scope, early[k]);
      assert Overlooked(edits[i], scope, w, c);
    }
  }

  /**
    Whatever operators and clients do, whatever the clock does: for a key that starts without
    cycles, a live cycle's counters are the capped sum over all the usage recorded for the key
    exactly when no use was recorded before the admission that created the cycle although the
    cycle covers it and its counters would show it.
   */
  lemma CounterIsExactUnless(s: Snapshot, edits: seq<Edit>, scope: string, id: string) returns (j: nat)
    requires Good(s) && AllPossible(edits) && (scope in s.keys ==> s.keys[scope].cycles == map[])
    requires HasCycle(Run(s, edits), scope, id)
    ensures var t, log := Run(s, edits), Recorded(edits, scope);
            var c, w := t.keys[scope].cycles[id], WindowOf(WindowsOf(t.plans, t.keys[scope].planID), id);
            && w.Some? && Created(s, edits, scope, id, j) && L.Since(c) == edits[j].now
            && (L.CountersOf(c) == L.Capped(L.Owed(log, w.value, c, 0, |log|)) <==>
                forall i :: 0 <= i < j ==> !Overlooked(edits[i], scope, w.value, c))
            && (CountsAll(edits, scope, w.value, c) <==> forall i :: 0 <= i < j ==> !Overlooked(edits[i], scope, w.value, c))
  {
    hide CountsAll, Good, Run, Story, Recorded, L.Owed, WindowOf, WindowsOf, GoodWindows, L.GoodScopes, GoodCycle, Matches, L.Overlooked, Creates;
    var l := Opening(s, scope);
    OpeningIsSound(s, scope);
    StoryFollows(l, s, edits, scope);
    var end, log := Story(l, s, edits, scope), Recorded(edits, scope);
    assert l.log + log == log;
    var found := Origin(l, s, edits, scope, id);
    j := found;
    L.SoundBalanced(end, id);
    L.ExactUnlessOverlooked(end, id);
    SameOverlooked(edits, scope, j, end, WindowOf(end.windows, id).value, end.cycles[id]);
    CountsAllIsOwed(edits, scope, WindowOf(end.windows, id).value, end.cycles[id]);
  }

  lemma OneEdit(l: L.Ledger, s: Snapshot, e: Edit, scope: string, step: L.Step)
    requires L.Sound(l) && Follows(l, s, scope) && Good(s) && e.Possible() && StepsOf(s, e, scope) == [step]
    ensures Q.Sound(s) && Good(After(s, e)) && PositivePeriods(l.windows) && L.Sensible(l, step)
    ensures L.Sound(L.After(l, step)) && Follows(L.After(l, step), After(s, e), scope)
  {
    hide Good, Follows, After, StepsOf, L.Sound, L.After, L.Sensible, Edit.Possible;
    LedgerFollows(l, s, e, scope);
    StepKeepsGood(s, e);
    OneStepRun(l, step);
    L.RunUnfolds(l, [step]);
  }

  lemma TwoSteps(l: L.Ledger, a: L.Step, b: L.Step)
    requires L.Sound(l) && PositivePeriods(l.windows) && L.Sensible(l, a) && L.Sound(L.After(l, a))
    requires PositivePeriods(L.After(l, a).windows) && L.Sensible(L.After(l, a), b) && L.Sound(L.After(L.After(l, a), b))
    ensures L.Fits(l, [a, b]) && L.Run(l, [a, b]) == L.After(L.After(l, a), b)
  {
    hide L.Sound, L.After, L.Sensible;
    var steps, next := [a, b], L.After(l, a);
    assert steps[1..] == [b] && [b][1..] == [];
    assert L.Fits(L.After(next, b), []);
    assert L.Fits(next, [b]) && L.Run(next, [b]) == L.After(next, b);
    assert L.Run(l, steps) == L.Run(next, steps[1..]);
  }

  lemma TwoRun(s: Snapshot, a: Edit, b: Edit)
    requires Good(s) && Q.Sound(s) && a.Possible() && b.Possible() && Good(After(s, a)) && Q.Sound(After(s, a))
    ensures AllPossible([a, b]) && Run(s, [a, b]) == After(After(s, a), b)
  {
    hide Good, After, Q.Sound, Edit.Possible;
    var t := After(s, a);
    assert [a, b][1..] == [b] && [b][1..] == [];
    StepKeepsGood(t, b);
    assert Run(t, [b]) == After(t, b);
  }

  /** A recorded use and an admission that looks at all windows are two steps of the ledger. */
  lemma TwoEdits(l: L.Ledger, s: Snapshot, use: Edit, admit: Edit, scope: string)
    requires L.Sound(l) && Follows(l, s, scope) && Good(s) && use.Possible() && admit.Possible()
    requires Records(use, scope) && Admits(admit, scope) && !admit.scoped && scope in s.keys && s.keys[scope].planID != ""
    ensures AllPossible([use, admit])
    ensures var steps := [L.Use(RecordOf(use.prices, use.event), use.event.at),
                          L.Admit(ResolveBillingModel(admit.prices, admit.upstream, admit.requested), admit.now, false)];
            L.Fits(l, steps) && Follows(L.Run(l, steps), Run(s, [use, admit]), scope)
  {
    hide Good, WindowsOf, Trim, After, Run, ResolveBillingModel, RecordOf, L.Sound, L.After, L.Sensible, Edit.Possible, StepsOf;
    var first := L.Use(RecordOf(use.prices, use.event), use.event.at);
    var second := L.Admit(ResolveBillingModel(admit.prices, admit.upstream, admit.requested), admit.now, false);
    StepsShape(s, use, scope);
    OneEdit(l, s, use, scope, first);
    var next, t := L.After(l, first), After(s, use);
    StillBound(l, first);
    AdmissionStep(t, admit, scope);
    OneEdit(next, t, admit, scope, second);
    TwoSteps(l, first, second);
    TwoRun(s, use, admit);
  }

  lemma StillBound(l: L.Ledger, step: L.Step)
    requires PositivePeriods(l.windows) && step.Use?
    ensures L.After(l, step).planID == l.planID
  {
    hide Charged;
  }

  lemma AdmissionStep(s: Snapshot, admit: Edit, scope: string)
    requires admit.Possible() && Admits(admit, scope) && !admit.scoped && scope != "" && scope in s.keys && s.keys[scope].planID != ""
    ensures StepsOf(s, admit, scope) == [L.Admit(ResolveBillingModel(admit.prices, admit.upstream, admit.requested), admit.now, false)]
  {
    hide Trim, ResolveBillingModel, WindowsOf, Edit.Possible;
  }

  lemma LostRecord(use: Edit, admit: Edit, scope: string, w: Window, c: Cycle)
    requires Records(use, scope) && Admits(admit, scope) && L.Counted(w, c, RecordOf(use.prices, use.event))
    ensures var log := Recorded([use, admit], scope); L.Owed(log, w, c, 0, |log|) == use.event.Usage()
  {
    hide Trim, ResolveBillingModel, L.Since, Matches;
    var log := [RecordOf(use.prices, use.event)];
    assert [use, admit][1..] == [admit] && [admit][1..] == [];
    assert Recorded([admit], scope) == [];
    assert Recorded([use, admit], scope) == log;
    assert L.Owed(log, w, c, 0, 0) == L.NOTHING;
  }

  /**
    A run in which a use is lost, for every bound key without cycles and every window of its
    plan that the use belongs to: the use is recorded first, and the admission that starts the
    cycle comes after it although its clock shows a time no later than the request's.
   */
  lemma EarlierUseIsLost(s: Snapshot, use: Edit, admit: Edit, scope: string, w: Window)
    requires Good(s) && use.Possible() && admit.Possible() && Records(use, scope) && Admits(admit, scope) && !admit.scoped
    requires scope in s.keys && s.keys[scope].planID != "" && s.keys[scope].cycles == map[]
    requires w in WindowsOf(s.plans, s.keys[scope].planID) && w.period > 0 && Matches(w.scope, RecordOf(use.prices, use.event).model)
    requires !use.event.failed && use.event.requestedAt != ZERO_TIME
    requires admit.now <= use.event.requestedAt < NewCycle(w, s.keys[scope].planID, admit.now).endAt
    ensures AllPossible([use, admit]) && HasCycle(Run(s, [use, admit]), scope, w.id)
    ensures var c, log := Run(s, [use, admit]).keys[scope].cycles[w.id], Recorded([use, admit], scope);
            L.CountersOf(c) == L.NOTHING && L.Owed(log, w, c, 0, |log|) == use.event.Usage() && use.event.Usage().requests == 1
  {
    hide Good, Run;
    assert admit.Possible() && SaneClock(admit.now) && use.Possible() && U.Plausible(use.event);
    hide NewCycle, WindowsOf, Trim, Edit.Possible, ResolveBillingModel, L.Sound, L.Run, L.Fits, L.Counted, Matches;
    var l, r := Opening(s, scope), RecordOf(use.prices, use.event);
    OpeningIsSound(s, scope);
    L.EarlierUseIsLost(l, r, use.event.at, ResolveBillingModel(admit.prices, admit.upstream, admit.requested), admit.now, w);
    TwoEdits(l, s, use, admit, scope);
    LostRecord(use, admit, scope, w, Run(s, [use, admit]).keys[scope].cycles[w.id]);
  }

  const HOURLY := Window("w", "", 3600, 0.0, 0, 0, ZERO_TIME, EVERYTHING)
  const METERED: Snapshot := State([Plan("p", "", [HOURLY])], map["k" := Key("", true, ZERO_TIME, "p", 0, U.NEW_BINDINGS, [], map[])],
                                   [], [], AccessControl(false, false), map[])

  lemma MeteredIsGood()
    ensures Good(METERED) && WindowsOf(METERED.plans, "p") == [HOURLY]
  {
    var plan := METERED.plans[0];
    assert Trim("p") == "p" && Trim("k") == "k";
    assert plan in METERED.plans && METERED.plans == [plan];
    assert StoredScope(EVERYTHING);
    assert GoodWindow(HOURLY);
    assert Q.FindPlan(METERED.plans, "p") == Some(plan);
  }

  /** One such run: the use is recorded a second after the epoch, and the admission that starts the cycle comes at that same instant. */
  lemma LostAtTheSameInstant(prices: Prices, model: string)
    ensures var edits := [RecordUsage(prices, U.UsageEvent("k", "", model, model, SECOND, SECOND, 0.0, false, false, 0)),
                          Authorize(prices, "k", model, model, SECOND, false)];
            && Good(METERED) && AllPossible(edits) && HasCycle(Run(METERED, edits), "k", "w")
            && var c, log := Run(METERED, edits).keys["k"].cycles["w"], Recorded(edits, "k");
               c.requests == 0 && L.Owed(log, HOURLY, c, 0, |log|).requests == 1
  {
    hide Good, Run, Recorded, L.Owed, ResolveBillingModel;
    MeteredIsGood();
    var use := RecordUsage(prices, U.UsageEvent("k", "", model, model, SECOND, SECOND, 0.0, false, false, 0));
    var admit := Authorize(prices, "k", model, model, SECOND, false);
    assert Trim("k") == "k";
    EarlierUseIsLost(METERED, use, admit, "k", HOURLY);
  }

  /** All of it from the empty working set on: in every state the operations build up, access resolves and counters are exact. */
  lemma FromNothing(edits: seq<Edit>, scope: string, id: string)
    requires AllPossible(edits) && Orderly(edits, scope)
    ensures Good(NOTHING_YET)
    ensures var t := Run(NOTHING_YET, edits);
            scope in t.keys ==>
              && !G.StandingOf(t, Some(t.keys[scope])).Broken?
              && (id in t.keys[scope].cycles ==>
                    var log := Recorded(edits, scope);
                    var c, w := t.keys[scope].cycles[id], WindowOf(WindowsOf(t.plans, t.keys[scope].planID), id);
                    && w.Some? && L.CountersOf(c) == L.Capped(L.Owed(log, w.value, c, 0, |log|))
                    && CountsAll(edits, scope, w.value, c))
  {
    hide CountsAll, Good, Run, Orderly, G.StandingOf, Recorded, L.Owed, WindowOf, WindowsOf, B.WellBound, Q.Consistent;
    EmptyIsGood();
    if scope in Run(NOTHING_YET, edits).keys {
      EveryReachableStateResolves(NOTHING_YET, edits, scope);
      if id in Run(NOTHING_YET, edits).keys[scope].cycles { EveryCounterIsExact(NOTHING_YET, edits, scope, id); }
    }
  }
}
