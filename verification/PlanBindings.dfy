/**
  Creating and deleting plans (internal/billing/plan.go) and binding, unbinding and resetting
  keys (internal/billing/keys.go): every such edit keeps each key bound to an existing plan
  with cycles that plan accepts.
 */
module PlanBindings {
  import opened Text
  import opened Model
  import opened ChangeSets
  import opened QuotaCycles
  import opened QuotaState
  import opened Plans
  import S = Stores

  // ----- Creating ---------------------------------------------------------------------

  /** Keys a new plan may take: live and unbound. */
  predicate Bindable(keys: map<string, Key>, scopes: seq<string>) {
    forall i :: 0 <= i < |scopes| ==> scopes[i] in keys && keys[scopes[i]].Live() && keys[scopes[i]].planID == ""
  }

  /** The plan as it will be stored; a blank ID takes the generated one. */
  function PlanCreation(s: Snapshot, plan: Plan, scopes: seq<string>, generated: string, now: Time, freshIDs: seq<string>): (r: Result<Plan>)
    requires |plan.windows| <= |freshIDs|
    ensures r.Ok? ==> ValidPlan(r.value) && r.value.id == Trim(r.value.id) && forall p :: p in s.plans ==> p.id != r.value.id
  {
    var id := Trim(if Trim(plan.id) == "" then generated else plan.id);
    TrimIdempotent(if Trim(plan.id) == "" then generated else plan.id);
    match PreparedTo(plan.windows, [], now, freshIDs, |plan.windows|)
    case Err(reason) => Err(reason)
    case Ok(prepared) =>
      var made := Plan(id, if Trim(plan.name) == "" then id else Trim(plan.name), prepared);
      if !ValidPlan(made) then Err("Invalid subscription plan")
      else if PlanIndex(s.plans, id).Some? then Err("Subscription plan already exists")
      else if !Bindable(s.keys, NormalizeScopes(scopes)) then Err("API key cannot be bound")
      else
        assert forall p :: p in s.plans ==> exists j :: 0 <= j < |s.plans| && s.plans[j] == p;
        Ok(made)
  }

  function CreatedKey(planID: string, bound: set<string>, scope: string, key: Key): Key {
    if scope in bound then BoundTo(key, planID) else key
  }

  ghost function PlanCreated(s: Snapshot, plan: Plan, bound: set<string>): Snapshot {
    S.Edited(s, s.plans + [plan], s.routes, s.groups, s.access, (scope, key) => CreatedKey(plan.id, bound, scope, key))
  }

  lemma {:induction false} FindAppended(plans: seq<Plan>, plan: Plan, id: string)
    ensures FindPlan(plans, id).Some? ==> FindPlan(plans + [plan], id) == FindPlan(plans, id)
    ensures FindPlan(plans, id).None? && Trim(id) == plan.id != "" ==> FindPlan(plans + [plan], id) == Some(plan)
  {
    hide Trim;
    if plans == [] {
      assert plans + [plan] == [plan];
    } else {
      assert (plans + [plan])[1..] == plans[1..] + [plan];
      FindAppended(plans[1..], plan, id);
    }
  }

  lemma CreatedKeyIsSound(s: Snapshot, plan: Plan, bound: set<string>, scope: string)
    requires Consistent(s) && GoodPlan(plan) && (forall p :: p in s.plans ==> p.id != plan.id) && scope in s.keys
    requires forall x :: x in bound && x in s.keys ==> s.keys[x].planID == ""
    ensures GoodPlans(s.plans + [plan])
    ensures var key := CreatedKey(plan.id, bound, scope, s.keys[scope]);
            && SoundKey(s.plans + [plan], key)
            && (key.planID != "" ==> FindPlan(s.plans + [plan], key.planID).Some?)
  {
    hide GoodCycles, GoodWindows;
    var key := s.keys[scope];
    assert SoundKey(s.plans, key);
    FindAppended(s.plans, plan, key.planID);
    FindAppended(s.plans, plan, plan.id);
    EmptyCyclesAreGood(plan);
    NoNamelessPlan(s.plans + [plan]);
  }

  lemma NoNamelessPlan(plans: seq<Plan>)
    ensures FindPlan(plans, "").None?
  {
    assert Trim("") == "";
  }

  lemma CreationKeepsConsistent(s: Snapshot, plan: Plan, bound: set<string>)
    requires Consistent(s) && GoodPlan(plan) && forall p :: p in s.plans ==> p.id != plan.id
    requires forall x :: x in bound && x in s.keys ==> s.keys[x].planID == ""
    ensures Consistent(PlanCreated(s, plan, bound))
  {
    hide SoundKey, FindPlan, CreatedKey, GoodPlan;
    var after := PlanCreated(s, plan, bound);
    forall scope | scope in after.keys
      ensures SoundKey(after.plans, after.keys[scope])
      ensures after.keys[scope].planID != "" ==> FindPlan(after.plans, after.keys[scope].planID).Some?
    {
      CreatedKeyIsSound(s, plan, bound, scope);
    }
  }

  /** CreatePlanWithBindings: the plan and all its bindings appear together or not at all. */
  method CreatePlan(store: S.Store, plan: Plan, scopes: seq<string>, generated: string, now: Time, freshIDs: seq<string>, fails: bool)
    returns (r: Result<Plan>)
    requires store.Valid() && Consistent(store.Memory()) && |plan.windows| <= |freshIDs|
    modifies store`state, store`dirty, store`unsavedNormal, store`unsavedErrors, store.repo
    ensures store.Valid() && Consistent(store.Memory())
    ensures store.Kept(old(store.Held()), r.Ok?)
    ensures var s := old(store.Memory());
            match PlanCreation(s, plan, scopes, generated, now, freshIDs)
            case Err(_) => r.Err? && store.Memory() == s
            case Ok(made) =>
              if fails then r.Err? && store.Memory() == s
              else r == Ok(made) && store.Memory() == PlanCreated(s, made, SetOf(NormalizeScopes(scopes)))
  {
    hide Consistent, Separate, S.Agrees, S.Covers, KeysOf, Merge, CreatedKey, ValidPlan, PreparedTo, NormalizeScopes, S.Rewritten,
         GoodPlan, Trim, PlanCreation;
    var s := store.Memory();
    assert forall c :: c in Cells(store.state.keys) ==> c as object != store.repo && c as object != store;
    var created := PlanCreation(s, plan, scopes, generated, now, freshIDs);
    if created.Err? { return Err(created.reason); }
    var made, names := created.value, NormalizeScopes(scopes);
    var bound := SetOf(names);
    CreationIsConsistent(s, plan, scopes, generated, now, freshIDs);
    var f := (scope, key) => CreatedKey(made.id, bound, scope, key);
    var changes := NO_CHANGES.(plans := true, keys := names);
    NamedKeysCovered(s, s.plans + [made], names, f);
    MergeIsEmpty(store.dirty, changes);
    var ok := store.Edit(s.plans + [made], s.routes, s.groups, s.access, f, changes, fails);
    if !ok { return Err("Save configuration"); }
    return Ok(made);
  }

  lemma CreationIsConsistent(s: Snapshot, plan: Plan, scopes: seq<string>, generated: string, now: Time, freshIDs: seq<string>)
    requires Consistent(s) && |plan.windows| <= |freshIDs| && PlanCreation(s, plan, scopes, generated, now, freshIDs).Ok?
    ensures var made := PlanCreation(s, plan, scopes, generated, now, freshIDs).value;
            var bound := SetOf(NormalizeScopes(scopes));
            && Consistent(PlanCreated(s, made, bound))
            && forall scope, key :: scope !in NormalizeScopes(scopes) ==> CreatedKey(made.id, bound, scope, key) == key
  {
    hide GoodWindows, ValidWindows, PlanCreated, NormalizeScopes, PreparedTo, Consistent;
    var made := PlanCreation(s, plan, scopes, generated, now, freshIDs).value;
    ValidIsGood(made.windows);
    CreationKeepsConsistent(s, made, SetOf(NormalizeScopes(scopes)));
  }

  /** Naming the rewritten keys covers an edit that rewrites no others. */
  lemma NamedKeysCovered(s: Snapshot, plans: seq<Plan>, names: seq<string>, f: (string, Key) -> Key)
    requires forall scope, key :: scope !in names ==> f(scope, key) == key
    ensures S.Covers(s, S.Edited(s, plans, s.routes, s.groups, s.access, f), NO_CHANGES.(plans := true, keys := names))
    ensures S.Covers(s, S.Edited(s, s.plans, s.routes, s.groups, s.access, f), NO_CHANGES.(keys := names))
  {
  }

  // ----- Deleting ---------------------------------------------------------------------

  function DeletedKey(planID: string, key: Key): Key {
    if key.planID == planID then Unbound(key) else key
  }

  ghost function PlanDeleted(s: Snapshot, i: nat): Snapshot
    requires i < |s.plans|
  {
    S.Edited(s, s.plans[..i] + s.plans[i + 1..], s.routes, s.groups, s.access, (scope, key) => DeletedKey(s.plans[i].id, key))
  }

  lemma {:induction false} FindRemaining(plans: seq<Plan>, i: nat, id: string)
    requires i < |plans| && Trim(id) != plans[i].id
    ensures FindPlan(plans[..i] + plans[i + 1..], id) == FindPlan(plans, id)
  {
    hide Trim;
    if i > 0 {
      assert (plans[..i] + plans[i + 1..])[1..] == plans[1..][..i - 1] + plans[1..][i..];
      FindRemaining(plans[1..], i - 1, id);
    } else {
      assert plans[..0] + plans[1..] == plans[1..];
    }
  }

  lemma DeletionKeepsConsistent(s: Snapshot, i: nat)
    requires Consistent(s) && i < |s.plans|
    ensures Consistent(PlanDeleted(s, i))
  {
    hide GoodPlan, GoodCycles, Trim;
    var after := PlanDeleted(s, i);
    NoNamelessPlan(after.plans);
    forall scope | scope in after.keys
      ensures SoundKey(after.plans, after.keys[scope])
      ensures after.keys[scope].planID != "" ==> FindPlan(after.plans, after.keys[scope].planID).Some?
    {
      var key := s.keys[scope];
      assert SoundKey(s.plans, key);
      if key.planID != s.plans[i].id && key.planID != "" {
        FindRemaining(s.plans, i, key.planID);
      }
    }
  }

  /** DeletePlan: every key of the plan is released, deleted keys included. */
  method DeletePlan(store: S.Store, id: string, fails: bool) returns (r: Result<nat>)
    requires store.Valid() && Consistent(store.Memory())
    modifies store`state, store`dirty, store`unsavedNormal, store`unsavedErrors, store.repo
    ensures store.Valid() && Consistent(store.Memory())
    ensures store.Kept(old(store.Held()), r.Ok?)
    ensures var s, index := old(store.Memory()), PlanIndex(old(store.Memory()).plans, Trim(id));
            if fails || Trim(id) == "" || index.None? then r.Err? && store.Memory() == s
            else
              && store.Memory() == PlanDeleted(s, index.value)
              && r == Ok(|set scope | scope in s.keys && s.keys[scope].planID == Trim(id)|)
  {
    hide Consistent, Separate, S.Agrees, S.Covers, KeysOf, Merge, DeletedKey, S.Rewritten, Trim;
    var s := store.Memory();
    assert forall c :: c in Cells(store.state.keys) ==> c as object != store.repo && c as object != store;
    if Trim(id) == "" { return Err("Subscription plan ID is required"); }
    var index := PlanIndex(s.plans, Trim(id));
    if index.None? { return Err("Subscription plan does not exist"); }
    var i, planID := index.value, s.plans[index.value].id;
    DeletionKeepsConsistent(s, i);
    var f := (scope, key) => DeletedKey(planID, key);
    var changes := NO_CHANGES.(plans := true, allKeys := true);
    var rest := s.plans[..i] + s.plans[i + 1..];
    EverythingCovered(s, rest, f);
    MergeIsEmpty(store.dirty, changes);
    var ok := store.Edit(rest, s.routes, s.groups, s.access, f, changes, fails);
    if !ok { return Err("Save configuration"); }
    return Ok(|set scope | scope in s.keys && s.keys[scope].planID == planID|);
  }

  // ----- Single keys ------------------------------------------------------------------

  lemma KeyKeepsConsistent(s: Snapshot, scope: string, key: Key)
    requires Consistent(s) && scope in s.keys && SoundKey(s.plans, key)
    requires key.planID != "" ==> FindPlan(s.plans, key.planID).Some?
    ensures Consistent(WithKey(s, scope, key))
  {
    hide SoundKey, FindPlan, GoodPlans;
    SoundWith(s, scope, key);
  }

  /** Rewrites one key: what BindKey, UnbindKey and a reset of one key come down to. */
  method ReplaceKey(store: S.Store, scope: string, key: Key, fails: bool) returns (ok: bool)
    requires store.Valid() && scope in store.Memory().keys && Consistent(store.Memory())
    requires SoundKey(store.Memory().plans, key) && (key.planID != "" ==> FindPlan(store.Memory().plans, key.planID).Some?)
    modifies store`state, store`dirty, store`unsavedNormal, store`unsavedErrors, store.repo
    ensures store.Valid() && Consistent(store.Memory())
    ensures store.Kept(old(store.Held()), ok)
    ensures ok == !fails
    ensures store.Memory() == if ok then WithKey(old(store.Memory()), scope, key) else old(store.Memory())
  {
    hide Consistent, SoundKey, Separate, S.Agrees, S.Covers, KeysOf, Merge, FindPlan;
    var s := store.Memory();
    assert forall c :: c in Cells(store.state.keys) ==> c as object != store.repo && c as object != store;
    KeyKeepsConsistent(s, scope, key);
    var f := (name, was) => if name == scope then key else was;
    var changes := NO_CHANGES.(keys := [scope]);
    NamedKeysCovered(s, s.plans, [scope], f);
    MergeIsEmpty(store.dirty, changes);
    ok := store.Edit(s.plans, s.routes, s.groups, s.access, f, changes, fails);
    assert S.Rewritten(s.keys, f) == s.keys[scope := key];
  }

  /** BindKey: a rebinding starts with no cycles, so nothing used before counts against the new plan. */
  method BindKey(store: S.Store, scope: string, planID: string, fails: bool) returns (ok: bool)
    requires store.Valid() && Consistent(store.Memory())
    modifies store`state, store`dirty, store`unsavedNormal, store`unsavedErrors, store.repo
    ensures store.Valid() && Consistent(store.Memory())
    ensures store.Kept(old(store.Held()), ok)
    ensures var s, name, found := old(store.Memory()), NormalizeScopeName(scope), FindPlan(old(store.Memory()).plans, planID);
            if found.None? || !LiveKey(s, name) then !ok && store.Memory() == s
            else if s.keys[name].planID == found.value.id then store.Memory() == s && (ok || fails)
            else ok == !fails && store.Memory() == if ok then WithKey(s, name, BoundTo(s.keys[name], found.value.id)) else s
  {
    hide Consistent, SoundKey, Separate, S.Agrees, S.Covers, KeysOf, Merge, FindPlan, NormalizeScopeName;
    var s, name := store.Memory(), NormalizeScopeName(scope);
    assert forall c :: c in Cells(store.state.keys) ==> c as object != store.repo && c as object != store;
    var found := FindPlan(s.plans, planID);
    if found.None? || !LiveKey(s, name) { return false; }
    if s.keys[name].planID == found.value.id {
      ok := NoEdit(store, fails);
      return;
    }
    BoundIsSound(s, name, planID);
    ok := ReplaceKey(store, name, BoundTo(s.keys[name], found.value.id), fails);
  }

  lemma BoundIsSound(s: Snapshot, scope: string, planID: string)
    requires Consistent(s) && scope in s.keys && FindPlan(s.plans, planID).Some?
    ensures GoodPlans(s.plans)
    ensures var plan := FindPlan(s.plans, planID).value;
            SoundKey(s.plans, BoundTo(s.keys[scope], plan.id)) && FindPlan(s.plans, plan.id).Some?
  {
    hide GoodCycles, GoodPlan;
    var plan := FindPlan(s.plans, planID).value;
    var i :| 0 <= i < |s.plans| && s.plans[i] == plan;
    FindFirst(s.plans, i);
    assert GoodPlan(plan);
    EmptyCyclesAreGood(plan);
  }

  /** An edit that changes nothing still retries what earlier updates could not save. */
  method NoEdit(store: S.Store, fails: bool) returns (ok: bool)
    requires store.Valid()
    modifies store`state, store`dirty, store`unsavedNormal, store`unsavedErrors, store.repo
    ensures store.Valid() && store.Memory() == old(store.Memory())
    ensures store.Kept(old(store.Held()), ok)
    ensures ok <==> !fails || old(store.dirty) == NO_CHANGES
    ensures ok ==> store.dirty == NO_CHANGES
  {
    hide Separate, S.Agrees, S.Covers, KeysOf, Merge;
    var s := store.Memory();
    assert forall c :: c in Cells(store.state.keys) ==> c as object != store.repo && c as object != store;
    var f := (name: string, was: Key) => was;
    NamedKeysCovered(s, s.plans, [], f);
    MergeIsEmpty(store.dirty, NO_CHANGES);
    ok := store.Edit(s.plans, s.routes, s.groups, s.access, f, NO_CHANGES, fails);
    assert S.Rewritten(s.keys, f) == s.keys;
  }

  method UnbindKey(store: S.Store, scope: string, fails: bool) returns (ok: bool)
    requires store.Valid() && Consistent(store.Memory())
    modifies store`state, store`dirty, store`unsavedNormal, store`unsavedErrors, store.repo
    ensures store.Valid() && Consistent(store.Memory())
    ensures store.Kept(old(store.Held()), ok)
    ensures var s, name := old(store.Memory()), NormalizeScopeName(scope);
            if name == "" then !ok && store.Memory() == s
            else if !LiveKey(s, name) || s.keys[name].planID == "" then store.Memory() == s && (ok || fails)
            else ok == !fails && store.Memory() == if ok then WithKey(s, name, Unbound(s.keys[name])) else s
  {
    hide Consistent, SoundKey, Separate, S.Agrees, S.Covers, KeysOf, Merge, FindPlan, NormalizeScopeName;
    var s, name := store.Memory(), NormalizeScopeName(scope);
    assert forall c :: c in Cells(store.state.keys) ==> c as object != store.repo && c as object != store;
    if name == "" { return false; }
    if !LiveKey(s, name) || s.keys[name].planID == "" {
      ok := NoEdit(store, fails);
      return;
    }
    ReleasedIsSound(s, name);
    ok := ReplaceKey(store, name, Unbound(s.keys[name]), fails);
  }

  lemma ReleasedIsSound(s: Snapshot, scope: string)
    requires Consistent(s) && scope in s.keys
    ensures GoodPlans(s.plans) && SoundKey(s.plans, Unbound(s.keys[scope])) && SoundKey(s.plans, s.keys[scope].(cycles := map[]))
    ensures s.keys[scope].planID != "" ==> FindPlan(s.plans, s.keys[scope].planID).Some?
  {
    hide GoodPlan;
    NoNamelessPlan(s.plans);
    assert SoundKey(s.plans, s.keys[scope]);
  }

  // ----- Resetting --------------------------------------------------------------------

  function ResetKey(reset: set<string>, scope: string, key: Key): Key {
    if scope in reset then key.(cycles := map[]) else key
  }

  ghost function QuotaReset(s: Snapshot, reset: set<string>): Snapshot {
    S.Edited(s, s.plans, s.routes, s.groups, s.access, (scope, key) => ResetKey(reset, scope, key))
  }

  /** The keys a reset is asked for: all live bound ones, or those listed. */
  function ResetTargets(s: Snapshot, everyone: bool, scopes: seq<string>): set<string> {
    if everyone then set scope | scope in s.keys && s.keys[scope].Live() && s.keys[scope].planID != ""
    else SetOf(NormalizeScopes(scopes))
  }

  predicate Resettable(s: Snapshot, targets: set<string>) {
    forall scope :: scope in targets ==> LiveKey(s, scope) && s.keys[scope].planID != ""
  }

  lemma ResetKeepsConsistent(s: Snapshot, reset: set<string>)
    requires Consistent(s)
    ensures Consistent(QuotaReset(s, reset))
  {
    hide SoundKey, FindPlan, GoodPlans;
    var after := QuotaReset(s, reset);
    forall scope | scope in after.keys
      ensures SoundKey(after.plans, after.keys[scope])
      ensures after.keys[scope].planID != "" ==> FindPlan(after.plans, after.keys[scope].planID).Some?
    {
      ReleasedIsSound(s, scope);
    }
  }

  /** The targets that have cycles to lose, and the cycles, each with its key. */
  ghost function RunningOf(s: Snapshot, targets: set<string>): set<string> {
    set scope | scope in targets && scope in s.keys && s.keys[scope].cycles != map[]
  }

  ghost function LostOf(s: Snapshot, targets: set<string>): (r: set<(string, string)>)
    ensures forall p :: p in r <==> p.0 in targets && p.0 in s.keys && p.1 in s.keys[p.0].cycles
  {
    set scope, id | scope in targets && scope in s.keys && id in s.keys[scope].cycles :: (scope, id)
  }

  /** ResetQuota: every target loses its cycles, which are counted, or, if one of them cannot be reset, none does. */
  method ResetQuota(store: S.Store, everyone: bool, scopes: seq<string>, fails: bool) returns (ok: bool, keys: nat, windows: nat)
    requires store.Valid() && Consistent(store.Memory())
    modifies store`state, store`dirty, store`unsavedNormal, store`unsavedErrors, store.repo
    ensures store.Valid() && Consistent(store.Memory())
    ensures store.Kept(old(store.Held()), ok)
    ensures var s := old(store.Memory()); var targets := ResetTargets(s, everyone, scopes);
            if (everyone <==> NormalizeScopes(scopes) != []) || !Resettable(s, targets) then !ok && keys == 0 && windows == 0 && store.Memory() == s
            else
              && store.Memory() == (if ok then QuotaReset(s, targets) else s) && (ok || fails)
              && (ok ==> keys == |RunningOf(s, targets)| && windows == |LostOf(s, targets)|)
  {
    hide Consistent, Separate, S.Agrees, S.Covers, KeysOf, Merge, ResetKey, S.Rewritten, NormalizeScopes, Resettable, RunningOf, LostOf;
    var s := store.Memory();
    assert forall c :: c in Cells(store.state.keys) ==> c as object != store.repo && c as object != store;
    if everyone && NormalizeScopes(scopes) != [] { return false, 0, 0; }
    if !everyone && NormalizeScopes(scopes) == [] { return false, 0, 0; }
    var targets := ResetTargets(s, everyone, scopes);
    if !Resettable(s, targets) { return false, 0, 0; }
    ResetKeepsConsistent(s, targets);
    var f := (scope, key) => ResetKey(targets, scope, key);
    var changed: seq<string>;
    changed, keys, windows := RunningKeys(s, targets);
    ResetIsCovered(s, targets, changed);
    ok := store.Edit(s.plans, s.routes, s.groups, s.access, f, NO_CHANGES.(keys := changed), fails);
  }

  /** The targets that have cycles to lose, in some order, and how many they lose. */
  method RunningKeys(s: Snapshot, targets: set<string>) returns (changed: seq<string>, keys: nat, windows: nat)
    ensures forall scope :: scope in changed <==> scope in RunningOf(s, targets)
    ensures keys == |RunningOf(s, targets)| && windows == |LostOf(s, targets)|
  {
    hide LostOf, RunningOf;
    changed, keys, windows := [], 0, 0;
    var pending := targets;
    NothingLost(s);
    assert targets - pending == {};
    while pending != {}
      invariant pending <= targets
      invariant forall scope :: scope in changed <==> scope in RunningOf(s, targets - pending)
      invariant keys == |RunningOf(s, targets - pending)| && windows == |LostOf(s, targets - pending)|
      decreases pending
    {
      var scope :| scope in pending;
      ghost var done := targets - pending;
      OneMoreRunning(s, done, scope);
      OneMoreLost(s, done, scope);
      assert targets - (pending - {scope}) == done + {scope};
      pending := pending - {scope};
      if scope in s.keys && s.keys[scope].cycles != map[] {
        changed, keys, windows := changed + [scope], keys + 1, windows + |s.keys[scope].cycles|;
      }
    }
    assert targets - pending == targets;
  }

  lemma NothingLost(s: Snapshot)
    ensures RunningOf(s, {}) == {} && LostOf(s, {}) == {}
  {
  }

  lemma OneMoreRunning(s: Snapshot, done: set<string>, scope: string)
    requires scope !in done
    ensures var running := scope in s.keys && s.keys[scope].cycles != map[];
            RunningOf(s, done + {scope}) == RunningOf(s, done) + (if running then {scope} else {}) && scope !in RunningOf(s, done)
  {
  }

  lemma OneMoreLost(s: Snapshot, done: set<string>, scope: string)
    requires scope !in done
    ensures |LostOf(s, done + {scope})| == |LostOf(s, done)| + (if scope in s.keys then |s.keys[scope].cycles| else 0)
  {
    hide LostOf;
    var ids := if scope in s.keys then s.keys[scope].cycles.Keys else {};
    assert scope in s.keys ==> |ids| == |s.keys[scope].cycles|;
    Disjoint(LostOf(s, done), Tagged(scope, ids), LostOf(s, done + {scope}));
  }

  lemma Disjoint<T>(a: set<T>, b: set<T>, c: set<T>)
    requires a !! b && forall x :: x in c <==> x in a || x in b
    ensures |c| == |a| + |b|
  {
    assert c == a + b;
  }

  ghost function Tagged(scope: string, ids: set<string>): (r: set<(string, string)>)
    ensures |r| == |ids| && forall p :: p in r <==> p.0 == scope && p.1 in ids
  {
    if ids == {} then {} else
    var one :| one in ids;
    Tagged(scope, ids - {one}) + {(scope, one)}
  }

  lemma ResetIsCovered(s: Snapshot, targets: set<string>, changed: seq<string>)
    requires forall scope :: scope in changed <==> scope in RunningOf(s, targets)
    ensures S.Covers(s, QuotaReset(s, targets), NO_CHANGES.(keys := changed))
  {
  }
}
