/**
  Subscription plans of internal/billing/plan.go and the key bindings of keys.go: which plans
  are valid, how edited windows are prepared, and what plan edits do to running cycles.
 */
module Plans {
  import opened Text
  import opened Model
  import opened ChangeSets
  import opened QuotaCycles
  import opened QuotaScopes
  import opened QuotaState
  import S = Stores

  /** Limits travel through browser number inputs: 2^53 - 1. */
  const MAX_QUOTA_COUNT: int := 0x1F_FFFF_FFFF_FFFF

  /** The last instant of year 9999, exclusive. */
  const END_OF_YEARS: Time := 253_402_300_800 * SECOND

  // ----- Valid plans ------------------------------------------------------------------

  predicate ValidWindow(w: Window) {
    && w.id != "" && 0 < |Trim(w.name)| <= MAX_NAME_BYTES
    && w.amount >= 0.0 && 0 <= w.tokenLimit <= MAX_QUOTA_COUNT && 0 <= w.requestLimit <= MAX_QUOTA_COUNT
    && !(w.amount == 0.0 && w.tokenLimit == 0 && w.requestLimit == 0)
    && 0 < w.period <= MAX_PERIOD && NormalizeScope(w.scope).Ok?
    && (Anchored(w) ==> 0 <= w.anchor < END_OF_YEARS && Nanos(w.anchor) == 0)
  }

  /** Two windows of one plan differ in ID, in name, and in period or scope. */
  predicate Apart(a: Window, b: Window) {
    && a.id != b.id && Lower(Trim(a.name)) != Lower(Trim(b.name))
    && !(a.period == b.period && Identity(a.scope) == Identity(b.scope))
  }

  predicate ValidWindows(windows: seq<Window>) {
    && (forall i :: 0 <= i < |windows| ==> ValidWindow(windows[i]) && Anchored(windows[i]) == Anchored(windows[0]))
    && (forall i, j :: 0 <= i < j < |windows| ==> Apart(windows[i], windows[j]))
  }

  predicate ValidPlan(plan: Plan) {
    Trim(plan.id) != "" && plan.windows != [] && ValidWindows(plan.windows)
  }

  /** Plan.Validate: one pass that remembers the IDs, the names and the periods with their scopes. */
  method ValidatePlan(plan: Plan) returns (trouble: Option<string>)
    ensures trouble.None? <==> ValidPlan(plan)
  {
    hide ValidWindow, Trim, Lower, Identity;
    if Trim(plan.id) == "" { return Some("Subscription plan ID is required"); }
    if plan.windows == [] { return Some("A subscription plan requires at least one quota window"); }
    var windows := plan.windows;
    var ids: set<string>, names: set<string>, schedules: set<(int, QuotaScope)> := {}, {}, {};
    for i := 0 to |windows|
      invariant ids == set j | 0 <= j < i :: windows[j].id
      invariant names == set j | 0 <= j < i :: Lower(Trim(windows[j].name))
      invariant schedules == set j | 0 <= j < i :: (windows[j].period, Identity(windows[j].scope))
      invariant forall j :: 0 <= j < i ==> ValidWindow(windows[j]) && Anchored(windows[j]) == Anchored(windows[0])
      invariant forall j, k :: 0 <= j < k < i ==> Apart(windows[j], windows[k])
    {
      var w := windows[i];
      var name, schedule := Lower(Trim(w.name)), (w.period, Identity(w.scope));
      if !ValidWindow(w) { return Some("Invalid quota window"); }
      if w.id in ids { return Some("Invalid or duplicate quota window ID"); }
      if name in names { return Some("Duplicate window name"); }
      if schedule in schedules { return Some("Window has the same period and scope as another window"); }
      if Anchored(w) != Anchored(windows[0]) { return Some("All windows in a subscription plan must use the same cycle mode"); }
      ids, names, schedules := ids + {w.id}, names + {name}, schedules + {schedule};
    }
    return None;
  }

  lemma ValidIsGood(windows: seq<Window>)
    requires ValidWindows(windows)
    ensures GoodWindows(windows)
  {
    hide Identity, Lower, Trim, NormalizeScope;
    forall w | w in windows
      ensures GoodWindow(w)
    {
      var i :| 0 <= i < |windows| && windows[i] == w;
      assert ValidWindow(windows[i]);
    }
    assert forall i, j :: 0 <= i < j < |windows| ==> Apart(windows[i], windows[j]);
  }

  // ----- Preparing edited windows -----------------------------------------------------

  /** One edited window: normalized, given an ID if new, and scheduled either as before or from a coming instant. */
  function PrepareOne(w: Window, existing: seq<Window>, now: Time, fresh': string): Result<Window> {
    match NormalizeScope(w.scope)
    case Err(reason) => Err(reason)
    case Ok(scope) =>
      var old' := WindowOf(existing, w.id);
      if w.id != "" && old'.None? then Err("Quota window no longer exists; refresh and try again") else
      var named := w.(name := Trim(w.name), scope := scope, id := if w.id == "" then fresh' else w.id);
      if !Anchored(w) then Ok(named)
      else if old'.Some? && SameSchedule(w, old'.value) then Ok(named.(anchor := old'.value.anchor))
      else if w.period <= 0 || w.period > MAX_PERIOD || w.anchor <= now || w.anchor > now + w.period * SECOND then
        Err("The next cycle must start after now and within one period")
      else Ok(named)
  }

  function InsertByPeriod(w: Window, windows: seq<Window>): (r: seq<Window>)
    ensures forall x :: x in r <==> x == w || x in windows
  {
    if windows == [] || windows[|windows| - 1].period <= w.period then windows + [w]
    else
      var front, last := windows[..|windows| - 1], windows[|windows| - 1];
      assert windows == front + [last];
      InsertByPeriod(w, front) + [last]
  }

  predicate ByPeriod(windows: seq<Window>) {
    forall i, j :: 0 <= i < j < |windows| ==> windows[i].period <= windows[j].period
  }

  lemma {:induction false} InsertKeepsPeriods(w: Window, windows: seq<Window>)
    requires ByPeriod(windows)
    ensures ByPeriod(InsertByPeriod(w, windows))
  {
    if windows == [] || windows[|windows| - 1].period <= w.period {
    } else {
      var front, last := windows[..|windows| - 1], windows[|windows| - 1];
      InsertKeepsPeriods(w, front);
      forall x | x in InsertByPeriod(w, front)
        ensures x.period <= last.period
      {
        if x != w {
          var i :| 0 <= i < |front| && front[i] == x;
          assert windows[i] == x;
        }
      }
    }
  }

  /** The first n windows prepared, in ascending order of period; one bad window fails them all. */
  function PreparedTo(windows: seq<Window>, existing: seq<Window>, now: Time, freshIDs: seq<string>, n: nat): Result<seq<Window>>
    requires n <= |windows| <= |freshIDs|
  {
    if n == 0 then Ok([]) else
    match PreparedTo(windows, existing, now, freshIDs, n - 1)
    case Err(reason) => Err(reason)
    case Ok(front) =>
      match PrepareOne(windows[n - 1], existing, now, freshIDs[n - 1])
      case Err(reason) => Err(reason)
      case Ok(w) => Ok(InsertByPeriod(w, front))
  }

  /** prepareWindows. */
  method PrepareWindows(windows: seq<Window>, existing: seq<Window>, now: Time, freshIDs: seq<string>)
    returns (r: Result<seq<Window>>)
    requires |windows| <= |freshIDs|
    ensures r == PreparedTo(windows, existing, now, freshIDs, |windows|)
  {
    hide PrepareOne, InsertByPeriod;
    var prepared: seq<Window> := [];
    for i := 0 to |windows|
      invariant PreparedTo(windows, existing, now, freshIDs, i) == Ok(prepared)
    {
      var one := PrepareOne(windows[i], existing, now, freshIDs[i]);
      if one.Err? {
        PreparedStaysFailed(windows, existing, now, freshIDs, i + 1);
        return Err(one.reason);
      }
      prepared := InsertByPeriod(one.value, prepared);
    }
    return Ok(prepared);
  }

  lemma {:induction false} PreparedStaysFailed(windows: seq<Window>, existing: seq<Window>, now: Time, freshIDs: seq<string>, n: nat)
    requires n <= |windows| <= |freshIDs| && PreparedTo(windows, existing, now, freshIDs, n).Err?
    ensures PreparedTo(windows, existing, now, freshIDs, |windows|) == Err(PreparedTo(windows, existing, now, freshIDs, n).reason)
    decreases |windows| - n
  {
    hide PrepareOne, InsertByPeriod;
    if n < |windows| { PreparedStaysFailed(windows, existing, now, freshIDs, n + 1); }
  }

  /** Preparing keeps every window, changes each only as PrepareOne says, and orders them by period. */
  lemma {:induction false} PreparedMeans(windows: seq<Window>, existing: seq<Window>, now: Time, freshIDs: seq<string>, n: nat)
    requires n <= |windows| <= |freshIDs|
    ensures var r := PreparedTo(windows, existing, now, freshIDs, n);
            && (r.Ok? <==> forall i :: 0 <= i < n ==> PrepareOne(windows[i], existing, now, freshIDs[i]).Ok?)
            && (r.Ok? ==> ByPeriod(r.value))
            && (r.Ok? ==> forall x :: x in r.value <==> exists i :: 0 <= i < n && PrepareOne(windows[i], existing, now, freshIDs[i]) == Ok(x))
  {
    hide PrepareOne, InsertByPeriod, ByPeriod;
    if n == 0 {
      NothingOutOfOrder();
    } else {
      PreparedMeans(windows, existing, now, freshIDs, n - 1);
      var front, one := PreparedTo(windows, existing, now, freshIDs, n - 1), PrepareOne(windows[n - 1], existing, now, freshIDs[n - 1]);
      if front.Ok? && one.Ok? {
        InsertKeepsPeriods(one.value, front.value);
      }
    }
  }

  lemma NothingOutOfOrder()
    ensures ByPeriod([])
  {
  }

  /** A prepared anchored window runs on the very schedule it had, or first starts after now and within one period. */
  lemma PreparedSchedules(w: Window, existing: seq<Window>, now: Time, fresh': string)
    requires PrepareOne(w, existing, now, fresh').Ok? && Anchored(w)
    ensures var x := PrepareOne(w, existing, now, fresh').value;
            || (exists o :: o in existing && o.id == w.id && o.anchor == x.anchor && SameSchedule(w, o))
            || now < x.anchor <= now + x.period * SECOND
    ensures StoredScope(PrepareOne(w, existing, now, fresh').value.scope)
  {
    hide Remainder, Unix, Trim, NormalizeScope;
    NormalizingIsStable(w.scope, NormalizeScope(w.scope).value);
  }

  // ----- What edits do to keys --------------------------------------------------------

  function BoundTo(key: Key, planID: string): Key {
    key.(planID := planID, cycles := map[])
  }

  /** The old windows without a counterpart on the same schedule and scope: their cycles start over. */
  function ResetWindows(before: seq<Window>, after: seq<Window>): (r: set<string>)
    ensures forall id :: id in r <==> exists o :: o in before && o.id == id && !Continued(o, after)
  {
    set o | o in before && !Continued(o, after) :: o.id
  }

  predicate Continues(o: Window, w: Window) {
    w.id == o.id && SameSchedule(w, o) && Identity(w.scope) == Identity(o.scope)
  }

  predicate Continued(o: Window, after: seq<Window>) {
    exists i :: 0 <= i < |after| && Continues(o, after[i])
  }

  /** What updating a plan does to one key; selected is absent when the edit leaves bindings alone. */
  function UpdatedKey(planID: string, reset: set<string>, selected: Option<set<string>>, scope: string, key: Key): Key {
    var kept := if key.planID != planID then key
                else if selected.Some? && scope !in selected.value then Unbound(key)
                else key.(cycles := key.cycles - reset);
    if selected.Some? && scope in selected.value && kept.planID == "" then BoundTo(kept, planID) else kept
  }

  lemma {:induction false} FindReplaced(plans: seq<Plan>, i: nat, updated: Plan, id: string)
    requires i < |plans| && updated.id == plans[i].id
    ensures var was, now := FindPlan(plans, id), FindPlan(plans[i := updated], id);
            && (was.Some? <==> now.Some?)
            && (was.Some? && was.value.id != updated.id ==> now == was)
    decreases i
  {
    hide Trim;
    if i > 0 {
      assert plans[i := updated][1..] == plans[1..][i - 1 := updated];
      FindReplaced(plans[1..], i - 1, updated, id);
    } else {
      assert plans[i := updated][1..] == plans[1..];
    }
  }

  lemma ReplacedIsGood(plans: seq<Plan>, i: nat, updated: Plan)
    requires GoodPlans(plans) && i < |plans| && updated.id == plans[i].id && GoodPlan(updated)
    ensures GoodPlans(plans[i := updated]) && FindPlan(plans[i := updated], updated.id) == Some(updated)
  {
    hide GoodWindows, Trim;
    FindFirst(plans[i := updated], i);
  }

  /** A cycle kept across the edit is valid for the window that continues the old one. */
  lemma ContinuedCycleIsGood(planID: string, o: Window, w: Window, c: Cycle)
    requires GoodWindow(o) && GoodWindow(w) && Continues(o, w) && GoodCycle(planID, o, c)
    ensures GoodCycle(planID, w, c)
  {
    hide StartOf, Unix, Remainder, Identity;
    if Anchored(o) { SameStart(w, o, c.startAt); }
  }

  lemma UpdatedCyclesAreGood(planID: string, before: seq<Window>, after: seq<Window>, cycles: Cycles)
    requires GoodWindows(before) && GoodWindows(after) && PositivePeriods(before) && PositivePeriods(after)
    requires GoodCycles(planID, before, cycles)
    ensures GoodCycles(planID, after, cycles - ResetWindows(before, after))
  {
    hide GoodCycle, GoodWindow, Continues;
    var kept := cycles - ResetWindows(before, after);
    forall id | id in kept
      ensures var w := WindowOf(after, id); w.Some? && GoodCycle(planID, w.value, kept[id])
    {
      var o := WindowOf(before, id).value;
      assert Continued(o, after);
      var i :| 0 <= i < |after| && Continues(o, after[i]);
      ContinuingID(o, after[i]);
      assert after[i] in after;
      ContinuedCycleIsGood(planID, o, after[i], cycles[id]);
    }
  }

  lemma ContinuingID(o: Window, w: Window)
    requires Continues(o, w)
    ensures w.id == o.id
  {
  }

  /** The working set after a plan was replaced in place. */
  ghost function PlanUpdated(s: Snapshot, i: nat, updated: Plan, reset: set<string>, selected: Option<set<string>>): Snapshot
    requires i < |s.plans|
  {
    S.Edited(s, s.plans[i := updated], s.routes, s.groups, s.access, (scope, key) => UpdatedKey(updated.id, reset, selected, scope, key))
  }

  lemma UpdatedKeyIsSound(s: Snapshot, i: nat, updated: Plan, reset: set<string>, selected: Option<set<string>>, scope: string)
    requires Consistent(s) && i < |s.plans| && updated.id == s.plans[i].id && GoodPlan(updated) && scope in s.keys
    requires ResetWindows(s.plans[i].windows, updated.windows) <= reset
    ensures GoodPlans(s.plans[i := updated])
    ensures var key := UpdatedKey(updated.id, reset, selected, scope, s.keys[scope]);
            && SoundKey(s.plans[i := updated], key)
            && (key.planID != "" ==> FindPlan(s.plans[i := updated], key.planID).Some?)
  {
    hide GoodCycles, GoodWindows, ResetWindows;
    var key := s.keys[scope];
    var plans := s.plans[i := updated];
    ReplacedIsGood(s.plans, i, updated);
    FindFirst(s.plans, i);
    assert SoundKey(s.plans, key);
    FindReplaced(s.plans, i, updated, key.planID);
    EmptyCyclesAreGood(updated);
    assert FindPlan(plans, "").None?;
    if key.planID == updated.id {
      KeptCyclesAreGood(updated.id, s.plans[i].windows, updated.windows, key.cycles, reset);
    }
  }

  lemma EmptyCyclesAreGood(plan: Plan)
    requires GoodPlan(plan)
    ensures PositivePeriods(plan.windows) && GoodCycles(plan.id, plan.windows, map[])
  {
  }

  lemma KeptCyclesAreGood(planID: string, before: seq<Window>, after: seq<Window>, cycles: Cycles, reset: set<string>)
    requires GoodWindows(before) && GoodWindows(after) && PositivePeriods(before) && PositivePeriods(after)
    requires GoodCycles(planID, before, cycles) && ResetWindows(before, after) <= reset
    ensures GoodCycles(planID, after, cycles - reset)
  {
    hide GoodCycle, WindowOf, ResetWindows, GoodWindow;
    UpdatedCyclesAreGood(planID, before, after, cycles);
    var kept := cycles - ResetWindows(before, after);
    assert forall id :: id in cycles - reset ==> id in kept && (cycles - reset)[id] == kept[id];
  }

  /** Updating a plan keeps every key valid: cycles whose schedule or scope changed start over, all others go on. */
  lemma UpdateKeepsConsistent(s: Snapshot, i: nat, updated: Plan, reset: set<string>, selected: Option<set<string>>)
    requires Consistent(s) && i < |s.plans| && updated.id == s.plans[i].id && GoodPlan(updated)
    requires ResetWindows(s.plans[i].windows, updated.windows) <= reset
    ensures Consistent(PlanUpdated(s, i, updated, reset, selected))
  {
    hide SoundKey, FindPlan, UpdatedKey, ResetWindows, GoodPlan;
    ReplacedIsGood(s.plans, i, updated);
    var after := PlanUpdated(s, i, updated, reset, selected);
    forall scope | scope in after.keys
      ensures SoundKey(after.plans, after.keys[scope])
      ensures after.keys[scope].planID != "" ==> FindPlan(after.plans, after.keys[scope].planID).Some?
    {
      UpdatedKeyIsSound(s, i, updated, reset, selected, scope);
    }
  }

  // ----- Plan edits -------------------------------------------------------------------

  function PlanIndex(plans: seq<Plan>, id: string): (i: Option<nat>)
    ensures i.Some? ==> i.value < |plans| && plans[i.value].id == id
    ensures i.None? ==> forall j :: 0 <= j < |plans| ==> plans[j].id != id
  {
    if plans == [] then None
    else if plans[0].id == id then Some(0)
    else
      var rest := PlanIndex(plans[1..], id);
      assert forall j :: 0 < j < |plans| ==> plans[j] == plans[1..][j - 1];
      if rest.Some? then Some(rest.value + 1) else None
  }

  /** The edited plan, prepared and validated. */
  function EditedPlan(plan: Plan, name: Option<string>, windows: Option<seq<Window>>, now: Time, freshIDs: seq<string>): Result<Plan>
    requires windows.Some? ==> |windows.value| <= |freshIDs|
  {
    var named := if name.Some? then plan.(name := Trim(name.value)) else plan;
    if windows.None? then
      if ValidPlan(named) then Ok(named) else Err("Invalid subscription plan")
    else
      match PreparedTo(windows.value, plan.windows, now, freshIDs, |windows.value|)
      case Err(reason) => Err(reason)
      case Ok(prepared) =>
        var updated := named.(windows := prepared);
        if ValidPlan(updated) then Ok(updated) else Err("Invalid subscription plan")
  }

  /** Keys an update may select: live or already on the plan, and on no other. */
  predicate Selectable(keys: map<string, Key>, planID: string, scopes: seq<string>) {
    forall i :: 0 <= i < |scopes| ==>
      && scopes[i] in keys && (keys[scopes[i]].Live() || keys[scopes[i]].planID == planID)
      && (keys[scopes[i]].planID == "" || keys[scopes[i]].planID == planID)
  }

  function PlanUpdate(s: Snapshot, id: string, name: Option<string>, windows: Option<seq<Window>>, scopes: Option<seq<string>>,
                      now: Time, freshIDs: seq<string>): (r: Result<(nat, Plan)>)
    requires windows.Some? ==> |windows.value| <= |freshIDs|
    ensures r.Ok? ==> r.value.0 < |s.plans| && r.value.1.id == s.plans[r.value.0].id && ValidPlan(r.value.1)
    ensures r.Ok? && windows.None? ==> r.value.1.windows == s.plans[r.value.0].windows
  {
    if Trim(id) == "" then Err("Subscription plan ID is required") else
    match PlanIndex(s.plans, Trim(id))
    case None => Err("Subscription plan does not exist")
    case Some(i) =>
      match EditedPlan(s.plans[i], name, windows, now, freshIDs)
      case Err(reason) => Err(reason)
      case Ok(updated) =>
        if scopes.Some? && !Selectable(s.keys, Trim(id), NormalizeScopes(scopes.value)) then Err("API key cannot be bound")
        else Ok((i, updated))
  }

  function Selection(scopes: Option<seq<string>>): Option<set<string>> {
    if scopes.None? then None else Some(SetOf(NormalizeScopes(scopes.value)))
  }

  function Resets(windows: Option<seq<Window>>, before: Plan, after: Plan): set<string> {
    if windows.None? then {} else ResetWindows(before.windows, after.windows)
  }

  /** UpdatePlanWithBindings. */
  method UpdatePlan(store: S.Store, id: string, name: Option<string>, windows: Option<seq<Window>>, scopes: Option<seq<string>>,
                    now: Time, freshIDs: seq<string>, fails: bool)
    returns (r: Result<Plan>)
    requires store.Valid() && Consistent(store.Memory()) && (windows.Some? ==> |windows.value| <= |freshIDs|)
    modifies store`state, store`dirty, store`unsavedNormal, store`unsavedErrors, store.repo
    ensures store.Valid() && Consistent(store.Memory())
    ensures store.Kept(old(store.Held()), r.Ok?)
    ensures var s := old(store.Memory());
            match PlanUpdate(s, id, name, windows, scopes, now, freshIDs)
            case Err(_) => r.Err? && store.Memory() == s
            case Ok((i, updated)) =>
              if fails then r.Err? && store.Memory() == s
              else r == Ok(updated) &&
                   store.Memory() == PlanUpdated(s, i, updated, Resets(windows, s.plans[i], updated), Selection(scopes))
  {
    hide Consistent, Separate, S.Agrees, S.Covers, KeysOf, Merge, UpdatedKey, ResetWindows, ValidPlan, PreparedTo, Selectable,
         NormalizeScopes, S.Rewritten, GoodPlan, Trim, EditedPlan;
    var s := store.Memory();
    assert forall c :: c in Cells(store.state.keys) ==> c as object != store.repo && c as object != store;
    if Trim(id) == "" { return Err("Subscription plan ID is required"); }
    var index := PlanIndex(s.plans, Trim(id));
    if index.None? { return Err("Subscription plan does not exist"); }
    var before := s.plans[index.value];
    var edited := EditPlan(before, name, windows, now, freshIDs);
    assert store.Memory() == s;
    if edited.Err? { return Err(edited.reason); }
    var updated := edited.value;
    EditedPlanKeepsID(before, name, windows, now, freshIDs);
    var selection := if scopes.None? then [] else NormalizeScopes(scopes.value);
    if scopes.Some? && !Selectable(s.keys, before.id, selection) { return Err("API key cannot be bound"); }
    var reset := Resets(windows, before, updated);
    var selected := Selection(scopes);
    UpdateIsConsistent(s, index.value, updated, windows, selected);
    var f := (scope, key) => UpdatedKey(updated.id, reset, selected, scope, key);
    var changes := NO_CHANGES.(plans := true, allKeys := true);
    EverythingCovered(s, s.plans[index.value := updated], f);
    MergeIsEmpty(store.dirty, changes);
    var ok := store.Edit(s.plans[index.value := updated], s.routes, s.groups, s.access, f, changes, fails);
    if !ok { return Err("Save configuration"); }
    return Ok(updated);
  }

  lemma EverythingCovered(s: Snapshot, plans: seq<Plan>, f: (string, Key) -> Key)
    ensures S.Covers(s, S.Edited(s, plans, s.routes, s.groups, s.access, f), NO_CHANGES.(plans := true, allKeys := true))
  {
  }

  lemma UpdateIsConsistent(s: Snapshot, i: nat, updated: Plan, windows: Option<seq<Window>>, selected: Option<set<string>>)
    requires Consistent(s) && i < |s.plans| && updated.id == s.plans[i].id && ValidPlan(updated)
    requires windows.None? ==> updated.windows == s.plans[i].windows
    ensures Consistent(PlanUpdated(s, i, updated, Resets(windows, s.plans[i], updated), selected))
  {
    hide GoodWindows, PlanUpdated, ValidWindows, Sound;
    ValidIsGood(updated.windows);
    StoredPlanIsNamed(s, i);
    UpdateKeepsConsistent(s, i, updated, Resets(windows, s.plans[i], updated), selected);
  }

  lemma StoredPlanIsNamed(s: Snapshot, i: nat)
    requires Sound(s) && i < |s.plans|
    ensures s.plans[i].id != "" && Trim(s.plans[i].id) == s.plans[i].id
  {
    hide GoodWindows, SoundKey;
    assert s.plans[i] in s.plans;
  }

  lemma EditedPlanKeepsID(plan: Plan, name: Option<string>, windows: Option<seq<Window>>, now: Time, freshIDs: seq<string>)
    requires windows.Some? ==> |windows.value| <= |freshIDs|
    ensures var r := EditedPlan(plan, name, windows, now, freshIDs);
            r.Ok? ==> r.value.id == plan.id && ValidPlan(r.value) && (windows.None? ==> r.value.windows == plan.windows)
  {
    hide PreparedTo, ValidPlan;
  }

  method EditPlan(plan: Plan, name: Option<string>, windows: Option<seq<Window>>, now: Time, freshIDs: seq<string>) returns (r: Result<Plan>)
    requires windows.Some? ==> |windows.value| <= |freshIDs|
    ensures r == EditedPlan(plan, name, windows, now, freshIDs)
  {
    hide PreparedTo, ValidPlan;
    var updated := if name.Some? then plan.(name := Trim(name.value)) else plan;
    if windows.Some? {
      var prepared := PrepareWindows(windows.value, plan.windows, now, freshIDs);
      if prepared.Err? { return Err(prepared.reason); }
      updated := updated.(windows := prepared.value);
    }
    var trouble := ValidatePlan(updated);
    return if trouble.None? then Ok(updated) else Err("Invalid subscription plan");
  }
}
