/**
  Plans and the keys bound to them: what ValidateCycles of internal/billing/quota.go accepts,
  stated for a whole working set.
 */
module QuotaState {
  import opened Text
  import opened Model
  import opened ModelNames
  import opened QuotaCycles

  function FindPlan(plans: seq<Plan>, id: string): (r: Option<Plan>)
    ensures r.Some? ==> r.value in plans && r.value.id == Trim(id) != ""
    ensures r.None? <==> Trim(id) == "" || forall plan :: plan in plans ==> plan.id != Trim(id)
  {
    if plans == [] then None
    else if plans[0].id == Trim(id) && Trim(id) != "" then Some(plans[0])
    else FindPlan(plans[1..], id)
  }

  predicate GoodPlan(plan: Plan) {
    plan.id != "" && Trim(plan.id) == plan.id && GoodWindows(plan.windows)
  }

  ghost predicate GoodPlans(plans: seq<Plan>) {
    && (forall plan :: plan in plans ==> GoodPlan(plan))
    && (forall i, j :: 0 <= i < j < |plans| ==> plans[i].id != plans[j].id)
  }

  /** A key bound to an existing plan holds only cycles ValidateCycles accepts; an unbound one holds none. */
  ghost predicate SoundKey(plans: seq<Plan>, key: Key)
    requires GoodPlans(plans)
  {
    && (key.planID == "" ==> key.cycles == map[])
    && (FindPlan(plans, key.planID).Some? ==>
          var plan := FindPlan(plans, key.planID).value;
          && key.planID == plan.id && PositivePeriods(plan.windows)
          && GoodCycles(plan.id, plan.windows, key.cycles))
  }

  ghost predicate Sound(s: Snapshot) {
    GoodPlans(s.plans) && forall scope :: scope in s.keys ==> SoundKey(s.plans, s.keys[scope])
  }

  /** Every bound key's plan exists. */
  ghost predicate Bound(s: Snapshot) {
    forall scope :: scope in s.keys && s.keys[scope].planID != "" ==> FindPlan(s.plans, s.keys[scope].planID).Some?
  }

  /** Every key's plan exists and its cycles are valid: what ValidateCycles asks of every loaded key. */
  ghost predicate Consistent(s: Snapshot) {
    Sound(s) && Bound(s)
  }

  /** The key without a plan, hence without cycles. */
  function Unbound(key: Key): Key {
    key.(planID := "", cycles := map[])
  }

  ghost function WithKey(s: Snapshot, scope: string, key: Key): Snapshot {
    s.(keys := s.keys[scope := key])
  }

  lemma SoundWith(s: Snapshot, scope: string, key: Key)
    requires Sound(s) && SoundKey(s.plans, key)
    ensures Sound(WithKey(s, scope, key))
  {
    hide SoundKey, GoodPlans;
  }

  lemma BoundWith(s: Snapshot, scope: string, key: Key)
    requires Bound(s) && (key.planID == "" || FindPlan(s.plans, key.planID).Some?)
    ensures Bound(WithKey(s, scope, key))
  {
    hide FindPlan;
  }

  lemma {:induction false} FindFirst(plans: seq<Plan>, i: nat)
    requires GoodPlans(plans) && i < |plans|
    ensures FindPlan(plans, plans[i].id) == Some(plans[i])
  {
    hide GoodWindows;
    assert plans[i] in plans && plans[0] in plans;
    if i > 0 {
      assert forall p :: p in plans[1..] ==> p in plans;
      FindFirst(plans[1..], i - 1);
    }
  }
}
