/**
  recordUsage of internal/billing/account.go: what one usage record charges, to which cycles,
  and what it announces to the database.
 */
module UsageRecords {
  import opened Text
  import opened Model
  import opened ChangeSets
  import opened ModelNames
  import opened QuotaCycles
  import opened QuotaState
  import E = Enforcement
  import S = Stores

  const UNKNOWN_PREVIEW := "unknown"

  const EVENT_RETENTION: int := 365 * 24 * 3600 * SECOND

  /** A reported use: the client's and the upstream's model, when it was asked for, and what it cost. */
  datatype UsageEvent = UsageEvent(
    scope: string, preview: string, upstream: string, route: string,
    requestedAt: Time, at: Time, cost: real, failed: bool, countable: bool, totalTokens: int)
  {
    /** Failures cost no request; tokens count only when their breakdown adds up. */
    function Usage(): Usage {
      QuotaCycles.Usage(cost, if countable then totalTokens else 0, if failed then 0 else 1)
    }

    function EntryAt(): Time {
      if requestedAt == ZERO_TIME then at else requestedAt
    }
  }

  predicate Plausible(e: UsageEvent) {
    e.cost >= 0.0 && 0 <= e.totalTokens <= MAX_INT64
  }

  const NEW_BINDINGS := Bindings([], false, EMPTY_RULE)

  function PreviewOf(preview: string): string {
    if Trim(preview) == "" then UNKNOWN_PREVIEW else Trim(preview)
  }

  /** ensureKey: traffic from an unknown scope creates its record; a better preview replaces a worse one. */
  function Ensured(keys: map<string, Key>, scope: string, preview: string): Key {
    var shown := PreviewOf(preview);
    if scope !in keys then Key(shown, false, ZERO_TIME, "", 0, NEW_BINDINGS, [], map[])
    else
      var key := keys[scope];
      if key.preview == "" || (shown != UNKNOWN_PREVIEW && key.preview != shown) then key.(preview := shown) else key
  }

  function UsedKey(plans: seq<Plan>, key: Key, model: string, e: UsageEvent): Key {
    match FindPlan(plans, key.planID)
    case None => key
    case Some(plan) =>
      key.(cycles := Settled(Charged(key.cycles, key.planID, e.requestedAt, e.Usage(), Matching(plan.windows, model)), e.at))
  }

  /** The working set after a use billed as the given model. */
  ghost function UsedState(s: Snapshot, model: string, e: UsageEvent): Snapshot {
    var scope := Trim(e.scope);
    if scope == "" then s else WithKey(s, scope, UsedKey(s.plans, Ensured(s.keys, scope, e.preview), model, e))
  }

  // ----- What a use is charged, in the event's own terms --------------------------------

  /** What the event adds to a counter: its cost, its tokens if they are reliable, one request if it succeeded. */
  function Reported(e: UsageEvent, d: E.Dimension): real {
    match d
    case Money => e.cost
    case Tokens => if e.countable then e.totalTokens as real else 0.0
    case Requests => if e.failed then 0.0 else 1.0
  }

  function CapOf(d: E.Dimension): real {
    match d
    case Money => MAX_FLOAT64
    case Tokens => MAX_INT64 as real
    case Requests => MAX_INT64 as real
  }

  function Least(a: real, b: real): real {
    if a < b then a else b
  }

  /** The use belongs to the cycle: a window of the plan that matches its model started it, and it was requested during it. */
  ghost predicate Belongs(plan: Plan, id: string, c: Cycle, model: string, e: UsageEvent) {
    && (exists w :: w in plan.windows && w.id == id && Matches(w.scope, model))
    && c.planID == plan.id && e.requestedAt != ZERO_TIME
    && c.startAt <= e.requestedAt && c.usageSince <= e.requestedAt && e.requestedAt < c.endAt
  }

  /** The counters have grown by what the event reports, each up to its cap, and nothing else has changed. */
  ghost predicate Grown(before: Cycle, after: Cycle, e: UsageEvent) {
    && (forall d :: E.UsedOf(after, d) == Least(E.UsedOf(before, d) + Reported(e, d), CapOf(d)))
    && after.(spent := before.spent, tokens := before.tokens, requests := before.requests) == before
  }

  /** Of a plan's cycles, those still live at the event's time stay, grown if the use belongs to them. */
  ghost predicate CyclesGrown(plan: Plan, before: Cycles, after: Cycles, model: string, e: UsageEvent) {
    && (forall id :: id in after <==> id in before && e.at < before[id].endAt)
    && forall id :: id in after ==> if Belongs(plan, id, before[id], model, e) then Grown(before[id], after[id], e) else after[id] == before[id]
  }

  lemma UsageGrows(c: Cycle, e: UsageEvent)
    ensures Grown(c, AddUsage(c, e.Usage()), e)
  {
    var after := AddUsage(c, e.Usage());
    forall d
      ensures E.UsedOf(after, d) == Least(E.UsedOf(c, d) + Reported(e, d), CapOf(d))
    {
      match d
      case Money =>
      case Tokens =>
      case Requests =>
    }
  }

  lemma UseGrowsOne(plan: Plan, cycles: Cycles, model: string, e: UsageEvent, id: string)
    requires DistinctWindows(plan.windows) && plan.id != ""
    ensures var charged := Charged(cycles, plan.id, e.requestedAt, e.Usage(), Matching(plan.windows, model));
            && (id in charged <==> id in cycles)
            && (id in charged ==>
                  && charged[id].endAt == cycles[id].endAt
                  && if Belongs(plan, id, cycles[id], model, e) then Grown(cycles[id], charged[id], e) else charged[id] == cycles[id])
  {
    hide Grown, AddUsage, Matches, ChargedTo, Matching;
    var some := Matching(plan.windows, model);
    assert some[..|some|] == some;
    assert DistinctWindows(some) by { MatchingIs(plan.windows, model); E.MatchingKeepsDistinct(plan.windows, model, |plan.windows|); }
    ChargedAt(cycles, plan.id, e.requestedAt, e.Usage(), some, |some|, id);
    MatchingListed(plan.windows, model, id);
    if id in cycles {
      UsageGrows(cycles[id], e);
      KeepsEnd(cycles[id], e.Usage());
    }
  }

  lemma MatchingIs(windows: seq<Window>, model: string)
    ensures Matching(windows, model) == MatchingTo(windows, model, |windows|)
  {
  }

  lemma MatchingListed(windows: seq<Window>, model: string, id: string)
    ensures Covers(Matching(windows, model), id) <==> exists w :: w in windows && w.id == id && Matches(w.scope, model)
  {
    hide Matches;
    var some := Matching(windows, model);
    if Covers(some, id) {
      var i :| 0 <= i < |some| && some[i].id == id;
      assert some[i] in some;
    }
    if w :| w in windows && w.id == id && Matches(w.scope, model) {
      assert w in some;
      var i :| 0 <= i < |some| && some[i] == w;
      assert some[i].id == id;
    }
  }

  lemma UseGrowsCycles(plan: Plan, cycles: Cycles, model: string, e: UsageEvent)
    requires DistinctWindows(plan.windows) && plan.id != ""
    ensures CyclesGrown(plan, cycles, Settled(Charged(cycles, plan.id, e.requestedAt, e.Usage(), Matching(plan.windows, model)), e.at), model, e)
  {
    hide Grown, Belongs, Charged, Matching, DistinctWindows;
    forall id {
      UseGrowsOne(plan, cycles, model, e, id);
    }
  }

  lemma KeepsEnd(c: Cycle, u: Usage)
    ensures AddUsage(c, u).endAt == c.endAt
  {
  }

  /** A key is shown by the preview reported with it; without one, by what it had, or as unknown. */
  ghost predicate Labelled(before: Option<string>, reported: string, after: string) {
    if Trim(reported) != "" && Trim(reported) != "unknown" then after == Trim(reported)
    else after == if before.Some? && before.value != "" then before.value else "unknown"
  }

  /** What recording a use leaves: its key's cycles grown by the event's own fields, and every other key as it was. */
  ghost predicate UseCharged(s: Snapshot, t: Snapshot, model: string, e: UsageEvent) {
    var scope := Trim(e.scope);
    && t == s.(keys := t.keys) && t.keys.Keys == s.keys.Keys + (if scope == "" then {} else {scope})
    && (forall other :: other in s.keys && other != scope ==> t.keys[other] == s.keys[other])
    && (scope in s.keys && scope != "" ==> t.keys[scope] == s.keys[scope].(preview := t.keys[scope].preview, cycles := t.keys[scope].cycles))
    && (scope !in s.keys && scope != "" ==>
          t.keys[scope] == Key(t.keys[scope].preview, false, ZERO_TIME, "", 0, Bindings([], false, RouteRule([], [], [], [], [], [])), [], map[]))
    && (scope != "" ==> Labelled(if scope in s.keys then Some(s.keys[scope].preview) else None, e.preview, t.keys[scope].preview))
    && (scope != "" ==>
          var plan := if scope in s.keys then FindPlan(s.plans, s.keys[scope].planID) else None;
          if plan.Some? then CyclesGrown(plan.value, s.keys[scope].cycles, t.keys[scope].cycles, model, e)
          else t.keys[scope].cycles == if scope in s.keys then s.keys[scope].cycles else map[])
  }

  /** The record a use is charged to: the key's own, or a new one without plan, bindings and groups. */
  lemma EnsuredMeans(keys: map<string, Key>, scope: string, preview: string)
    ensures var key := Ensured(keys, scope, preview);
            && Labelled(if scope in keys then Some(keys[scope].preview) else None, preview, key.preview)
            && (scope in keys ==> key == keys[scope].(preview := key.preview))
            && (scope !in keys ==> key == Key(key.preview, false, ZERO_TIME, "", 0, Bindings([], false, RouteRule([], [], [], [], [], [])), [], map[]))
  {
    hide Trim;
  }

  lemma UsedIsCharged(s: Snapshot, model: string, e: UsageEvent)
    requires Sound(s)
    ensures UseCharged(s, UsedState(s, model, e), model, e)
  {
    hide Charged, Settled, Matching, CyclesGrown, Trim, GoodCycles, GoodWindow, Ensured, Labelled;
    if Trim(e.scope) != "" { EnsuredMeans(s.keys, Trim(e.scope), e.preview); }
    var scope := Trim(e.scope);
    if scope != "" {
      NoPlanWithoutName(s.plans);
      if scope in s.keys && FindPlan(s.plans, s.keys[scope].planID).Some? {
        assert SoundKey(s.plans, s.keys[scope]);
        UseGrowsCycles(FindPlan(s.plans, s.keys[scope].planID).value, s.keys[scope].cycles, model, e);
      }
    }
  }

  function Announced(e: UsageEvent, model: string): Changes {
    var scope := Trim(e.scope);
    var entry := Event(e.EntryAt(), scope, model);
    NO_CHANGES.(keys := if scope == "" then [] else [scope],
                normal := if e.failed then [] else [entry],
                errors := if e.failed then [entry] else [],
                cutoff := e.at - EVENT_RETENTION)
  }

  /** What the event is logged as: at the time it was requested, or when that is not known, finished. */
  ghost function Entry(e: UsageEvent, model: string): Event {
    Event(if e.requestedAt == ZERO_TIME then e.at else e.requestedAt, Trim(e.scope), model)
  }

  /**
    A save that works writes the event to the log it belongs to, unless it is older than a
    year or than a cutoff that was waiting; after one that fails the event's key and its year
    wait with whatever waited before, and the disk is as it was.
   */
  ghost predicate Recorded(was: S.Books, now: S.Books, e: UsageEvent, model: string, fails: bool) {
    var entry, yearBefore := Entry(e, model), e.at - 365 * 24 * 60 * 60 * SECOND;
    if !fails then
      && now.dirty == NO_CHANGES
      && (yearBefore <= entry.at && was.dirty.cutoff <= entry.at ==> entry in if e.failed then now.errors else now.normal)
    else
      && now.dirty != NO_CHANGES && now.saved == was.saved && now.normal == was.normal && now.errors == was.errors
      && (yearBefore >= ZERO_TIME ==> now.dirty.cutoff == if yearBefore < was.dirty.cutoff then was.dirty.cutoff else yearBefore)
      && (Trim(e.scope) != "" ==> now.dirty.Touches(Trim(e.scope)))
      && (if e.failed then entry in now.dirty.errors else entry in now.dirty.normal)
  }

  lemma LastIsKept(events: seq<Event>, entry: Event)
    ensures entry in LastOf(events + [entry], 1000)
  {
    assert (events + [entry])[|events|] == entry;
  }

  lemma PrunedHas(log: seq<Event>, queue: seq<Event>, cutoff: Time, entry: Event)
    requires entry in queue && (cutoff == ZERO_TIME || cutoff <= entry.at)
    ensures entry in S.Pruned(log + queue, cutoff)
  {
    hide S.Pruned;
    assert multiset(S.Pruned(log + queue, cutoff))[entry] == multiset(log + queue)[entry];
  }

  lemma UseIsRecorded(was: S.Books, mem: Snapshot, e: UsageEvent, model: string, fails: bool)
    ensures Recorded(was, was.After(mem, Announced(e, model), fails), e, model, fails)
    ensures !fails ==> was.After(mem, Announced(e, model), fails).saved == mem
  {
    hide Trim, LastOf, Deduped, Merge, S.Pruned;
    var c, entry := Announced(e, model), Entry(e, model);
    MergeCutoff(was.dirty, c);
    MergeAnnounces(was.dirty, c);
    MergeQueues(was.dirty, c);
    LastIsKept(if e.failed then was.dirty.errors else was.dirty.normal, entry);
    var all := Merge(was.dirty, c);
    if !fails && all.cutoff <= entry.at {
      PrunedHas(if e.failed then was.errors else was.normal, if e.failed then all.errors else all.normal, all.cutoff, entry);
    }
    assert Trim(e.scope) != "" ==> c.Touches(Trim(e.scope));
  }

  lemma EnsuredIsSound(s: Snapshot, scope: string, preview: string)
    requires Sound(s)
    ensures SoundKey(s.plans, Ensured(s.keys, scope, preview))
  {
    hide GoodPlans, GoodCycles, Trim, PreviewOf;
    if scope in s.keys {
      assert SoundKey(s.plans, s.keys[scope]);
    } else {
      NoPlanWithoutName(s.plans);
    }
  }

  lemma NoPlanWithoutName(plans: seq<Plan>)
    ensures FindPlan(plans, "").None?
  {
    assert Trim("") == "";
  }

  lemma UsedIsSound(s: Snapshot, model: string, e: UsageEvent)
    requires Sound(s) && Plausible(e)
    ensures Sound(UsedState(s, model, e))
  {
    hide GoodCycles, Charged, Settled, Matches, Ensured, Sound, GoodWindow;
    var scope := Trim(e.scope);
    if scope != "" {
      var key := Ensured(s.keys, scope, e.preview);
      EnsuredIsSound(s, scope, e.preview);
      SoundHasGoodPlans(s);
      var found := FindPlan(s.plans, key.planID);
      if found.Some? {
        var windows := found.value.windows;
        var some := Matching(windows, model);
        E.MatchingKeepsDistinct(windows, model, |windows|);
        ChargingAllKeepsGood(key.planID, windows, some, key.cycles, e.requestedAt, e.Usage());
        SettlingKeepsGood(key.planID, windows, Charged(key.cycles, key.planID, e.requestedAt, e.Usage(), some), e.at);
      }
      SoundWith(s, scope, UsedKey(s.plans, key, model, e));
    }
  }

  lemma UsedIsBound(s: Snapshot, model: string, e: UsageEvent)
    ensures Bound(s) ==> Bound(UsedState(s, model, e))
  {
    hide FindPlan, Trim, PreviewOf;
  }

  lemma SoundHasGoodPlans(s: Snapshot)
    requires Sound(s)
    ensures GoodPlans(s.plans)
  {
  }

  /** Naming the scope covers both a changed and a newly created record. */
  lemma UseIsCovered(s: Snapshot, model: string, e: UsageEvent)
    ensures S.Covers(s, UsedState(s, model, e), Announced(e, model))
  {
    hide UsedKey, Ensured, Trim;
  }

  /**
    recordUsage. Whatever becomes of the save, memory has charged the matching live cycles
    and the event is queued until a save takes it.
   */
  method RecordUsage(store: S.Store, prices: Prices, e: UsageEvent, fails: bool)
    requires store.Valid() && Sound(store.Memory()) && Plausible(e)
    modifies store, store.repo, Cells(store.state.keys)
    ensures store.Valid() && Sound(store.Memory()) && (old(Bound(store.Memory())) ==> Bound(store.Memory()))
    ensures store.Memory() == UsedState(old(store.Memory()), ResolveBillingModel(prices, e.upstream, e.route), e)
    ensures UseCharged(old(store.Memory()), store.Memory(), ResolveBillingModel(prices, e.upstream, e.route), e)
    ensures Recorded(old(store.Held()), store.Held(), e, ResolveBillingModel(prices, e.upstream, e.route), fails)
    ensures if fails then store.repo.saved == old(store.repo.saved) else store.repo.saved == store.Memory()
    ensures fails ==>
              var entry := Entry(e, ResolveBillingModel(prices, e.upstream, e.route));
              && store.unsavedNormal == old(store.unsavedNormal) + (if e.failed then [] else [entry])
              && store.unsavedErrors == old(store.unsavedErrors) + (if e.failed then [entry] else [])
  {
    hide Separate, S.Agrees, S.Covers, KeysOf, Sound, Bound, Trim, Matching, ResolveBillingModel, Merge, Charged, Settled, Ensured;
    var model := ResolveBillingModel(prices, e.upstream, e.route);
    var scope := Trim(e.scope);
    ghost var before := store.Memory();
    UsedIsSound(before, model, e);
    UsedIsBound(before, model, e);
    UsedIsCharged(before, model, e);
    ghost var books := store.Held();
    hide UseCharged, Announced, Recorded, S.Books.After, Entry;
    UseIsCovered(before, model, e);
    if scope != "" {
      ChargeScope(store, scope, model, e);
    }
    store.FinishUpdate(before, Announced(e, model), fails);
    UseIsRecorded(books, store.Memory(), e, model, fails);
  }

  /** The closure's effect on the live records, before anything is saved. */
  method ChargeScope(store: S.Store, scope: string, model: string, e: UsageEvent)
    requires store.Valid() && scope != "" && Trim(e.scope) == scope
    modifies store`state, Cells(store.state.keys)
    ensures Separate(store.state.keys) && store.Queued()
    ensures store.Memory() == UsedState(old(store.Memory()), model, e)
  {
    hide S.Agrees, KeysOf, Trim, Matching, Charged, Settled, PreviewOf;
    ghost var before := store.Memory();
    assert forall c :: c in Cells(store.state.keys) ==> c as object != store.repo && c as object != store;
    E.RecordsAre(store.state.keys);
    var shown := PreviewOf(e.preview);
    if scope !in store.state.keys {
      var fresh' := new KeyState(Key(shown, false, ZERO_TIME, "", 0, NEW_BINDINGS, [], map[]));
      store.state := store.state.(keys := store.state.keys[scope := fresh']);
    } else {
      var known := store.state.keys[scope];
      if known.key.preview == "" || (shown != UNKNOWN_PREVIEW && known.key.preview != shown) {
        known.key := known.key.(preview := shown);
      }
    }
    var record := store.state.keys[scope];
    S.OthersAreApart(store.state.keys, scope);
    var found := FindPlan(store.state.plans, record.key.planID);
    if found.Some? {
      var matched := ForModel(found.value.windows, model);
      ChargeCycles(record, e.requestedAt, e.Usage(), matched);
      var _ := SettleExpired(record, e.at);
    }
    PutRecord(store.state.keys, before.keys, scope);
  }

  lemma PutRecord(keys: map<string, KeyState>, before: map<string, Key>, scope: string)
    requires scope in keys && keys.Keys == before.Keys + {scope}
    requires forall other :: other in keys && other != scope ==> keys[other].key == before[other]
    ensures KeysOf(keys) == before[scope := keys[scope].key]
  {
  }
}
