/**
  Quota admission of internal/billing/enforce.go: settle, look, and start what is missing.
  A refusal names the time from which the same request is admitted again.
 */
module Enforcement {
  import opened Text
  import opened Model
  import opened ChangeSets
  import opened ModelNames
  import opened QuotaCycles
  import opened QuotaState
  import S = Stores

  // ----- Limits -----------------------------------------------------------------------

  /** What a plan may limit. */
  datatype Dimension = Money | Tokens | Requests

  function LimitOf(w: Window, d: Dimension): real {
    match d
    case Money => w.amount
    case Tokens => w.tokenLimit as real
    case Requests => w.requestLimit as real
  }

  function UsedOf(c: Cycle, d: Dimension): real {
    match d
    case Money => c.spent
    case Tokens => c.tokens as real
    case Requests => c.requests as real
  }

  /** Less than each positive limit has been used; a limit of zero or below is none. */
  ghost predicate WithinLimits(w: Window, c: Cycle) {
    forall d :: LimitOf(w, d) > 0.0 ==> UsedOf(c, d) < LimitOf(w, d)
  }

  /** Every live cycle of a window the request concerns is within its limits. */
  ghost predicate AllWithin(cycles: Cycles, windows: seq<Window>, at: Time, scoped: bool, model: string) {
    forall w :: w in windows && Concerns(w, scoped, model) && w.id in cycles && at < cycles[w.id].endAt ==> WithinLimits(w, cycles[w.id])
  }

  /** A request with a resolved model concerns the windows whose scope matches it, any other one those without a scope. */
  ghost predicate Concerns(w: Window, scoped: bool, model: string) {
    if scoped then Matches(w.scope, model) else Unscoped(w.scope)
  }

  lemma ExhaustedMeans(w: Window, c: Cycle)
    ensures Exhausted(w, c) <==> !WithinLimits(w, c)
  {
    assert LimitOf(w, Money) == w.amount && UsedOf(c, Money) == c.spent;
    assert LimitOf(w, Tokens) == w.tokenLimit as real && UsedOf(c, Tokens) == c.tokens as real;
    assert LimitOf(w, Requests) == w.requestLimit as real && UsedOf(c, Requests) == c.requests as real;
  }

  lemma RefusesMeans(cycles: Cycles, windows: seq<Window>, prices: Prices, upstream: string, requested: string, at: Time, scoped: bool)
    ensures Refuses(Settled(cycles, at), Selected(windows, prices, upstream, requested, scoped), scoped) <==>
            !AllWithin(cycles, windows, at, scoped, ResolveBillingModel(prices, upstream, requested))
  {
    hide Exhausted, WithinLimits, Matches, MatchingTo, ResolveBillingModel, Unscoped;
    var live, model := Settled(cycles, at), ResolveBillingModel(prices, upstream, requested);
    var some := Selected(windows, prices, upstream, requested, scoped);
    if Refuses(live, some, scoped) {
      var i :| 0 <= i < |some| && Counts(some[i], scoped) && Blocks(live, some[i]);
      assert some[i] in some;
      ExhaustedMeans(some[i], live[some[i].id]);
    }
    if w :| w in windows && Concerns(w, scoped, model) && w.id in cycles && at < cycles[w.id].endAt && !WithinLimits(w, cycles[w.id]) {
      ExhaustedMeans(w, cycles[w.id]);
      assert w in some;
      var i :| 0 <= i < |some| && some[i] == w;
      assert Counts(some[i], scoped) && Blocks(live, some[i]);
    }
  }

  /** A live cycle that has used as much as a positive limit of a window the request concerns refuses it. */
  lemma ReachedLimitRefuses(cycles: Cycles, windows: seq<Window>, prices: Prices, upstream: string, requested: string, at: Time, scoped: bool,
                            w: Window, d: Dimension)
    requires w in windows && Concerns(w, scoped, ResolveBillingModel(prices, upstream, requested))
    requires w.id in cycles && at < cycles[w.id].endAt && LimitOf(w, d) > 0.0 && UsedOf(cycles[w.id], d) >= LimitOf(w, d)
    ensures Refuses(Settled(cycles, at), Selected(windows, prices, upstream, requested, scoped), scoped)
  {
    hide Refuses, Settled, Selected, Concerns, LimitOf, UsedOf, ResolveBillingModel;
    RefusesMeans(cycles, windows, prices, upstream, requested, at, scoped);
  }

  /** Usage in a dimension that is not limited never matters. */
  lemma UnlimitedIsFree(w: Window, c: Cycle, other: Cycle)
    requires forall d :: LimitOf(w, d) > 0.0 ==> UsedOf(c, d) == UsedOf(other, d)
    ensures Exhausted(w, c) <==> Exhausted(w, other)
  {
    hide Exhausted, LimitOf, UsedOf;
    ExhaustedMeans(w, c);
    ExhaustedMeans(w, other);
  }

  // ----- The quota view ---------------------------------------------------------------

  datatype WindowView = WindowView(id: string, scoped: bool, blocked: bool, startAt: Time, endAt: Time)

  datatype View = View(unlimited: bool, blocked: bool, partiallyBlocked: bool, retryAt: Time, windows: seq<WindowView>)

  const NO_CYCLE := Cycle("", ZERO_TIME, ZERO_TIME, ZERO_TIME, 0.0, 0, 0)

  /** Some positive limit of the window is reached. */
  predicate Exhausted(w: Window, c: Cycle) {
    || (w.amount > 0.0 && c.spent >= w.amount)
    || (w.tokenLimit > 0 && c.tokens >= w.tokenLimit)
    || (w.requestLimit > 0 && c.requests >= w.requestLimit)
  }

  function WindowViewOf(w: Window, c: Cycle): WindowView {
    WindowView(w.id, !Unscoped(w.scope), Exhausted(w, c), c.startAt, c.endAt)
  }

  /** The live cycle, or a preview of the current one for an anchored window. */
  function CycleShown(cycles: Cycles, w: Window, planID: string, now: Time): Cycle
    requires w.period > 0
  {
    var c := if w.id in cycles then cycles[w.id] else NO_CYCLE;
    if c.startAt == ZERO_TIME && Anchored(w) then NewCycle(w, planID, now) else c
  }

  /** A live cycle of the window has reached a limit. */
  predicate Blocks(cycles: Cycles, w: Window) {
    w.id in cycles && Exhausted(w, cycles[w.id])
  }

  /** Windows a decision looks at: all of them, or only the unscoped ones. */
  predicate Counts(w: Window, scoped: bool) {
    scoped || Unscoped(w.scope)
  }

  ghost predicate Refuses(cycles: Cycles, windows: seq<Window>, scoped: bool) {
    exists i :: 0 <= i < |windows| && Counts(windows[i], scoped) && Blocks(cycles, windows[i])
  }

  /** The latest end among the blocking cycles of the first n windows, or the zero time. */
  ghost predicate Latest(cycles: Cycles, windows: seq<Window>, n: nat, scoped: bool, retryAt: Time)
    requires n <= |windows|
  {
    && (forall i :: 0 <= i < n && Counts(windows[i], scoped) && Blocks(cycles, windows[i]) ==> cycles[windows[i].id].endAt <= retryAt)
    && (retryAt != ZERO_TIME ==>
          exists i :: 0 <= i < n && Counts(windows[i], scoped) && Blocks(cycles, windows[i]) && cycles[windows[i].id].endAt == retryAt)
  }

  ghost predicate Started(cycles: Cycles) {
    forall id :: id in cycles ==> cycles[id].startAt != ZERO_TIME
  }

  ghost predicate Shows(v: View, cycles: Cycles, windows: seq<Window>, n: nat)
    requires n <= |windows|
  {
    && |v.windows| == n
    && forall i :: 0 <= i < n ==>
         var item := v.windows[i];
         && item.scoped == !Unscoped(windows[i].scope) && item.blocked == Blocks(cycles, windows[i])
         && (item.blocked ==> item.endAt == cycles[windows[i].id].endAt)
  }

  lemma ShownBlocks(cycles: Cycles, w: Window, planID: string, now: Time)
    requires w.period > 0 && Started(cycles)
    ensures var item := WindowViewOf(w, CycleShown(cycles, w, planID, now));
            && item.blocked == Blocks(cycles, w) && item.scoped == !Unscoped(w.scope)
            && (item.blocked ==> item.endAt == cycles[w.id].endAt) && ShowsCycle(item, cycles, w, now)
  {
    hide StartOf;
    if w.id !in cycles && Anchored(w) { AnchoredContains(w, now); }
  }

  lemma AnchoredContains(w: Window, now: Time)
    requires w.period > 0 && Anchored(w)
    ensures StartOf(w, now) <= now < StartOf(w, now) + w.period * SECOND
  {
    StartIsBoundary(w, now);
    OnePeriod(w, PeriodOf(w, now), now);
  }

  /** The times shown are those of the live cycle, or else of the period now lies in, or else none. */
  ghost predicate ShowsCycle(item: WindowView, cycles: Cycles, w: Window, now: Time) {
    && item.id == w.id
    && (w.id in cycles ==> item.startAt == cycles[w.id].startAt && item.endAt == cycles[w.id].endAt)
    && (w.id !in cycles && w.anchor == ZERO_TIME ==> item.startAt == ZERO_TIME && item.endAt == ZERO_TIME)
    && (w.id !in cycles && w.anchor != ZERO_TIME ==> item.startAt <= now < item.endAt == item.startAt + w.period * SECOND)
  }

  /** quotaView: unscoped windows decide whether the key is blocked. */
  method QuotaView(cycles: Cycles, windows: seq<Window>, planID: string, now: Time) returns (v: View)
    requires PositivePeriods(windows) && Started(cycles)
    ensures Shows(v, cycles, windows, |windows|) && Latest(cycles, windows, |windows|, false, v.retryAt)
    ensures v.blocked <==> Refuses(cycles, windows, false)
    ensures forall i :: 0 <= i < |windows| ==>
              (v.windows[i].blocked <==> windows[i].id in cycles && !WithinLimits(windows[i], cycles[windows[i].id]))
    ensures forall i :: 0 <= i < |windows| ==> ShowsCycle(v.windows[i], cycles, windows[i], now)
    ensures v.unlimited <==> planID == ""
    ensures v.partiallyBlocked <==> exists i :: 0 <= i < |windows| && v.windows[i].blocked && v.windows[i].scoped
  {
    ViewedLimits(cycles, windows);
    hide WithinLimits, Exhausted, CycleShown, WindowViewOf, Blocks, Unscoped, Started, ShowsCycle, Shows, Pictures;
    v := View(planID == "", false, false, ZERO_TIME, []);
    NothingPictured(cycles, windows, now);
    for i := 0 to |windows|
      invariant Pictures(v.windows, v.partiallyBlocked, cycles, windows, i, now) && Latest(cycles, windows, i, false, v.retryAt)
      invariant v.blocked <==> exists j :: 0 <= j < i && Counts(windows[j], false) && Blocks(cycles, windows[j])
      invariant v.unlimited == (planID == "")
    {
      var w := windows[i];
      ShownBlocks(cycles, w, planID, now);
      var item := WindowViewOf(w, CycleShown(cycles, w, planID, now));
      PicturesNext(v.windows, v.partiallyBlocked, item, cycles, windows, i, now);
      if item.blocked && !item.scoped {
        v := v.(blocked := true, retryAt := if item.endAt > v.retryAt then item.endAt else v.retryAt);
      }
      if item.blocked && item.scoped {
        v := v.(partiallyBlocked := true);
      }
      v := v.(windows := v.windows + [item]);
    }
    PicturesMean(v, cycles, windows, now);
  }

  /** The first n windows are shown, and whether a scoped one of them is blocked. */
  ghost predicate Pictures(items: seq<WindowView>, partial: bool, cycles: Cycles, windows: seq<Window>, n: nat, now: Time)
    requires n <= |windows|
  {
    && |items| == n
    && (forall i :: 0 <= i < n ==> Shown(items[i], cycles, windows[i], now))
    && (partial <==> exists i :: 0 <= i < n && items[i].blocked && items[i].scoped)
  }

  ghost predicate Shown(item: WindowView, cycles: Cycles, w: Window, now: Time) {
    && item.scoped == !Unscoped(w.scope) && item.blocked == Blocks(cycles, w)
    && (item.blocked ==> item.endAt == cycles[w.id].endAt) && ShowsCycle(item, cycles, w, now)
  }

  lemma NothingPictured(cycles: Cycles, windows: seq<Window>, now: Time)
    ensures Pictures([], false, cycles, windows, 0, now)
  {
  }

  lemma PicturesNext(items: seq<WindowView>, partial: bool, item: WindowView, cycles: Cycles, windows: seq<Window>, n: nat, now: Time)
    requires n < |windows| && Pictures(items, partial, cycles, windows, n, now) && Shown(item, cycles, windows[n], now)
    ensures Pictures(items + [item], partial || (item.blocked && item.scoped), cycles, windows, n + 1, now)
  {
    hide Shown;
    var more := items + [item];
    assert more[n] == item && forall i :: 0 <= i < n ==> more[i] == items[i];
  }

  lemma PicturesMean(v: View, cycles: Cycles, windows: seq<Window>, now: Time)
    requires Pictures(v.windows, v.partiallyBlocked, cycles, windows, |windows|, now)
    ensures Shows(v, cycles, windows, |windows|)
    ensures forall i :: 0 <= i < |windows| ==> v.windows[i].blocked == Blocks(cycles, windows[i]) && ShowsCycle(v.windows[i], cycles, windows[i], now)
    ensures v.partiallyBlocked <==> exists i :: 0 <= i < |windows| && v.windows[i].blocked && v.windows[i].scoped
  {
    hide ShowsCycle, Blocks, Unscoped;
  }

  lemma ViewedLimits(cycles: Cycles, windows: seq<Window>)
    ensures forall i :: 0 <= i < |windows| ==>
              (Blocks(cycles, windows[i]) <==> windows[i].id in cycles && !WithinLimits(windows[i], cycles[windows[i].id]))
  {
    hide Exhausted, WithinLimits;
    forall i | 0 <= i < |windows| && windows[i].id in cycles
      ensures Exhausted(windows[i], cycles[windows[i].id]) <==> !WithinLimits(windows[i], cycles[windows[i].id])
    {
      ExhaustedMeans(windows[i], cycles[windows[i].id]);
    }
  }

  /** applyMatchedWindows: once the windows are selected by model, every one of them decides. */
  method ApplyMatchedWindows(v: View, ghost cycles: Cycles, ghost windows: seq<Window>) returns (r: View)
    requires Shows(v, cycles, windows, |windows|) && Latest(cycles, windows, |windows|, false, v.retryAt)
    requires v.blocked <==> Refuses(cycles, windows, false)
    ensures Shows(r, cycles, windows, |windows|) && Latest(cycles, windows, |windows|, true, r.retryAt)
    ensures r.blocked <==> Refuses(cycles, windows, true)
    ensures r.windows == v.windows && !r.partiallyBlocked && (r.unlimited <==> windows == [])
  {
    hide Blocks, Unscoped, Latest;
    r := v.(partiallyBlocked := false, unlimited := v.windows == []);
    LatestSoFar(cycles, windows, v.retryAt);
    for i := 0 to |v.windows|
      invariant r.windows == v.windows && !r.partiallyBlocked && (r.unlimited <==> windows == [])
      invariant LatestMixed(cycles, windows, i, r.retryAt)
      invariant r.blocked <==> v.blocked || exists j :: 0 <= j < i && Blocks(cycles, windows[j])
    {
      if v.windows[i].blocked {
        r := r.(blocked := true, retryAt := if v.windows[i].endAt > r.retryAt then v.windows[i].endAt else r.retryAt);
      }
    }
    LatestAll(cycles, windows, r.retryAt);
  }

  /** The latest end over all blocking windows among the first n and the unscoped ones beyond. */
  ghost predicate LatestMixed(cycles: Cycles, windows: seq<Window>, n: nat, retryAt: Time)
    requires n <= |windows|
  {
    && (forall i :: 0 <= i < n && Blocks(cycles, windows[i]) ==> cycles[windows[i].id].endAt <= retryAt)
    && (retryAt != ZERO_TIME ==> exists i :: 0 <= i < |windows| && Blocks(cycles, windows[i]) && cycles[windows[i].id].endAt == retryAt)
  }

  lemma LatestSoFar(cycles: Cycles, windows: seq<Window>, retryAt: Time)
    requires Latest(cycles, windows, |windows|, false, retryAt)
    ensures LatestMixed(cycles, windows, 0, retryAt)
  {
  }

  lemma LatestAll(cycles: Cycles, windows: seq<Window>, retryAt: Time)
    requires LatestMixed(cycles, windows, |windows|, retryAt)
    ensures Latest(cycles, windows, |windows|, true, retryAt)
  {
    hide Blocks;
  }

  // ----- Admitting one key ------------------------------------------------------------

  datatype Verdict = Verdict(allowed: bool, planID: string, unresolved: bool, retryAt: Time)

  const ADMITTED := Verdict(true, "", false, ZERO_TIME)

  method Look(cycles: Cycles, windows: seq<Window>, planID: string, at: Time, scoped: bool) returns (v: View)
    requires PositivePeriods(windows) && Started(cycles)
    ensures v.blocked <==> Refuses(cycles, windows, scoped)
    ensures Latest(cycles, windows, |windows|, scoped, v.retryAt)
  {
    hide Refuses, Latest, Shows, Started;
    v := QuotaView(cycles, windows, planID, at);
    if scoped {
      v := ApplyMatchedWindows(v, cycles, windows);
    }
  }

  /** The key's cycles after a decision at the given time. */
  ghost function Decided(cycles: Cycles, windows: seq<Window>, planID: string, at: Time, scoped: bool): Cycles
    requires PositivePeriods(windows)
  {
    var live := Settled(cycles, at);
    if Refuses(live, windows, scoped) then live else Activated(live, windows, planID, at)
  }

  method AdmitKey(record: KeyState, planID: string, windows: seq<Window>, at: Time, scoped: bool) returns (d: Verdict, changed: bool)
    requires PositivePeriods(windows) && Started(record.key.cycles) && at != ZERO_TIME && FreshStartsAreTimes(windows, at)
    modifies record
    ensures record.key == old(record.key).(cycles := Decided(old(record.key).cycles, windows, planID, at, scoped))
    ensures changed <==> record.key != old(record.key)
    ensures d.planID == planID && !d.unresolved
    ensures d.allowed <==> !Refuses(Settled(old(record.key).cycles, at), windows, scoped)
    ensures !d.allowed ==> Latest(Settled(old(record.key).cycles, at), windows, |windows|, scoped, d.retryAt)
  {
    hide Refuses, Latest, Activated, Settled, Started;
    ghost var was := record.key.cycles;
    var settled := SettleExpired(record, at);
    ghost var live := record.key.cycles;
    SettledIsStarted(was, at);
    var view := Look(record.key.cycles, windows, planID, at, scoped);
    var activated := false;
    if !view.blocked {
      activated := ActivateCycles(record, windows, planID, at);
      ActivatedIsStarted(live, windows, planID, at);
      NothingNewBlocks(live, windows, planID, at, scoped);
      ActivatedDiffers(was, live, windows, planID, at);
      if activated {
        view := Look(record.key.cycles, windows, planID, at, scoped);
      }
    }
    return Verdict(!view.blocked, planID, false, view.retryAt), settled || activated;
  }

  /** A cycle started now would not look like one that never started. */
  ghost predicate FreshStartsAreTimes(windows: seq<Window>, at: Time)
    requires PositivePeriods(windows)
  {
    forall w :: w in windows ==> StartOf(w, at) != ZERO_TIME
  }

  lemma SettledIsStarted(cycles: Cycles, at: Time)
    requires Started(cycles)
    ensures Started(Settled(cycles, at))
  {
  }

  lemma ActivatedIsStarted(cycles: Cycles, windows: seq<Window>, planID: string, at: Time)
    requires PositivePeriods(windows) && Started(cycles) && FreshStartsAreTimes(windows, at)
    ensures Started(Activated(cycles, windows, planID, at))
  {
    hide ActivatedTo, StartOf;
    var r := Activated(cycles, windows, planID, at);
    forall id | id in r
      ensures r[id].startAt != ZERO_TIME
    {
      ActivatedAt(cycles, windows, planID, at, |windows|, id);
      if id !in cycles {
        var i :| 0 <= i < |windows| && windows[i].id == id && r[id] == NewCycle(windows[i], planID, at);
        assert windows[i] in windows;
      }
    }
  }

  /** A cycle with no usage exhausts nothing. */
  lemma FreshIsFree(w: Window, c: Cycle)
    requires c.spent == 0.0 && c.tokens == 0 && c.requests == 0
    ensures !Exhausted(w, c)
  {
  }

  lemma NothingNewBlocks(cycles: Cycles, windows: seq<Window>, planID: string, at: Time, scoped: bool)
    requires PositivePeriods(windows)
    ensures Refuses(Activated(cycles, windows, planID, at), windows, scoped) <==> Refuses(cycles, windows, scoped)
  {
    hide ActivatedTo, StartOf, Exhausted;
    var r := Activated(cycles, windows, planID, at);
    forall i | 0 <= i < |windows|
      ensures Blocks(r, windows[i]) <==> Blocks(cycles, windows[i])
    {
      var id := windows[i].id;
      ActivatedAt(cycles, windows, planID, at, |windows|, id);
      if id in r { FreshIsFree(windows[i], r[id].(spent := 0.0, tokens := 0, requests := 0)); }
      if id in r && id !in cycles {
        FreshIsFree(windows[i], r[id]);
      }
    }
  }

  /** Settling only removes and activating only adds, so together they change something exactly when either does. */
  lemma ActivatedDiffers(was: Cycles, live: Cycles, windows: seq<Window>, planID: string, at: Time)
    requires PositivePeriods(windows) && live == Settled(was, at) && FreshStartsAreTimes(windows, at)
    ensures Activated(live, windows, planID, at) == was <==> live == was && Activated(live, windows, planID, at) == live
  {
    hide ActivatedTo, StartOf;
    var r := Activated(live, windows, planID, at);
    if r == was && live != was {
      var id :| id in was && id !in live;
      ActivatedAt(live, windows, planID, at, |windows|, id);
      var i :| 0 <= i < |windows| && windows[i].id == id && r[id] == NewCycle(windows[i], planID, at);
      AnchoredStart(windows[i], planID, at);
      assert false;
    }
  }

  // ----- What a decision promises -----------------------------------------------------

  /** Admission leaves every matching window with a cycle that is live now. */
  lemma AdmissionStartsAll(cycles: Cycles, windows: seq<Window>, planID: string, at: Time, scoped: bool, i: nat)
    requires PositivePeriods(windows) && i < |windows| && !Refuses(Settled(cycles, at), windows, scoped)
    ensures var r := Decided(cycles, windows, planID, at, scoped);
            windows[i].id in r && at < r[windows[i].id].endAt
  {
    hide ActivatedTo, StartOf, Refuses;
    var live, id := Settled(cycles, at), windows[i].id;
    ActivatedAt(live, windows, planID, at, |windows|, id);
    assert windows[..|windows|] == windows && Covers(windows, id);
    if id !in live {
      var j :| 0 <= j < |windows| && windows[j].id == id && Activated(live, windows, planID, at)[id] == NewCycle(windows[j], planID, at);
      AnchoredStart(windows[j], planID, at);
    }
  }

  /** Usage charged to windows that do not apply to a model never changes that model's decision. */
  lemma OtherWindowsDoNotMatter(cycles: Cycles, planID: string, madeAt: Time, u: Usage, charged: seq<Window>, windows: seq<Window>, at: Time, scoped: bool)
    requires DistinctWindows(charged) && forall w :: w in windows ==> !Covers(charged, w.id)
    ensures Refuses(Settled(Charged(cycles, planID, madeAt, u, charged), at), windows, scoped) <==> Refuses(Settled(cycles, at), windows, scoped)
  {
    hide Exhausted, AddUsage, ChargedTo, Charges, Covers;
    var after := Charged(cycles, planID, madeAt, u, charged);
    assert charged[..|charged|] == charged;
    forall i | 0 <= i < |windows|
      ensures Blocks(Settled(after, at), windows[i]) <==> Blocks(Settled(cycles, at), windows[i])
    {
      assert windows[i] in windows;
      ChargedAt(cycles, planID, madeAt, u, charged, |charged|, windows[i].id);
    }
  }

  /**
    later grew out of live by settling up to the time given and by starting cycles, with no
    usage in between: what is left is unchanged, what is new is empty, what is gone had ended.
   */
  ghost predicate Unused(live: Cycles, later: Cycles, until: Time) {
    && (forall id :: id in later ==>
          (id in live && later[id] == live[id]) || (later[id].spent == 0.0 && later[id].tokens == 0 && later[id].requests == 0))
    && (forall id :: id in live && !(id in later && later[id] == live[id]) ==> live[id].endAt <= until)
  }

  lemma UnusedAtFirst(live: Cycles, until: Time)
    ensures Unused(live, live, until)
  {
  }

  lemma DecidingUsesNothing(live: Cycles, later: Cycles, until: Time, windows: seq<Window>, planID: string, now: Time, scoped: bool)
    requires Unused(live, later, until) && until <= now && PositivePeriods(windows)
    ensures Unused(live, Decided(later, windows, planID, now, scoped), now)
  {
    hide Refuses, ActivatedTo, StartOf;
    var settled := Settled(later, now);
    var r := Activated(settled, windows, planID, now);
    forall id
      ensures id in settled ==> id in r && r[id] == settled[id]
      ensures id in r && id !in settled ==> r[id].spent == 0.0 && r[id].tokens == 0 && r[id].requests == 0
    {
      ActivatedAt(settled, windows, planID, now, |windows|, id);
    }
  }

  /**
    A refusal is exact about its end: without usage in between, the same request is refused
    at every later time before RetryAt and admitted at every time from RetryAt on.
   */
  lemma RetryIsExact(live: Cycles, later: Cycles, windows: seq<Window>, at: Time, until: Time, again: Time, scoped: bool, retryAt: Time)
    requires SaneClock(at) && (forall id :: id in live ==> at < live[id].endAt)
    requires Refuses(live, windows, scoped) && Latest(live, windows, |windows|, scoped, retryAt)
    requires Unused(live, later, until) && at <= until <= again
    ensures Refuses(Settled(later, again), windows, scoped) <==> again < retryAt
  {
    hide Exhausted, Unscoped;
    var i :| 0 <= i < |windows| && Counts(windows[i], scoped) && Blocks(live, windows[i]);
    assert retryAt >= live[windows[i].id].endAt > at;
    if again < retryAt {
      var j :| 0 <= j < |windows| && Counts(windows[j], scoped) && Blocks(live, windows[j]) && live[windows[j].id].endAt == retryAt;
      assert Blocks(Settled(later, again), windows[j]);
    } else {
      forall j | 0 <= j < |windows| && Counts(windows[j], scoped)
        ensures !Blocks(Settled(later, again), windows[j])
      {
        var id := windows[j].id;
        if id in Settled(later, again) {
          if id in live && later[id] == live[id] {
            assert !Blocks(live, windows[j]);
          } else {
            FreshIsFree(windows[j], later[id]);
          }
        }
      }
    }
  }

  // ----- Admission on the store -------------------------------------------------------

  /** What a bound key's admission does to the working set. */
  ghost function AdmittedState(s: Snapshot, scope: string, prices: Prices, upstream: string, requested: string, at: Time, scoped: bool): Snapshot
    requires Sound(s) && scope in s.keys && FindPlan(s.plans, s.keys[scope].planID).Some?
  {
    var key := s.keys[scope];
    var windows := Selected(FindPlan(s.plans, key.planID).value.windows, prices, upstream, requested, scoped);
    WithKey(s, scope, key.(cycles := Decided(key.cycles, windows, key.planID, at, scoped)))
  }

  function Selected(windows: seq<Window>, prices: Prices, upstream: string, requested: string, scoped: bool): (r: seq<Window>)
    ensures forall w :: w in r ==> w in windows
  {
    if scoped then Matching(windows, ResolveBillingModel(prices, upstream, requested)) else windows
  }

  lemma {:induction false} MatchingKeepsDistinct(windows: seq<Window>, model: string, n: nat)
    requires n <= |windows| && DistinctWindows(windows)
    ensures DistinctWindows(MatchingTo(windows, model, n))
    ensures forall w :: w in MatchingTo(windows, model, n) ==> exists i :: 0 <= i < n && windows[i] == w
  {
    hide Matches;
    if n > 0 { MatchingKeepsDistinct(windows, model, n - 1); }
  }

  lemma SelectedAreGood(windows: seq<Window>, prices: Prices, upstream: string, requested: string, scoped: bool)
    requires GoodWindows(windows)
    ensures GoodWindows(Selected(windows, prices, upstream, requested, scoped)) && PositivePeriods(windows)
  {
    hide ResolveBillingModel, Matches;
    MatchingKeepsDistinct(windows, ResolveBillingModel(prices, upstream, requested), |windows|);
  }

  /** Good windows never start a cycle at the zero time. */
  lemma GoodStartsAreTimes(windows: seq<Window>, at: Time)
    requires GoodWindows(windows) && SaneClock(at)
    ensures PositivePeriods(windows) && FreshStartsAreTimes(windows, at)
  {
    hide StartOf;
    forall w | w in windows
      ensures StartOf(w, at) != ZERO_TIME
    {
      NewCycleIsGood("", w, at);
    }
  }

  lemma SoundCyclesStarted(s: Snapshot, scope: string)
    requires Sound(s) && scope in s.keys && FindPlan(s.plans, s.keys[scope].planID).Some?
    ensures Started(s.keys[scope].cycles)
    ensures var plan := FindPlan(s.plans, s.keys[scope].planID).value; plan.id == s.keys[scope].planID && GoodWindows(plan.windows)
  {
    hide FindPlan, WindowOf, GoodWindow;
    assert SoundKey(s.plans, s.keys[scope]);
  }

  lemma AdmittedIsSound(s: Snapshot, scope: string, prices: Prices, upstream: string, requested: string, at: Time, scoped: bool)
    requires Sound(s) && scope in s.keys && FindPlan(s.plans, s.keys[scope].planID).Some? && SaneClock(at)
    ensures Sound(AdmittedState(s, scope, prices, upstream, requested, at, scoped))
  {
    hide FindPlan, WindowOf, GoodWindow, Activated, Refuses, Settled, Selected, GoodCycles;
    var key := s.keys[scope];
    SoundCyclesStarted(s, scope);
    var windows := FindPlan(s.plans, key.planID).value.windows;
    var some := Selected(windows, prices, upstream, requested, scoped);
    SelectedAreGood(windows, prices, upstream, requested, scoped);
    SettlingKeepsGood(key.planID, windows, key.cycles, at);
    ActivatingKeepsGood(key.planID, windows, some, Settled(key.cycles, at), at);
    var after := key.(cycles := Decided(key.cycles, some, key.planID, at, scoped));
    assert SoundKey(s.plans, after);
    SoundWith(s, scope, after);
  }

  lemma AdmittedIsBound(s: Snapshot, scope: string, prices: Prices, upstream: string, requested: string, at: Time, scoped: bool)
    requires Sound(s) && scope in s.keys && FindPlan(s.plans, s.keys[scope].planID).Some?
    ensures Bound(s) ==> Bound(AdmittedState(s, scope, prices, upstream, requested, at, scoped))
  {
    hide FindPlan, Decided, Selected;
  }

  lemma UnboundIsSound(s: Snapshot, scope: string)
    requires Sound(s) && scope in s.keys
    ensures Sound(WithKey(s, scope, Unbound(s.keys[scope])))
  {
    hide GoodPlans;
    assert FindPlan(s.plans, "").None?;
    SoundWith(s, scope, Unbound(s.keys[scope]));
  }

  /**
    authorize. Unbound keys run free; a request whose model stays open is refused without
    any change; otherwise the matching windows decide, and the decision's effect is exactly
    to settle the key and, when admitted, to start what was missing.
   */
  method Authorize(store: S.Store, prices: Prices, scope: string, upstream: string, requested: string, at: Time, scoped: bool, fails: bool)
    returns (d: Verdict)
    requires store.Valid() && Sound(store.Memory()) && SaneClock(at)
    modifies store`dirty, store`unsavedNormal, store`unsavedErrors, store.repo, Cells(store.state.keys)
    ensures store.Valid() && Sound(store.Memory()) && (old(Bound(store.Memory())) ==> Bound(store.Memory()))
    ensures if Trim(scope) == "" then store.Held() == old(store.Held()) else store.Attempted(old(store.Held()), fails)
    ensures var s, name := old(store.Memory()), Trim(scope);
            if name == "" || name !in s.keys || s.keys[name].planID == "" then
              d == ADMITTED && store.Memory() == s
            else
              var found := FindPlan(s.plans, s.keys[name].planID);
              if found.None? then d == ADMITTED && store.Memory() == WithKey(s, name, Unbound(s.keys[name]))
              else if scoped && Unresolvable(found.value.windows, upstream, requested) then
                d == Verdict(false, found.value.id, true, ZERO_TIME) && store.Memory() == s
              else
                var windows := Selected(found.value.windows, prices, upstream, requested, scoped);
                && store.Memory() == AdmittedState(s, name, prices, upstream, requested, at, scoped)
                && d.planID == found.value.id && !d.unresolved
                && (d.allowed <==> !Refuses(Settled(s.keys[name].cycles, at), windows, scoped))
                && (d.allowed <==> AllWithin(s.keys[name].cycles, found.value.windows, at, scoped, ResolveBillingModel(prices, upstream, requested)))
                && (!d.allowed ==> Latest(Settled(s.keys[name].cycles, at), windows, |windows|, scoped, d.retryAt))
  {
    hide S.Store.Attempted, AllWithin, Separate, S.Agrees, S.Covers, KeysOf, Sound, Bound, Trim, Unresolvable, Matching, ResolveBillingModel, Decided, Refuses, Latest, Settled, Started,
         FreshStartsAreTimes, PositivePeriods, GoodWindows;
    var name := Trim(scope);
    ghost var before := store.Memory();
    if name == "" { return ADMITTED; }
    assert forall c :: c in Cells(store.state.keys) ==> c as object != store.repo && c as object != store;
    RecordsAre(store.state.keys);
    S.NothingToCover(before);
    if name !in store.state.keys || store.state.keys[name].key.planID == "" {
      store.FinishUpdate(before, NO_CHANGES, fails);
      return ADMITTED;
    }
    var record := store.state.keys[name];
    S.OthersAreApart(store.state.keys, name);
    var found := FindPlan(store.state.plans, record.key.planID);
    if found.None? {
      UnboundIsSound(before, name);
      if Bound(before) { BoundWith(before, name, Unbound(before.keys[name])); }
      record.key := record.key.(planID := "", cycles := map[]);
      store.FinishKeyUpdate(before, name, true, fails);
      return ADMITTED;
    }
    var plan := found.value;
    if scoped && Unresolvable(plan.windows, upstream, requested) {
      store.FinishUpdate(before, NO_CHANGES, fails);
      return Verdict(false, plan.id, true, ZERO_TIME);
    }
    var windows := plan.windows;
    if scoped {
      windows := ForModel(plan.windows, ResolveBillingModel(prices, upstream, requested));
    }
    assert windows == Selected(plan.windows, prices, upstream, requested, scoped);
    RefusesMeans(record.key.cycles, plan.windows, prices, upstream, requested, at, scoped);
    SoundCyclesStarted(before, name);
    SelectedAreGood(plan.windows, prices, upstream, requested, scoped);
    GoodStartsAreTimes(windows, at);
    AdmittedIsSound(before, name, prices, upstream, requested, at, scoped);
    AdmittedIsBound(before, name, prices, upstream, requested, at, scoped);
    var changed;
    d, changed := AdmitKey(record, plan.id, windows, at, scoped);
    store.FinishKeyUpdate(before, name, changed, fails);
  }

  lemma RecordsAre(keys: map<string, KeyState>)
    ensures forall scope :: scope in keys ==> KeysOf(keys)[scope] == keys[scope].key
  {
  }

  // ----- Retrying after a refusal -----------------------------------------------------

  /** Another admission asked for by the same key, for whatever model. */
  datatype Attempt = Attempt(upstream: string, requested: string, at: Time, scoped: bool, fails: bool)

  /** The key has the plan, and since its cycles were live it has been settled and admitted but not charged. */
  ghost predicate Waiting(s: Snapshot, name: string, plan: Plan, live: Cycles, until: Time) {
    && name != "" && name in s.keys && s.keys[name].planID != "" && FindPlan(s.plans, s.keys[name].planID) == Some(plan)
    && GoodWindows(plan.windows) && Unused(live, s.keys[name].cycles, until)
  }

  /** One more admission of a waiting key leaves it waiting, and its verdict is decided by what is left. */
  method TryOnce(store: S.Store, prices: Prices, scope: string, a: Attempt, ghost plan: Plan, ghost live: Cycles, ghost until: Time)
    returns (d: Verdict)
    requires store.Valid() && Sound(store.Memory()) && SaneClock(a.at) && until <= a.at
    requires Waiting(store.Memory(), Trim(scope), plan, live, until)
    modifies store`dirty, store`unsavedNormal, store`unsavedErrors, store.repo, Cells(store.state.keys)
    ensures store.Valid() && Sound(store.Memory()) && Waiting(store.Memory(), Trim(scope), plan, live, a.at)
    ensures if a.scoped && Unresolvable(plan.windows, a.upstream, a.requested) then !d.allowed && d.unresolved
            else
              var windows := Selected(plan.windows, prices, a.upstream, a.requested, a.scoped);
              var was := old(store.Memory()).keys[Trim(scope)].cycles;
              && !d.unresolved && (d.allowed <==> !Refuses(Settled(was, a.at), windows, a.scoped))
              && (!d.allowed ==> Latest(Settled(was, a.at), windows, |windows|, a.scoped, d.retryAt))
              && (!d.allowed ==> store.Memory().keys[Trim(scope)].cycles == Settled(was, a.at))
  {
    hide Sound, Trim, Unresolvable, Selected, Refuses, Latest, Settled, GoodWindows, S.Store.Valid, S.Store.Attempted, KeysOf;
    ghost var name, was := Trim(scope), store.Memory().keys[Trim(scope)].cycles;
    ghost var windows := Selected(plan.windows, prices, a.upstream, a.requested, a.scoped);
    SelectedAreGood(plan.windows, prices, a.upstream, a.requested, a.scoped);
    assert PositivePeriods(windows) by { PositiveWithin(plan.windows, windows); }
    UnusedLater(live, was, until, a.at);
    DecidingUsesNothing(live, was, until, windows, store.Memory().keys[name].planID, a.at, a.scoped);
    d := Authorize(store, prices, scope, a.upstream, a.requested, a.at, a.scoped, a.fails);
  }

  lemma PositiveWithin(windows: seq<Window>, some: seq<Window>)
    requires GoodWindows(windows) && forall w :: w in some ==> w in windows
    ensures PositivePeriods(some)
  {
  }

  lemma UnusedLater(live: Cycles, later: Cycles, until: Time, now: Time)
    requires Unused(live, later, until) && until <= now
    ensures Unused(live, later, now)
  {
  }

  /** Later attempts at times that do not run backwards. */
  predicate InOrder(others: seq<Attempt>, at: Time, again: Time) {
    && (forall i :: 0 <= i < |others| ==> at <= others[i].at <= again)
    && forall i, j :: 0 <= i < j < |others| ==> others[i].at <= others[j].at
  }

  /**
    A refused request that is made again, after any other admissions of the key but without
    usage in between, is refused before the retry time of the first refusal and admitted
    from it on.
   */
  method RetryAfterRefusal(store: S.Store, prices: Prices, scope: string, request: Attempt, others: seq<Attempt>, again: Time)
    returns (first: Verdict, second: Verdict)
    requires store.Valid() && Sound(store.Memory()) && Bound(store.Memory())
    requires SaneClock(request.at) && request.at <= again && InOrder(others, request.at, again)
    modifies store`dirty, store`unsavedNormal, store`unsavedErrors, store.repo, Cells(store.state.keys)
    ensures store.Valid() && Sound(store.Memory())
    ensures !first.allowed && !first.unresolved ==> (second.allowed <==> first.retryAt <= again)
    ensures first.unresolved ==> second.unresolved
  {
    hide Sound, Trim, Unresolvable, Selected, Refuses, Latest, S.Store.Valid, S.Store.Attempted, KeysOf, Settled, Waiting, Unused, FindPlan, InOrder, Bound;
    var name := Trim(scope);
    ghost var s := store.Memory();
    RecordsAre(store.state.keys);
    if name == "" || name !in store.state.keys || store.state.keys[name].key.planID == "" {
      first := Authorize(store, prices, scope, request.upstream, request.requested, request.at, request.scoped, request.fails);
      second := Authorize(store, prices, scope, request.upstream, request.requested, again, request.scoped, request.fails);
      return;
    }
    NowWaiting(s, name, request.at);
    ghost var plan := FindPlan(s.plans, s.keys[name].planID).value;
    first := TryOnce(store, prices, scope, request, plan, s.keys[name].cycles, request.at);
    ghost var live := store.Memory().keys[name].cycles;
    StillWaiting(store.Memory(), name, plan, s.keys[name].cycles, request.at);
    ghost var until := KeepTrying(store, prices, scope, others, plan, live, request.at, again);
    WaitingHasKey(store.Memory(), name, plan, live, until);
    ghost var later := store.Memory().keys[name].cycles;
    second := TryOnce(store, prices, scope, request.(at := again), plan, live, until);
    if !first.allowed && !first.unresolved {
      ghost var windows := Selected(plan.windows, prices, request.upstream, request.requested, request.scoped);
      SettledAreLive(s.keys[name].cycles, request.at);
      RetryIsExact(live, later, windows, request.at, until, again, request.scoped, first.retryAt);
    }
  }

  method KeepTrying(store: S.Store, prices: Prices, scope: string, others: seq<Attempt>, ghost plan: Plan, ghost live: Cycles,
                    ghost start: Time, again: Time)
    returns (ghost until: Time)
    requires store.Valid() && Sound(store.Memory()) && Waiting(store.Memory(), Trim(scope), plan, live, start)
    requires SaneClock(start) && start <= again && InOrder(others, start, again)
    modifies store`dirty, store`unsavedNormal, store`unsavedErrors, store.repo, Cells(store.state.keys)
    ensures store.Valid() && Sound(store.Memory()) && Waiting(store.Memory(), Trim(scope), plan, live, until)
    ensures start <= until <= again
  {
    hide Sound, Trim, Unresolvable, Selected, Refuses, Latest, S.Store.Valid, S.Store.Attempted, KeysOf, Settled, Waiting, S.Store.Memory;
    until := start;
    for i := 0 to |others|
      invariant store.Valid() && Sound(store.Memory()) && Waiting(store.Memory(), Trim(scope), plan, live, until)
      invariant start <= until <= again && (i < |others| ==> until <= others[i].at)
    {
      var _ := TryOnce(store, prices, scope, others[i], plan, live, until);
      until := others[i].at;
    }
  }

  lemma NowWaiting(s: Snapshot, name: string, at: Time)
    requires Sound(s) && Bound(s) && name != "" && name in s.keys && s.keys[name].planID != ""
    ensures FindPlan(s.plans, s.keys[name].planID).Some?
    ensures Waiting(s, name, FindPlan(s.plans, s.keys[name].planID).value, s.keys[name].cycles, at)
  {
    hide GoodWindows, FindPlan;
    SoundCyclesStarted(s, name);
    UnusedAtFirst(s.keys[name].cycles, at);
  }

  lemma StillWaiting(s: Snapshot, name: string, plan: Plan, was: Cycles, at: Time)
    requires Waiting(s, name, plan, was, at)
    ensures Waiting(s, name, plan, s.keys[name].cycles, at)
  {
    hide GoodWindows, FindPlan;
  }

  lemma WaitingHasKey(s: Snapshot, name: string, plan: Plan, live: Cycles, until: Time)
    requires Waiting(s, name, plan, live, until)
    ensures name in s.keys && Unused(live, s.keys[name].cycles, until)
  {
    hide GoodWindows, FindPlan, Unused;
  }

  lemma SettledAreLive(cycles: Cycles, at: Time)
    ensures forall id :: id in Settled(cycles, at) ==> at < Settled(cycles, at)[id].endAt
  {
  }
}
