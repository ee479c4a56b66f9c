/**
  The quota cycle engine of internal/billing/quota.go: when a cycle starts and ends, when it
  expires, what activates it and what is charged to it.
 */
module QuotaCycles {
  import opened Text
  import opened Model
  import opened ModelNames

  const MAX_INT64: int := 0x7FFF_FFFF_FFFF_FFFF

  /** The largest finite float64: money saturates there instead of overflowing. */
  const MAX_FLOAT64: real := 179769313486231570814527423731704356798070567525844996598917476803157260780028538760589558632766878171540458953514382464234321326889464182768467546703537516986049910576551282076245490090389328944075868508455133942304583236903222948165808559332123348274797826204144723168738177180919299881250404026184124858368.0

  const MAX_PERIOD: int := MAX_INT64 / SECOND

  // ----- Starting a cycle -------------------------------------------------------------

  /** Whole seconds since the epoch, rounded down. */
  function Unix(t: Time): int {
    t / SECOND
  }

  /** Go's %: the remainder takes the sign of the dividend. */
  function Remainder(a: int, b: int): int
    requires b > 0
  {
    if a >= 0 then a % b else -((-a) % b)
  }

  predicate Anchored(w: Window) {
    w.anchor != ZERO_TIME
  }

  function StartOf(w: Window, now: Time): Time
    requires w.period > 0
  {
    if !Anchored(w) then now else
    var offset := Remainder(Unix(now) - Unix(w.anchor), w.period);
    (Unix(now) - if offset < 0 then offset + w.period else offset) * SECOND
  }

  function NewCycle(w: Window, planID: string, now: Time): (c: Cycle)
    requires w.period > 0
  {
    var start := StartOf(w, now);
    Cycle(planID, start, start + w.period * SECOND, if Anchored(w) then now else ZERO_TIME, 0.0, 0, 0)
  }

  lemma FloorOffset(a: int, p: int)
    requires p > 0
    ensures var offset := Remainder(a, p); (if offset < 0 then offset + p else offset) == a - a / p * p == a % p
  {
    if a < 0 {
      var b := -a;
      NegatedMod(b, p);
    }
  }

  lemma NegatedMod(b: int, p: int)
    requires b > 0 && p > 0
    ensures (-b) % p == if b % p == 0 then 0 else p - b % p
  {
    var q, r := b / p, b % p;
    assert -b == -(q * p) - r;
    if r == 0 {
      assert -b == (-q) * p;
      DivisionIs(-b, p, -q, 0);
    } else {
      assert -b == (-q - 1) * p + (p - r);
      DivisionIs(-b, p, -q - 1, p - r);
    }
  }

  lemma DivisionIs(a: int, p: int, q: int, r: int)
    requires p > 0 && 0 <= r < p && a == q * p + r
    ensures a / p == q && a % p == r
  {
    var d := a / p - q;
    assert (a / p) * p + a % p == a;
    assert d * p == r - a % p;
    if d >= 1 { MultipleGrows(d, p); }
    if d <= -1 { MultipleGrows(-d, p); }
  }

  lemma MultipleGrows(d: int, p: int)
    requires d >= 1 && p > 0
    ensures d * p >= p && (-d) * p <= -p
  {
  }

  /** The k-th instant a whole number of periods away from the anchor. */
  function Boundary(w: Window, k: int): Time {
    (Unix(w.anchor) + k * w.period) * SECOND
  }

  /** Whether now lies in the k-th period. */
  predicate InPeriod(w: Window, k: int, now: Time) {
    Boundary(w, k) <= now < Boundary(w, k + 1)
  }

  function PeriodOf(w: Window, now: Time): int
    requires w.period > 0
  {
    (Unix(now) - Unix(w.anchor)) / w.period
  }

  lemma PeriodArithmetic(t: int, a: int, p: int, k: int)
    requires p > 0
    ensures a + k * p <= t < a + (k + 1) * p <==> k == (t - a) / p
  {
    var q := (t - a) / p;
    assert q * p <= t - a < q * p + p;
    if k < q {
      MultipleGrows(q - k, p);
      assert (q - k) * p == q * p - k * p;
    }
    if k > q {
      MultipleGrows(k - q, p);
      assert (k - q) * p == k * p - q * p;
    }
  }

  /** now lies in exactly one period. */
  lemma OnePeriod(w: Window, k: int, now: Time)
    requires w.period > 0
    ensures InPeriod(w, k, now) <==> k == PeriodOf(w, now)
  {
    PeriodArithmetic(Unix(now), Unix(w.anchor), w.period, k);
  }

  lemma StartIsBoundary(w: Window, now: Time)
    requires w.period > 0 && Anchored(w)
    ensures StartOf(w, now) == Boundary(w, PeriodOf(w, now))
  {
    FloorOffset(Unix(now) - Unix(w.anchor), w.period);
  }

  /**
    An anchored cycle starts at the one aligned instant whose period contains now, whether
    now is before or after the anchor; every cycle contains the time it is created at.
   */
  lemma AnchoredStart(w: Window, planID: string, now: Time)
    requires w.period > 0
    ensures var c := NewCycle(w, planID, now);
            && c.startAt <= now < c.endAt
            && (Anchored(w) ==> c.startAt == Boundary(w, PeriodOf(w, now)) && c.endAt == Boundary(w, PeriodOf(w, now) + 1))
            && (Anchored(w) ==> forall k :: InPeriod(w, k, now) <==> Boundary(w, k) == c.startAt)
  {
    if Anchored(w) {
      var p := PeriodOf(w, now);
      StartIsBoundary(w, now);
      OnePeriod(w, p, now);
      forall k
        ensures InPeriod(w, k, now) <==> Boundary(w, k) == Boundary(w, p)
      {
        OnePeriod(w, k, now);
      }
    }
  }

  /** Starting over at a cycle's own start finds the same start. */
  lemma StartIsStable(w: Window, now: Time)
    requires w.period > 0 && Anchored(w)
    ensures StartOf(w, StartOf(w, now)) == StartOf(w, now)
  {
    var p := PeriodOf(w, now);
    StartIsBoundary(w, now);
    OnePeriod(w, p, Boundary(w, p));
    StartIsBoundary(w, Boundary(w, p));
  }

  // ----- Schedules --------------------------------------------------------------------

  function Nanos(t: Time): int {
    t % SECOND
  }

  predicate SameSchedule(w: Window, other: Window) {
    && w.period == other.period && Anchored(w) == Anchored(other)
    && (w.anchor == other.anchor ||
        (w.period > 0 && Nanos(w.anchor) == Nanos(other.anchor) &&
         Remainder(Unix(w.anchor) - Unix(other.anchor), w.period) == 0))
  }

  lemma RemainderZero(a: int, p: int)
    requires p > 0
    ensures Remainder(a, p) == 0 <==> a % p == 0
  {
    if a < 0 { NegatedMod(-a, p); }
  }

  lemma ShiftedMod(t: int, a: int, b: int, p: int)
    requires p > 0
    ensures (a - b) % p == 0 ==> (t - a) % p == (t - b) % p
    ensures (t - a) % p == (t - b) % p ==> (a - b) % p == 0
  {
    var d, x, y := (a - b) / p, (t - a) / p, (t - b) / p;
    if (a - b) % p == 0 {
      assert t - b == (x + d) * p + (t - a) % p;
      DivisionIs(t - b, p, x + d, (t - a) % p);
    }
    if (t - a) % p == (t - b) % p {
      assert a - b == (y - x) * p + 0;
      DivisionIs(a - b, p, y - x, 0);
    }
  }

  lemma StartBySeconds(w: Window, now: Time)
    requires w.period > 0 && Anchored(w)
    ensures StartOf(w, now) == (Unix(now) - (Unix(now) - Unix(w.anchor)) % w.period) * SECOND
  {
    FloorOffset(Unix(now) - Unix(w.anchor), w.period);
  }

  ghost predicate SameCycles(w: Window, other: Window)
    requires w.period > 0 && other.period > 0
  {
    forall planID, now :: NewCycle(w, planID, now) == NewCycle(other, planID, now)
  }

  /**
    sameSchedule tells exactly whether two windows always run the same cycles from anchors at
    the same fraction of a second; valid anchors are at whole seconds.
   */
  lemma SameScheduleSameCycles(w: Window, other: Window)
    requires w.period > 0 && other.period > 0
    ensures SameSchedule(w, other) <==> SameCycles(w, other) && w.anchor % SECOND == other.anchor % SECOND
  {
    AnchorFractions(w, other);
    hide StartOf, Unix, Nanos, Remainder;
    if SameSchedule(w, other) {
      forall planID, now
        ensures NewCycle(w, planID, now) == NewCycle(other, planID, now)
      {
        if Anchored(w) { SameStart(w, other, now); } else { UnanchoredStart(w, now); UnanchoredStart(other, now); }
      }
    }
    if SameCycles(w, other) && w.anchor % SECOND == other.anchor % SECOND {
      var t := if Anchored(w) then w.anchor else other.anchor;
      assert NewCycle(w, "", 1) == NewCycle(other, "", 1);
      assert NewCycle(w, "", t) == NewCycle(other, "", t);
      if Anchored(w) && Anchored(other) { AlignedAnchors(w, other); }
    }
  }

  lemma AnchorFractions(w: Window, other: Window)
    ensures Nanos(w.anchor) == Nanos(other.anchor) <==> w.anchor % SECOND == other.anchor % SECOND
    ensures SameSchedule(w, other) ==> w.anchor % SECOND == other.anchor % SECOND
  {
  }

  lemma UnanchoredStart(w: Window, now: Time)
    requires w.period > 0 && !Anchored(w)
    ensures StartOf(w, now) == now
  {
  }

  lemma SameStart(w: Window, other: Window, now: Time)
    requires w.period > 0 && Anchored(w) && SameSchedule(w, other)
    ensures StartOf(w, now) == StartOf(other, now)
  {
    StartBySeconds(w, now);
    StartBySeconds(other, now);
    RemainderZero(Unix(w.anchor) - Unix(other.anchor), w.period);
    ShiftedMod(Unix(now), Unix(w.anchor), Unix(other.anchor), w.period);
  }

  lemma AlignedAnchors(w: Window, other: Window)
    requires w.period > 0 && w.period == other.period && Anchored(w) && Anchored(other)
    requires Nanos(w.anchor) == Nanos(other.anchor)
    requires StartOf(w, w.anchor) == StartOf(other, w.anchor)
    ensures SameSchedule(w, other)
  {
    var t := Unix(w.anchor);
    StartBySeconds(w, w.anchor);
    StartBySeconds(other, w.anchor);
    assert (t - t) % w.period == (t - Unix(other.anchor)) % w.period;
    ShiftedMod(t, t, Unix(other.anchor), w.period);
    RemainderZero(t - Unix(other.anchor), w.period);
  }

  // ----- Usage ------------------------------------------------------------------------

  datatype Usage = Usage(amount: real, tokens: int, requests: int)

  predicate GoodUsage(u: Usage) {
    u.amount >= 0.0 && 0 <= u.tokens <= MAX_INT64 && 0 <= u.requests <= MAX_INT64
  }

  /** addQuotaCount. */
  function AddCount(current: int, delta: int): (r: int) {
    if delta > MAX_INT64 - current then MAX_INT64 else current + delta
  }

  function AddAmount(current: real, delta: real): (r: real) {
    if current + delta < MAX_FLOAT64 then current + delta else MAX_FLOAT64
  }

  function AddUsage(c: Cycle, u: Usage): Cycle {
    c.(spent := AddAmount(c.spent, u.amount), tokens := AddCount(c.tokens, u.tokens), requests := AddCount(c.requests, u.requests))
  }

  // ----- Cycles of a key --------------------------------------------------------------

  type Cycles = map<string, Cycle>

  function Settled(cycles: Cycles, now: Time): (r: Cycles)
    ensures forall id :: id in r <==> id in cycles && now < cycles[id].endAt
    ensures forall id :: id in r ==> r[id] == cycles[id]
  {
    map id | id in cycles && now < cycles[id].endAt :: cycles[id]
  }

  predicate PositivePeriods(windows: seq<Window>) {
    forall w :: w in windows ==> w.period > 0
  }

  predicate DistinctWindows(windows: seq<Window>) {
    forall i, j :: 0 <= i < j < |windows| ==> windows[i].id != windows[j].id
  }

  predicate Covers(windows: seq<Window>, id: string) {
    exists i :: 0 <= i < |windows| && windows[i].id == id
  }

  /** Cycles after activating the first n windows: existing ones stay, missing ones start now. */
  function ActivatedTo(cycles: Cycles, windows: seq<Window>, planID: string, now: Time, n: nat): Cycles
    requires n <= |windows| && PositivePeriods(windows)
  {
    if n == 0 then cycles else
    var front := ActivatedTo(cycles, windows, planID, now, n - 1);
    var w := windows[n - 1];
    if w.id in front then front else front[w.id := NewCycle(w, planID, now)]
  }

  function Activated(cycles: Cycles, windows: seq<Window>, planID: string, now: Time): Cycles
    requires PositivePeriods(windows)
  {
    ActivatedTo(cycles, windows, planID, now, |windows|)
  }

  /** Whether a request made at the given time is charged to a cycle. */
  predicate Charges(c: Cycle, planID: string, at: Time) {
    c.planID == planID && c.startAt <= at && c.usageSince <= at && at < c.endAt
  }

  function ChargeOne(cycles: Cycles, planID: string, at: Time, u: Usage, id: string): Cycles {
    if id in cycles && Charges(cycles[id], planID, at) then cycles[id := AddUsage(cycles[id], u)] else cycles
  }

  function ChargedTo(cycles: Cycles, planID: string, at: Time, u: Usage, windows: seq<Window>, n: nat): Cycles
    requires n <= |windows|
  {
    if n == 0 then cycles else ChargeOne(ChargedTo(cycles, planID, at, u, windows, n - 1), planID, at, u, windows[n - 1].id)
  }

  function Charged(cycles: Cycles, planID: string, at: Time, u: Usage, windows: seq<Window>): Cycles {
    if planID == "" || at == ZERO_TIME then cycles else ChargedTo(cycles, planID, at, u, windows, |windows|)
  }

  /** Drops every expired cycle; nothing starts here. */
  method SettleExpired(record: KeyState, now: Time) returns (changed: bool)
    modifies record
    ensures record.key == old(record.key).(cycles := Settled(old(record.key).cycles, now))
    ensures changed <==> record.key != old(record.key)
  {
    ghost var was := record.key.cycles;
    changed := false;
    var cycles := record.key.cycles;
    var pending := cycles.Keys;
    while pending != {}
      invariant pending <= was.Keys && cycles.Keys <= was.Keys
      invariant forall id :: id in was ==> (id in cycles <==> id in pending || now < was[id].endAt)
      invariant forall id :: id in cycles ==> cycles[id] == was[id]
      invariant changed <==> exists id :: id in was && id !in cycles
      decreases pending
    {
      var id :| id in pending;
      pending := pending - {id};
      if now >= cycles[id].endAt {
        cycles := cycles - {id};
        changed := true;
      }
    }
    assert cycles == Settled(was, now);
    record.key := record.key.(cycles := cycles);
  }

  method ActivateCycles(record: KeyState, windows: seq<Window>, planID: string, now: Time) returns (changed: bool)
    requires PositivePeriods(windows)
    modifies record
    ensures record.key == old(record.key).(cycles := Activated(old(record.key).cycles, windows, planID, now))
    ensures changed <==> record.key != old(record.key)
  {
    ghost var was := record.key.cycles;
    var cycles := record.key.cycles;
    changed := false;
    for i := 0 to |windows|
      invariant cycles == ActivatedTo(was, windows, planID, now, i)
      invariant was.Keys <= cycles.Keys && forall id :: id in was ==> cycles[id] == was[id]
      invariant changed <==> cycles != was
    {
      var w := windows[i];
      if w.id !in cycles {
        cycles := cycles[w.id := NewCycle(w, planID, now)];
        changed := true;
      }
    }
    record.key := record.key.(cycles := cycles);
  }

  method ChargeCycles(record: KeyState, at: Time, u: Usage, windows: seq<Window>)
    modifies record
    ensures record.key == old(record.key).(cycles := Charged(old(record.key).cycles, old(record.key).planID, at, u, windows))
  {
    if record.key.planID == "" || at == ZERO_TIME { return; }
    ghost var was := record.key.cycles;
    var planID, cycles := record.key.planID, record.key.cycles;
    for i := 0 to |windows|
      invariant cycles == ChargedTo(was, planID, at, u, windows, i)
    {
      var id := windows[i].id;
      if id !in cycles { continue; }
      var c := cycles[id];
      if c.planID != planID || at < c.startAt || at < c.usageSince || at >= c.endAt { continue; }
      cycles := cycles[id := AddUsage(c, u)];
    }
    record.key := record.key.(cycles := cycles);
  }

  /** A live cycle stays as it is; a missing one is created by a window that lists it. */
  lemma {:induction false} ActivatedAt(cycles: Cycles, windows: seq<Window>, planID: string, now: Time, n: nat, id: string)
    requires n <= |windows| && PositivePeriods(windows)
    ensures var r := ActivatedTo(cycles, windows, planID, now, n);
            && (id in cycles ==> id in r && r[id] == cycles[id])
            && (id in r && id !in cycles ==> exists i :: 0 <= i < n && windows[i].id == id && r[id] == NewCycle(windows[i], planID, now))
            && (id !in r ==> !Covers(windows[..n], id))
  {
    hide NewCycle, Covers;
    if n > 0 {
      ActivatedAt(cycles, windows, planID, now, n - 1, id);
      CoversNext(windows, n - 1);
    } else {
      NothingCovered(windows, id);
    }
  }

  lemma NothingCovered(windows: seq<Window>, id: string)
    ensures !Covers(windows[..0], id)
  {
  }

  lemma CoversNext(windows: seq<Window>, n: nat)
    requires n < |windows|
    ensures forall id :: Covers(windows[..n + 1], id) <==> Covers(windows[..n], id) || id == windows[n].id
  {
    assert windows[..n + 1] == windows[..n] + [windows[n]];
    forall id
      ensures Covers(windows[..n + 1], id) <==> Covers(windows[..n], id) || id == windows[n].id
    {
      if Covers(windows[..n], id) {
        var i :| 0 <= i < n && windows[..n][i].id == id;
        assert windows[..n + 1][i].id == id;
      }
      assert windows[..n + 1][n] == windows[n];
    }
  }

  /** Exactly the listed windows' cycles whose time includes the request gain the usage, each once. */
  lemma {:induction false} ChargedAt(cycles: Cycles, planID: string, at: Time, u: Usage, windows: seq<Window>, n: nat, id: string)
    requires n <= |windows| && DistinctWindows(windows)
    ensures var r := ChargedTo(cycles, planID, at, u, windows, n);
            && (id in r <==> id in cycles)
            && (id in cycles ==>
                  r[id] == if Covers(windows[..n], id) && Charges(cycles[id], planID, at) then AddUsage(cycles[id], u) else cycles[id])
  {
    hide AddUsage, Charges, Covers;
    if n > 0 {
      ChargedAt(cycles, planID, at, u, windows, n - 1, id);
      CoversNext(windows, n - 1);
      LastIsNew(windows, n - 1);
    } else {
      NothingCovered(windows, id);
    }
  }

  lemma LastIsNew(windows: seq<Window>, n: nat)
    requires n < |windows| && DistinctWindows(windows)
    ensures !Covers(windows[..n], windows[n].id)
  {
  }

  // ----- Valid cycles -----------------------------------------------------------------

  /** A window as a stored plan may hold it. */
  predicate GoodWindow(w: Window) {
    && 0 < w.period <= MAX_PERIOD && Nanos(w.anchor) == 0
    && w.amount >= 0.0 && w.tokenLimit >= 0 && w.requestLimit >= 0
  }

  predicate GoodWindows(windows: seq<Window>) {
    DistinctWindows(windows) && forall w :: w in windows ==> GoodWindow(w)
  }

  /** What ValidateCycles demands of one cycle and its window. */
  predicate GoodCycle(planID: string, w: Window, c: Cycle)
    requires w.period > 0
  {
    && c.planID == planID && c.startAt != ZERO_TIME && c.endAt != ZERO_TIME
    && c.endAt == c.startAt + w.period * SECOND
    && c.spent >= 0.0 && c.tokens >= 0 && c.requests >= 0
    && (Anchored(w) ==> NewCycle(w, planID, c.startAt).startAt == c.startAt)
    && (c.usageSince != ZERO_TIME ==> c.startAt <= c.usageSince < c.endAt)
  }

  /**
    A cycle is valid exactly when it is of this plan, as long as the window's period, with no
    counter below zero, begun, if the window is anchored, a whole number of periods away from
    the anchor's second, and counting from a time within it, if from a later one than its start.
   */
  lemma CycleMeans(planID: string, w: Window, c: Cycle)
    requires w.period > 0
    ensures GoodCycle(planID, w, c) <==>
            && c.planID == planID && c.startAt != ZERO_TIME && c.endAt != ZERO_TIME
            && c.endAt - c.startAt == w.period * 1_000_000_000
            && c.spent >= 0.0 && c.tokens >= 0 && c.requests >= 0
            && (w.anchor != ZERO_TIME ==> exists k :: c.startAt == Boundary(w, k))
            && (c.usageSince == ZERO_TIME || c.startAt <= c.usageSince < c.endAt)
  {
    hide StartOf, Boundary;
    if Anchored(w) { StartsAtBoundary(w, c.startAt); }
  }

  lemma StartsAtBoundary(w: Window, t: Time)
    requires w.period > 0 && Anchored(w)
    ensures StartOf(w, t) == t <==> exists k :: t == Boundary(w, k)
  {
    hide StartOf;
    StartIsBoundary(w, t);
    if k :| t == Boundary(w, k) {
      BoundaryWithin(w, k);
      OnePeriod(w, k, t);
    }
  }

  lemma BoundaryWithin(w: Window, k: int)
    requires w.period > 0
    ensures InPeriod(w, k, Boundary(w, k))
  {
    assert (k + 1) * w.period == k * w.period + w.period;
  }

  function WindowOf(windows: seq<Window>, id: string): (w: Option<Window>)
    ensures w.Some? ==> w.value in windows && w.value.id == id
    ensures w.None? <==> !Covers(windows, id)
  {
    if windows == [] then None
    else if windows[0].id == id then Some(windows[0])
    else
      var rest := WindowOf(windows[1..], id);
      assert rest.None? ==> forall i :: 0 < i < |windows| ==> windows[i] == windows[1..][i - 1];
      assert rest.Some? ==> exists i :: 0 <= i < |windows| && windows[i].id == id;
      rest
  }

  /** ValidateCycles accepts the cycles of a key bound to the plan with these windows. */
  ghost predicate GoodCycles(planID: string, windows: seq<Window>, cycles: Cycles)
    requires PositivePeriods(windows)
  {
    forall id :: id in cycles ==> var w := WindowOf(windows, id); w.Some? && GoodCycle(planID, w.value, cycles[id])
  }

  /** Clocks that tell the time after 1970. */
  predicate SaneClock(now: Time) {
    now >= 0
  }

  lemma NewCycleIsGood(planID: string, w: Window, now: Time)
    requires GoodWindow(w) && SaneClock(now)
    ensures GoodCycle(planID, w, NewCycle(w, planID, now))
  {
    hide StartOf;
    AnchoredStart(w, planID, now);
    if Anchored(w) { StartIsStable(w, now); }
  }

  lemma ChargingKeepsGood(planID: string, w: Window, c: Cycle, u: Usage)
    requires w.period > 0 && GoodCycle(planID, w, c) && GoodUsage(u)
    ensures GoodCycle(planID, w, AddUsage(c, u))
  {
    hide StartOf;
  }

  lemma SettlingKeepsGood(planID: string, windows: seq<Window>, cycles: Cycles, now: Time)
    requires PositivePeriods(windows) && GoodCycles(planID, windows, cycles)
    ensures GoodCycles(planID, windows, Settled(cycles, now))
  {
    hide GoodCycle, WindowOf;
  }

  /** Activating any of the plan's windows keeps every cycle valid. */
  lemma ActivatingKeepsGood(planID: string, windows: seq<Window>, some: seq<Window>, cycles: Cycles, now: Time)
    requires GoodWindows(windows) && GoodWindows(some) && (forall w :: w in some ==> w in windows) && SaneClock(now)
    requires GoodCycles(planID, windows, cycles)
    ensures GoodCycles(planID, windows, Activated(cycles, some, planID, now))
  {
    hide GoodCycle, NewCycle, WindowOf, GoodWindow, ActivatedTo;
    assert PositivePeriods(some) && PositivePeriods(windows) by { GoodArePositive(windows); GoodArePositive(some); }
    var r := Activated(cycles, some, planID, now);
    forall id | id in r
      ensures var w := WindowOf(windows, id); w.Some? && GoodCycle(planID, w.value, r[id])
    {
      ActivatedAt(cycles, some, planID, now, |some|, id);
      if id !in cycles {
        var i :| 0 <= i < |some| && some[i].id == id && r[id] == NewCycle(some[i], planID, now);
        assert some[i] in some && some[i] in windows;
        var j :| 0 <= j < |windows| && windows[j] == some[i];
        NewCycleIsGood(planID, some[i], now);
      }
    }
  }

  lemma GoodArePositive(windows: seq<Window>)
    requires GoodWindows(windows)
    ensures PositivePeriods(windows) && DistinctWindows(windows)
  {
  }

  lemma ChargingAllKeepsGood(planID: string, windows: seq<Window>, some: seq<Window>, cycles: Cycles, at: Time, u: Usage)
    requires PositivePeriods(windows) && DistinctWindows(some) && GoodUsage(u) && GoodCycles(planID, windows, cycles)
    ensures GoodCycles(planID, windows, Charged(cycles, planID, at, u, some))
  {
    hide GoodCycle, WindowOf, AddUsage, ChargedTo, Charges;
    var r := Charged(cycles, planID, at, u, some);
    forall id | id in r
      ensures var w := WindowOf(windows, id); w.Some? && GoodCycle(planID, w.value, r[id])
    {
      ChargedAt(cycles, planID, at, u, some, |some|, id);
      ChargingKeepsGood(planID, WindowOf(windows, id).value, cycles[id], u);
    }
  }
}
