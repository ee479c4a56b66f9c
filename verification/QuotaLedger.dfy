/**
  What a cycle's counters mean: over every run of admissions, uses, expiries, resets,
  rebindings and plan edits, each live cycle holds exactly the saturated sum of the usage
  recorded since it started that falls into its time and matches its window.
 */
module QuotaLedger {
  import opened Text
  import opened Model
  import opened ModelNames
  import opened QuotaCycles
  import opened QuotaScopes
  import P = Plans
  import E = Enforcement

  /** One recorded use: when the request was made, what it is billed as, and what it used. */
  datatype Record = Record(at: Time, model: string, usage: Usage)

  /**
    A key with its history: every use ever recorded for it, and for each live cycle how much
    of that history predates the cycle and at what time it was created.
   */
  datatype Ledger = Ledger(
    planID: string, windows: seq<Window>, cycles: Cycles,
    log: seq<Record>, from: map<string, nat>, born: map<string, Time>)

  // ----- What ought to be counted -----------------------------------------------------

  /** From when on requests count against a cycle. */
  function Since(c: Cycle): Time {
    if c.usageSince > c.startAt then c.usageSince else c.startAt
  }

  predicate Counted(w: Window, c: Cycle, r: Record) {
    r.at != ZERO_TIME && Since(c) <= r.at < c.endAt && Matches(w.scope, r.model)
  }

  ghost function Plus(a: Usage, b: Usage): Usage {
    Usage(a.amount + b.amount, a.tokens + b.tokens, a.requests + b.requests)
  }

  const NOTHING := Usage(0.0, 0, 0)

  /** All usage the records from..n owe to a cycle of the window. */
  ghost function Owed(log: seq<Record>, w: Window, c: Cycle, from: nat, n: nat): Usage
    requires from <= n <= |log|
  {
    if n == from then NOTHING else
    var rest := Owed(log, w, c, from, n - 1);
    if Counted(w, c, log[n - 1]) then Plus(rest, log[n - 1].usage) else rest
  }

  /** The counters an unbounded sum saturates to. */
  function Capped(u: Usage): Usage {
    Usage(if u.amount < MAX_FLOAT64 then u.amount else MAX_FLOAT64,
          if u.tokens < MAX_INT64 then u.tokens else MAX_INT64,
          if u.requests < MAX_INT64 then u.requests else MAX_INT64)
  }

  function CountersOf(c: Cycle): Usage {
    Usage(c.spent, c.tokens, c.requests)
  }

  /** Adding to a saturated counter is saturating the sum: caps never lose track. */
  lemma CappingCommutes(c: Cycle, sum: Usage, u: Usage)
    requires GoodUsage(u) && sum.amount >= 0.0 && sum.tokens >= 0 && sum.requests >= 0
    requires CountersOf(c) == Capped(sum)
    ensures CountersOf(AddUsage(c, u)) == Capped(Plus(sum, u))
  {
  }

  ghost predicate GoodLog(log: seq<Record>) {
    forall i :: 0 <= i < |log| ==> GoodUsage(log[i].usage)
  }

  lemma {:induction false} OwedNonNegative(log: seq<Record>, w: Window, c: Cycle, from: nat, n: nat)
    requires from <= n <= |log| && GoodLog(log)
    ensures var u := Owed(log, w, c, from, n); u.amount >= 0.0 && u.tokens >= 0 && u.requests >= 0
  {
    hide Counted;
    if n > from { OwedNonNegative(log, w, c, from, n - 1); }
  }

  lemma {:induction false} OwedPrefix(log: seq<Record>, r: Record, w: Window, c: Cycle, from: nat, n: nat)
    requires from <= n <= |log|
    ensures Owed(log + [r], w, c, from, n) == Owed(log, w, c, from, n)
  {
    hide Counted;
    if n > from { OwedPrefix(log, r, w, c, from, n - 1); }
  }

  /** Only a window's scope and a cycle's times decide what is owed. */
  lemma {:induction false} OwedBy(log: seq<Record>, w: Window, v: Window, c: Cycle, d: Cycle, from: nat, n: nat)
    requires from <= n <= |log| && w.scope == v.scope
    requires c.startAt == d.startAt && c.usageSince == d.usageSince && c.endAt == d.endAt
    ensures Owed(log, w, c, from, n) == Owed(log, v, d, from, n)
  {
    hide Matches;
    if n > from { OwedBy(log, w, v, c, d, from, n - 1); }
  }

  // ----- The invariant ----------------------------------------------------------------

  ghost predicate GoodScopes(windows: seq<Window>) {
    forall w :: w in windows ==> StoredScope(w.scope)
  }

  /** A live cycle is balanced when its counters are the capped sum of what is owed to it. */
  ghost predicate Balanced(l: Ledger, id: string)
    requires id in l.cycles
  {
    && id in l.from && l.from[id] <= |l.log| && id in l.born && Since(l.cycles[id]) == l.born[id]
    && WindowOf(l.windows, id).Some?
    && CountersOf(l.cycles[id]) == Capped(Owed(l.log, WindowOf(l.windows, id).value, l.cycles[id], l.from[id], |l.log|))
  }

  ghost predicate Sound(l: Ledger) {
    && GoodWindows(l.windows) && GoodScopes(l.windows) && GoodLog(l.log)
    && (l.planID == "" ==> l.cycles == map[])
    && PositivePeriods(l.windows) && GoodCycles(l.planID, l.windows, l.cycles)
    && forall id :: id in l.cycles ==> Balanced(l, id)
  }

  // ----- Steps ------------------------------------------------------------------------

  datatype Step =
    | Admit(model: string, at: Time, scoped: bool)
    | Use(record: Record, now: Time)
    | Settle(now: Time)
    | Reset
    | Rebind(toPlan: string, toWindows: seq<Window>)
    | Replan(after: seq<Window>)

  /** What the source guarantees of each step's inputs. */
  ghost predicate Sensible(l: Ledger, s: Step) {
    match s
    case Admit(_, at, _) => SaneClock(at)
    case Use(record, _) => GoodUsage(record.usage)
    case Settle(_) => true
    case Reset => true
    case Rebind(_, toWindows) => GoodWindows(toWindows) && GoodScopes(toWindows)
    case Replan(after) => GoodWindows(after) && GoodScopes(after)
  }

  function Selected(l: Ledger, s: Step): (r: seq<Window>)
    requires s.Admit?
    ensures forall w :: w in r ==> w in l.windows
  {
    if s.scoped then Matching(l.windows, s.model) else l.windows
  }

  ghost function Admitted(l: Ledger, s: Step): Ledger
    requires s.Admit? && PositivePeriods(l.windows)
  {
    var cycles := if l.planID == "" then l.cycles else E.Decided(l.cycles, Selected(l, s), l.planID, s.at, s.scoped);
    var live := Settled(l.cycles, s.at);
    l.(cycles := cycles,
       from := map id | id in cycles :: if id in live && id in l.from then l.from[id] else |l.log|,
       born := map id | id in cycles :: if id in live && id in l.born then l.born[id] else s.at)
  }

  ghost function After(l: Ledger, s: Step): Ledger
    requires PositivePeriods(l.windows)
  {
    match s
    case Admit(_, _, _) => Admitted(l, s)
    case Use(record, now) =>
      l.(cycles := Settled(Charged(l.cycles, l.planID, record.at, record.usage, Matching(l.windows, record.model)), now),
         log := l.log + [record])
    case Settle(now) => l.(cycles := Settled(l.cycles, now))
    case Reset => l.(cycles := map[])
    case Rebind(toPlan, toWindows) => l.(planID := toPlan, windows := toWindows, cycles := map[])
    case Replan(after) => l.(windows := after, cycles := l.cycles - P.ResetWindows(l.windows, after))
  }

  // ----- Every step keeps the balance -------------------------------------------------

  lemma SoundBalanced(l: Ledger, id: string)
    requires Sound(l) && id in l.cycles
    ensures Balanced(l, id)
  {
    hide Balanced;
  }

  /** What a decision leaves of one cycle: itself, or a cycle one of the selected windows just started. */
  lemma DecidedAt(cycles: Cycles, windows: seq<Window>, planID: string, at: Time, scoped: bool, id: string)
    requires PositivePeriods(windows) && id in E.Decided(cycles, windows, planID, at, scoped)
    ensures var r, live := E.Decided(cycles, windows, planID, at, scoped), Settled(cycles, at);
            if id in live then r[id] == live[id]
            else exists i :: 0 <= i < |windows| && windows[i].id == id && r[id] == NewCycle(windows[i], planID, at)
  {
    hide E.Refuses, ActivatedTo, StartOf;
    ActivatedAt(Settled(cycles, at), windows, planID, at, |windows|, id);
  }

  lemma AdmitKeepsLive(l: Ledger, s: Step, id: string)
    requires Sound(l) && s.Admit? && id in Admitted(l, s).cycles && id in Settled(l.cycles, s.at)
    ensures Balanced(Admitted(l, s), id)
  {
    hide E.Decided, Owed, WindowOf, GoodCycles, GoodWindow, GoodLog, GoodScopes, Matches;
    SoundBalanced(l, id);
    if l.planID != "" { DecidedAt(l.cycles, Selected(l, s), l.planID, s.at, s.scoped, id); }
  }

  /** A window's ID finds it. */
  lemma WindowIs(windows: seq<Window>, w: Window)
    requires DistinctWindows(windows) && w in windows
    ensures WindowOf(windows, w.id) == Some(w)
  {
    hide WindowOf;
    var i :| 0 <= i < |windows| && windows[i] == w;
    assert Covers(windows, w.id);
    var found := WindowOf(windows, w.id).value;
    var j :| 0 <= j < |windows| && windows[j] == found;
  }

  /** The window that started a cycle an admission has added. */
  lemma StartedBy(l: Ledger, s: Step, id: string) returns (w: Window)
    requires Sound(l) && s.Admit? && id in Admitted(l, s).cycles && id !in Settled(l.cycles, s.at)
    ensures w in l.windows && w.id == id && w.period > 0 && Admitted(l, s).cycles[id] == NewCycle(w, l.planID, s.at)
  {
    hide E.Decided, Balanced, GoodCycles, GoodWindows, GoodLog, GoodScopes, Matches, NewCycle;
    var some := Selected(l, s);
    DecidedAt(l.cycles, some, l.planID, s.at, s.scoped, id);
    var i :| 0 <= i < |some| && some[i].id == id && Admitted(l, s).cycles[id] == NewCycle(some[i], l.planID, s.at);
    w := some[i];
    assert w in some;
  }

  lemma AdmitStartsBalanced(l: Ledger, s: Step, id: string)
    requires Sound(l) && s.Admit? && Sensible(l, s) && id in Admitted(l, s).cycles && id !in Settled(l.cycles, s.at)
    ensures Balanced(Admitted(l, s), id)
  {
    var w := StartedBy(l, s, id);
    hide E.Decided, Owed, WindowOf, GoodCycles, GoodWindow, GoodLog, GoodScopes, Since, Selected, StartOf, Settled;
    WindowIs(l.windows, w);
    BornNow(w, l.planID, s.at);
    NothingOwed(l.log, w, NewCycle(w, l.planID, s.at));
  }

  /** A new cycle counts requests from its creation on, however early its anchored start is. */
  lemma BornNow(w: Window, planID: string, now: Time)
    requires w.period > 0 && SaneClock(now)
    ensures Since(NewCycle(w, planID, now)) == now
  {
    hide StartOf;
    AnchoredStart(w, planID, now);
    if !Anchored(w) { UnanchoredStart(w, now); }
  }

  lemma NothingOwed(log: seq<Record>, w: Window, c: Cycle)
    requires CountersOf(c) == NOTHING
    ensures CountersOf(c) == Capped(Owed(log, w, c, |log|, |log|))
  {
  }

  lemma AdmitKeepsSound(l: Ledger, s: Step)
    requires Sound(l) && s.Admit? && Sensible(l, s)
    ensures Sound(Admitted(l, s))
  {
    hide Balanced, E.Refuses, ActivatedTo, StartOf, WindowOf, GoodCycle, GoodWindow, Matches, GoodLog, GoodScopes;
    var some := Selected(l, s);
    if l.planID != "" {
      E.MatchingKeepsDistinct(l.windows, s.model, |l.windows|);
      SettlingKeepsGood(l.planID, l.windows, l.cycles, s.at);
      ActivatingKeepsGood(l.planID, l.windows, some, Settled(l.cycles, s.at), s.at);
    }
    forall id | id in Admitted(l, s).cycles
      ensures Balanced(Admitted(l, s), id)
    {
      if id in Settled(l.cycles, s.at) { AdmitKeepsLive(l, s, id); } else { AdmitStartsBalanced(l, s, id); }
    }
  }

  /** A model's windows are those whose scope matches it, found by ID. */
  lemma MatchingCovers(windows: seq<Window>, model: string, id: string)
    requires DistinctWindows(windows) && WindowOf(windows, id).Some?
    ensures Covers(Matching(windows, model), id) <==> Matches(WindowOf(windows, id).value.scope, model)
  {
    hide Matches;
    var some, w := Matching(windows, model), WindowOf(windows, id).value;
    if Covers(some, id) {
      var i :| 0 <= i < |some| && some[i].id == id;
      assert some[i] in some && some[i] in windows;
      var j :| 0 <= j < |windows| && windows[j] == some[i];
    }
    if Matches(w.scope, model) {
      assert w in some;
      var i :| 0 <= i < |some| && some[i] == w;
      assert some[i].id == id;
    }
  }

  /** What one use leaves of a cycle. */
  lemma UsedAt(l: Ledger, s: Step, id: string)
    requires Sound(l) && s.Use? && id in After(l, s).cycles
    ensures id in l.cycles && WindowOf(l.windows, id).Some?
    ensures var c := l.cycles[id];
            After(l, s).cycles[id] == if Counted(WindowOf(l.windows, id).value, c, s.record) then AddUsage(c, s.record.usage) else c
  {
    hide ChargedTo, Matches, WindowOf, GoodWindow, StartOf, Owed, AddUsage;
    var r, some := s.record, Matching(l.windows, s.record.model);
    assert some[..|some|] == some;
    E.MatchingKeepsDistinct(l.windows, r.model, |l.windows|);
    ChargedAt(l.cycles, l.planID, r.at, r.usage, some, |some|, id);
    SoundBalanced(l, id);
    MatchingCovers(l.windows, r.model, id);
  }

  /** One more record keeps a balanced cycle balanced. */
  lemma OneMoreUse(log: seq<Record>, r: Record, w: Window, c: Cycle, from: nat)
    requires from <= |log| && GoodLog(log) && GoodUsage(r.usage) && CountersOf(c) == Capped(Owed(log, w, c, from, |log|))
    ensures var used := if Counted(w, c, r) then AddUsage(c, r.usage) else c;
            CountersOf(used) == Capped(Owed(log + [r], w, used, from, |log| + 1))
  {
    hide Owed, AddUsage, Counted, Capped, CountersOf, GoodUsage;
    var more := log + [r];
    OwedPrefix(log, r, w, c, from, |log|);
    OwedNext(more, w, c, from, |more|);
    OwedNonNegative(log, w, c, from, |log|);
    CappingCommutes(c, Owed(log, w, c, from, |log|), r.usage);
    SameTimes(c, r.usage);
    OwedBy(more, w, w, c, AddUsage(c, r.usage), from, |more|);
  }

  lemma UseKeepsBalanced(l: Ledger, s: Step, id: string)
    requires Sound(l) && s.Use? && Sensible(l, s) && id in After(l, s).cycles
    ensures Balanced(After(l, s), id)
  {
    hide Charged, Settled, Matching, WindowOf, GoodWindows, GoodScopes, GoodCycles, Owed, AddUsage, Counted, Capped, CountersOf;
    UsedAt(l, s, id);
    SoundBalanced(l, id);
    OneMoreUse(l.log, s.record, WindowOf(l.windows, id).value, l.cycles[id], l.from[id]);
    SameTimes(l.cycles[id], s.record.usage);
  }

  lemma SameTimes(c: Cycle, u: Usage)
    ensures AddUsage(c, u).startAt == c.startAt && AddUsage(c, u).usageSince == c.usageSince && AddUsage(c, u).endAt == c.endAt
  {
  }

  lemma OwedNext(log: seq<Record>, w: Window, c: Cycle, from: nat, n: nat)
    requires from < n <= |log|
    ensures Owed(log, w, c, from, n) ==
            if Counted(w, c, log[n - 1]) then Plus(Owed(log, w, c, from, n - 1), log[n - 1].usage) else Owed(log, w, c, from, n - 1)
  {
    hide Counted;
  }

  lemma UseKeepsSound(l: Ledger, s: Step)
    requires Sound(l) && s.Use? && Sensible(l, s)
    ensures Sound(After(l, s))
  {
    hide Balanced, WindowOf, GoodCycle, GoodWindow, Matches, GoodScopes, ChargedTo;
    var r, some := s.record, Matching(l.windows, s.record.model);
    E.MatchingKeepsDistinct(l.windows, r.model, |l.windows|);
    ChargingAllKeepsGood(l.planID, l.windows, some, l.cycles, r.at, r.usage);
    SettlingKeepsGood(l.planID, l.windows, Charged(l.cycles, l.planID, r.at, r.usage, some), s.now);
    forall id | id in After(l, s).cycles
      ensures Balanced(After(l, s), id)
    {
      UseKeepsBalanced(l, s, id);
    }
  }

  /** The window that continues a cycle's window across a plan edit. */
  lemma ContinuedBy(l: Ledger, s: Step, id: string) returns (w: Window)
    requires Sound(l) && s.Replan? && Sensible(l, s) && id in After(l, s).cycles
    ensures id in l.cycles && WindowOf(l.windows, id).Some?
    ensures WindowOf(s.after, id) == Some(w) && w.scope == WindowOf(l.windows, id).value.scope
  {
    hide WindowOf, GoodWindow, GoodCycle, Owed, P.Continues, Identity;
    SoundBalanced(l, id);
    var o := WindowOf(l.windows, id).value;
    assert P.Continued(o, s.after);
    var i :| 0 <= i < |s.after| && P.Continues(o, s.after[i]);
    w := s.after[i];
    P.ContinuingID(o, w);
    WindowIs(s.after, w);
    SameScope(o, w, l.windows, s.after);
  }

  lemma ReplanKeepsBalanced(l: Ledger, s: Step, id: string)
    requires Sound(l) && s.Replan? && Sensible(l, s) && id in After(l, s).cycles
    ensures Balanced(After(l, s), id)
  {
    var w := ContinuedBy(l, s, id);
    SoundBalanced(l, id);
    hide WindowOf, GoodWindows, GoodScopes, GoodCycles, Owed, P.ResetWindows, Capped;
    OwedBy(l.log, WindowOf(l.windows, id).value, w, l.cycles[id], l.cycles[id], l.from[id], |l.log|);
  }

  /** Of stored scopes, equal identity means equal. */
  lemma SameScope(o: Window, w: Window, before: seq<Window>, after: seq<Window>)
    requires GoodScopes(before) && GoodScopes(after) && o in before && w in after && P.Continues(o, w)
    ensures o.scope == w.scope
  {
    hide NormalizeScope, SameSchedule;
  }

  lemma ReplanKeepsSound(l: Ledger, s: Step)
    requires Sound(l) && s.Replan? && Sensible(l, s)
    ensures Sound(After(l, s))
  {
    hide Balanced, WindowOf, GoodCycle, GoodWindow, GoodScopes, P.ResetWindows, GoodLog;
    GoodArePositive(s.after);
    P.KeptCyclesAreGood(l.planID, l.windows, s.after, l.cycles, P.ResetWindows(l.windows, s.after));
    forall id | id in After(l, s).cycles
      ensures Balanced(After(l, s), id)
    {
      ReplanKeepsBalanced(l, s, id);
    }
  }

  lemma SettleKeepsSound(l: Ledger, now: Time)
    requires Sound(l)
    ensures Sound(l.(cycles := Settled(l.cycles, now)))
  {
    hide WindowOf, GoodCycle, GoodWindow, GoodScopes, GoodLog, Owed;
    SettlingKeepsGood(l.planID, l.windows, l.cycles, now);
    forall id | id in Settled(l.cycles, now)
      ensures Balanced(l.(cycles := Settled(l.cycles, now)), id)
    {
      SoundBalanced(l, id);
    }
  }

  lemma ClearedIsSound(l: Ledger)
    requires GoodWindows(l.windows) && GoodScopes(l.windows) && GoodLog(l.log) && l.cycles == map[]
    ensures Sound(l)
  {
    hide GoodScopes, GoodLog;
  }

  /** Whatever happens to a key, its cycles stay valid and their counters exact. */
  lemma StepKeepsSound(l: Ledger, s: Step)
    requires Sound(l) && Sensible(l, s)
    ensures Sound(After(l, s))
  {
    hide Sound, GoodScopes, GoodLog, GoodWindow, Settled, Charged, P.ResetWindows;
    SoundParts(l);
    match s
    case Admit(_, _, _) => AdmitKeepsSound(l, s);
    case Use(_, _) => UseKeepsSound(l, s);
    case Settle(now) => SettleKeepsSound(l, now);
    case Reset => ClearedIsSound(After(l, s));
    case Rebind(_, _) => ClearedIsSound(After(l, s));
    case Replan(_) => ReplanKeepsSound(l, s);
  }

  lemma SoundParts(l: Ledger)
    requires Sound(l)
    ensures PositivePeriods(l.windows) && GoodWindows(l.windows) && GoodScopes(l.windows) && GoodLog(l.log)
  {
  }

  // ----- Runs -------------------------------------------------------------------------

  ghost predicate Fits(l: Ledger, steps: seq<Step>)
    requires Sound(l)
    decreases |steps|
  {
    steps == [] || (Sensible(l, steps[0]) && (StepKeepsSound(l, steps[0]); Fits(After(l, steps[0]), steps[1..])))
  }

  ghost function Run(l: Ledger, steps: seq<Step>): Ledger
    requires Sound(l) && Fits(l, steps)
    decreases |steps|
  {
    if steps == [] then l else
    StepKeepsSound(l, steps[0]);
    Run(After(l, steps[0]), steps[1..])
  }

  /** Over every run: each live cycle's counters are the capped sum of what its time and scope cover. */
  lemma {:induction false} CountersAreExact(l: Ledger, steps: seq<Step>)
    requires Sound(l) && Fits(l, steps)
    ensures Sound(Run(l, steps))
    decreases |steps|
  {
    hide Sound, After, Sensible;
    if steps != [] {
      SoundParts(l);
      StepKeepsSound(l, steps[0]);
      CountersAreExact(After(l, steps[0]), steps[1..]);
    }
  }

  ghost predicate NotBefore(steps: seq<Step>, t: Time) {
    forall i :: 0 <= i < |steps| && steps[i].Admit? ==> t <= steps[i].at
  }

  /** A cycle the run ends with either was live all along or was created at t or later. */
  ghost predicate Younger(l: Ledger, end: Ledger, t: Time) {
    forall id :: id in end.cycles ==>
      id in end.born && (t <= end.born[id] || (id in l.cycles && id in l.born && end.born[id] == l.born[id]))
  }

  lemma {:induction false} NewCyclesAreYounger(l: Ledger, steps: seq<Step>, t: Time)
    requires Sound(l) && Fits(l, steps) && NotBefore(steps, t)
    ensures Younger(l, Run(l, steps), t)
    decreases |steps|
  {
    hide Sound, After, Sensible;
    if steps == [] {
      StillYounger(l, t);
    } else {
      SoundParts(l);
      var next := After(l, steps[0]);
      StepKeepsSound(l, steps[0]);
      forall i | 0 <= i < |steps[1..]| && steps[1..][i].Admit?
        ensures t <= steps[1..][i].at
      {
        assert steps[1..][i] == steps[i + 1];
      }
      NewCyclesAreYounger(next, steps[1..], t);
      assert steps[0].Admit? ==> t <= steps[0].at;
      StepIsYounger(l, steps[0], t);
    }
  }

  lemma StillYounger(l: Ledger, t: Time)
    requires Sound(l)
    ensures Younger(l, l, t)
  {
    hide Owed, WindowOf, GoodCycle, GoodWindow;
    forall id | id in l.cycles
      ensures id in l.born
    {
      SoundBalanced(l, id);
    }
  }

  lemma StepIsYounger(l: Ledger, s: Step, t: Time)
    requires Sound(l) && Sensible(l, s) && (s.Admit? ==> t <= s.at)
    ensures Younger(l, After(l, s), t)
  {
    hide Owed, WindowOf, GoodCycle, GoodWindow, StartOf, E.Refuses, ActivatedTo, ChargedTo, P.ResetWindows, Matches;
    forall id | id in l.cycles
      ensures id in l.born
    {
      SoundBalanced(l, id);
    }
    if s.Use? {
      var some := Matching(l.windows, s.record.model);
      E.MatchingKeepsDistinct(l.windows, s.record.model, |l.windows|);
      forall id | id in After(l, s).cycles
        ensures id in l.cycles
      {
        ChargedAt(l.cycles, l.planID, s.record.at, s.record.usage, some, |some|, id);
      }
    }
  }

  /**
    Nothing used before counts afterwards. A cycle that was not live at some time, because the
    key was reset or rebound, because a schedule or scope changed, or because it had never
    started or had expired, is never charged for a request made before that time, provided
    the clock of later admissions does not run backwards past it.
   */
  lemma EarlierRequestsAreFree(l: Ledger, steps: seq<Step>, t: Time, id: string, r: Record)
    requires Sound(l) && Fits(l, steps) && id !in l.cycles && NotBefore(steps, t)
    requires id in Run(l, steps).cycles && r.at < t
    ensures var end := Run(l, steps);
            WindowOf(end.windows, id).Some? && !Counted(WindowOf(end.windows, id).value, end.cycles[id], r)
  {
    hide Run, Owed, WindowOf, Matches, GoodWindow, GoodCycle, Fits;
    CountersAreExact(l, steps);
    NewCyclesAreYounger(l, steps, t);
    SoundBalanced(Run(l, steps), id);
  }

  /** In particular a plan edit that changes a window's schedule or scope forgives all earlier use of that window. */
  lemma ScheduleChangeForgives(l: Ledger, steps: seq<Step>, t: Time, o: Window, r: Record)
    requires Sound(l) && Fits(l, steps) && NotBefore(steps, t) && steps != [] && steps[0].Replan?
    requires o in l.windows && !P.Continued(o, steps[0].after) && o.id in Run(l, steps).cycles && r.at < t
    ensures var end := Run(l, steps);
            WindowOf(end.windows, o.id).Some? && !Counted(WindowOf(end.windows, o.id).value, end.cycles[o.id], r)
  {
    hide Sound, Counted, P.Continues, Sensible, Fits, Run, P.ResetWindows;
    SoundParts(l);
    RunUnfolds(l, steps);
    forall i | 0 <= i < |steps[1..]| && steps[1..][i].Admit?
      ensures t <= steps[1..][i].at
    {
      assert steps[1..][i] == steps[i + 1];
    }
    assert o.id in P.ResetWindows(l.windows, steps[0].after);
    EarlierRequestsAreFree(After(l, steps[0]), steps[1..], t, o.id, r);
  }

  lemma RunUnfolds(l: Ledger, steps: seq<Step>)
    requires Sound(l) && Fits(l, steps) && steps != []
    ensures PositivePeriods(l.windows) && Sensible(l, steps[0])
    ensures Sound(After(l, steps[0])) && Fits(After(l, steps[0]), steps[1..])
    ensures Run(l, steps) == Run(After(l, steps[0]), steps[1..])
  {
    hide Sound, After, Sensible;
    SoundParts(l);
    StepKeepsSound(l, steps[0]);
  }

  // ----- The whole log ----------------------------------------------------------------

  /** Whatever was recorded before a live cycle was created was asked for before, too. */
  ghost predicate Timely(l: Ledger) {
    forall id :: id in l.cycles ==>
      && id in l.from && l.from[id] <= |l.log| && id in l.born
      && forall i :: 0 <= i < l.from[id] ==> l.log[i].at < l.born[id]
  }

  /** An admission comes after every request recorded so far was made. */
  ghost predicate Punctual(l: Ledger, s: Step) {
    s.Admit? ==> forall i :: 0 <= i < |l.log| ==> l.log[i].at < s.at
  }

  lemma StepKeepsTimely(l: Ledger, s: Step)
    requires Sound(l) && Sensible(l, s) && Timely(l) && Punctual(l, s)
    ensures Timely(After(l, s))
  {
    hide Balanced, GoodCycles, E.Decided, Charged, P.ResetWindows, Matches;
    SoundParts(l);
    StepKeepsSound(l, s);
    forall id | id in After(l, s).cycles
      ensures id in After(l, s).from && id in After(l, s).born
    {
      BalancedIsBooked(After(l, s), id);
    }
    if s.Use? {
      var some := Matching(l.windows, s.record.model);
      E.MatchingKeepsDistinct(l.windows, s.record.model, |l.windows|);
      forall id | id in After(l, s).cycles
        ensures id in l.cycles
      {
        ChargedOnlyKnown(l.cycles, l.planID, s.record.at, s.record.usage, some, id);
      }
    }
  }

  lemma BalancedIsBooked(l: Ledger, id: string)
    requires Sound(l) && id in l.cycles
    ensures id in l.from && l.from[id] <= |l.log| && id in l.born
  {
    hide Owed, WindowOf, GoodCycles;
    SoundBalanced(l, id);
  }

  lemma ChargedOnlyKnown(cycles: Cycles, planID: string, at: Time, u: Usage, some: seq<Window>, id: string)
    requires DistinctWindows(some)
    ensures id in Charged(cycles, planID, at, u, some) <==> id in cycles
  {
    hide ChargedTo;
    ChargedAt(cycles, planID, at, u, some, |some|, id);
  }

  ghost predicate AllPunctual(l: Ledger, steps: seq<Step>)
    requires Sound(l) && Fits(l, steps)
    decreases |steps|
  {
    steps == [] || (Punctual(l, steps[0]) && (StepKeepsSound(l, steps[0]); AllPunctual(After(l, steps[0]), steps[1..])))
  }

  lemma {:induction false} RunKeepsTimely(l: Ledger, steps: seq<Step>)
    requires Sound(l) && Fits(l, steps) && Timely(l) && AllPunctual(l, steps)
    ensures Timely(Run(l, steps))
    decreases |steps|
  {
    hide Sound, After, Sensible, Timely, Punctual;
    if steps != [] {
      SoundParts(l);
      StepKeepsSound(l, steps[0]);
      StepKeepsTimely(l, steps[0]);
      RunKeepsTimely(After(l, steps[0]), steps[1..]);
    }
  }

  lemma {:induction false} EarlierOweNothing(log: seq<Record>, w: Window, c: Cycle, from: nat, n: nat)
    requires from <= n <= |log| && forall i :: 0 <= i < from ==> log[i].at < Since(c)
    ensures Owed(log, w, c, 0, n) == Owed(log, w, c, from, n)
    decreases n
  {
    hide Matches;
    if n > from {
      EarlierOweNothing(log, w, c, from, n - 1);
    } else if n > 0 {
      EarlierOweNothing(log, w, c, n - 1, n - 1);
    }
  }

  /**
    Over every run in which no admission precedes a request recorded before it, each live
    cycle's counters are the capped sum over the whole log of what its time and scope cover.
   */
  lemma WholeLogIsExact(l: Ledger, steps: seq<Step>, id: string)
    requires Sound(l) && Fits(l, steps) && Timely(l) && AllPunctual(l, steps) && id in Run(l, steps).cycles
    ensures var end := Run(l, steps);
            && WindowOf(end.windows, id).Some?
            && CountersOf(end.cycles[id]) == Capped(Owed(end.log, WindowOf(end.windows, id).value, end.cycles[id], 0, |end.log|))
  {
    hide Run, Owed, WindowOf, Matches, GoodWindow, GoodCycle, Fits, AllPunctual;
    CountersAreExact(l, steps);
    RunKeepsTimely(l, steps);
    var end := Run(l, steps);
    SoundBalanced(end, id);
    EarlierOweNothing(end.log, WindowOf(end.windows, id).value, end.cycles[id], end.from[id], |end.log|);
  }

  // ----- Exactly when the whole log is counted ------------------------------------------

  /** Some counter of the cycle that is not at its cap would have grown by this use. */
  predicate Noticed(c: Cycle, u: Usage) {
    || (u.amount != 0.0 && c.spent != MAX_FLOAT64)
    || (u.tokens != 0 && c.tokens != MAX_INT64)
    || (u.requests != 0 && c.requests != MAX_INT64)
  }

  /** A use that the cycle covers and whose loss its counters would show. */
  predicate Overlooked(w: Window, c: Cycle, r: Record) {
    Counted(w, c, r) && Noticed(c, r.usage)
  }

  lemma {:induction false} OwedSplits(log: seq<Record>, w: Window, c: Cycle, from: nat, n: nat)
    requires from <= n <= |log|
    ensures Owed(log, w, c, 0, n) == Plus(Owed(log, w, c, 0, from), Owed(log, w, c, from, n))
  {
    hide Counted;
    if n > from { OwedSplits(log, w, c, from, n - 1); }
  }

  /** A sum of usage is zero in a dimension exactly when every counted record is. */
  lemma {:induction false} OwedZero(log: seq<Record>, w: Window, c: Cycle, n: nat)
    requires n <= |log| && GoodLog(log)
    ensures var u := Owed(log, w, c, 0, n);
            && (u.amount == 0.0 <==> forall i :: 0 <= i < n && Counted(w, c, log[i]) ==> log[i].usage.amount == 0.0)
            && (u.tokens == 0 <==> forall i :: 0 <= i < n && Counted(w, c, log[i]) ==> log[i].usage.tokens == 0)
            && (u.requests == 0 <==> forall i :: 0 <= i < n && Counted(w, c, log[i]) ==> log[i].usage.requests == 0)
  {
    hide Counted;
    if n > 0 {
      OwedZero(log, w, c, n - 1);
      OwedNonNegative(log, w, c, 0, n - 1);
    }
  }

  /** Adding to a capped sum changes nothing exactly where the addend is zero or the sum at its cap. */
  lemma CappedPlus(x: Usage, y: Usage)
    requires x.amount >= 0.0 && x.tokens >= 0 && x.requests >= 0
    ensures var c := Capped(y);
            Capped(Plus(x, y)) == c <==>
              && (x.amount == 0.0 || c.amount == MAX_FLOAT64) && (x.tokens == 0 || c.tokens == MAX_INT64)
              && (x.requests == 0 || c.requests == MAX_INT64)
  {
  }

  lemma NothingOverlooked(l: Ledger, w: Window, c: Cycle, n: nat)
    requires n <= |l.log| && GoodLog(l.log)
    ensures var missed := Owed(l.log, w, c, 0, n);
            (forall i :: 0 <= i < n ==> !Overlooked(w, c, l.log[i])) <==>
              && (missed.amount == 0.0 || c.spent == MAX_FLOAT64) && (missed.tokens == 0 || c.tokens == MAX_INT64)
              && (missed.requests == 0 || c.requests == MAX_INT64)
  {
    hide Owed, Counted;
    OwedZero(l.log, w, c, n);
    if forall i :: 0 <= i < n ==> !Overlooked(w, c, l.log[i]) {
      forall i | 0 <= i < n && Counted(w, c, l.log[i])
        ensures !Noticed(c, l.log[i].usage)
      {
        assert !Overlooked(w, c, l.log[i]);
      }
    }
  }

  /**
    A live cycle's counters are the capped sum over the whole log exactly when no use was
    recorded before the cycle was created that the cycle covers, because it was requested at
    or after the creation, and that the counters would show.
   */
  lemma ExactUnlessOverlooked(l: Ledger, id: string)
    requires Sound(l) && id in l.cycles
    ensures WindowOf(l.windows, id).Some? && id in l.from && l.from[id] <= |l.log|
    ensures var w, c := WindowOf(l.windows, id).value, l.cycles[id];
            CountersOf(c) == Capped(Owed(l.log, w, c, 0, |l.log|)) <==> forall i :: 0 <= i < l.from[id] ==> !Overlooked(w, c, l.log[i])
  {
    hide Owed, WindowOf, GoodCycles, GoodWindows, GoodScopes, Counted;
    SoundBalanced(l, id);
    var w, c, from := WindowOf(l.windows, id).value, l.cycles[id], l.from[id];
    OwedSplits(l.log, w, c, from, |l.log|);
    NothingOverlooked(l, w, c, from);
    OwedNonNegative(l.log, w, c, 0, from);
    CappedPlus(Owed(l.log, w, c, 0, from), Owed(l.log, w, c, from, |l.log|));
  }

  /** So it is over every run. */
  lemma RunIsExactUnlessOverlooked(l: Ledger, steps: seq<Step>, id: string)
    requires Sound(l) && Fits(l, steps) && id in Run(l, steps).cycles
    ensures var end := Run(l, steps);
            && WindowOf(end.windows, id).Some? && id in end.from && end.from[id] <= |end.log|
            && var w, c := WindowOf(end.windows, id).value, end.cycles[id];
               CountersOf(c) == Capped(Owed(end.log, w, c, 0, |end.log|)) <==> forall i :: 0 <= i < end.from[id] ==> !Overlooked(w, c, end.log[i])
  {
    hide Sound, Run, Fits, Owed, WindowOf, Overlooked;
    CountersAreExact(l, steps);
    ExactUnlessOverlooked(Run(l, steps), id);
  }

  /** Where a live cycle comes from: it was live before the step, or an admission that found none has created it. */
  lemma StepOrigin(l: Ledger, s: Step, id: string)
    requires Sound(l) && Sensible(l, s) && id in After(l, s).cycles
    ensures var next := After(l, s);
            && id in next.from && id in next.born
            && (|| (id in l.cycles && id in l.from && id in l.born && next.from[id] == l.from[id] && next.born[id] == l.born[id])
                || (s.Admit? && id !in Settled(l.cycles, s.at) && next.from[id] == |l.log| && next.born[id] == s.at))
  {
    hide Balanced, GoodCycles, E.Decided, Charged, P.ResetWindows, Matches, WindowOf;
    SoundParts(l);
    StepKeepsSound(l, s);
    BalancedIsBooked(After(l, s), id);
    if id in l.cycles { BalancedIsBooked(l, id); }
    if s.Use? {
      var some := Matching(l.windows, s.record.model);
      E.MatchingKeepsDistinct(l.windows, s.record.model, |l.windows|);
      ChargedOnlyKnown(l.cycles, l.planID, s.record.at, s.record.usage, some, id);
    }
  }

  lemma NothingToCharge(planID: string, at: Time, u: Usage, some: seq<Window>, now: Time)
    requires DistinctWindows(some)
    ensures Settled(Charged(map[], planID, at, u, some), now) == map[]
  {
    hide Charged;
    forall id | id in Charged(map[], planID, at, u, some)
      ensures false
    {
      ChargedOnlyKnown(map[], planID, at, u, some, id);
    }
  }

  /** Without cycles a use is only logged. */
  lemma UseIsOnlyLogged(l: Ledger, r: Record, now: Time)
    requires Sound(l) && l.cycles == map[]
    ensures PositivePeriods(l.windows) && After(l, Use(r, now)) == l.(log := l.log + [r])
  {
    hide Sound, Charged, MatchingTo, Matches, Settled, GoodWindow, GoodScopes, GoodLog;
    SoundParts(l);
    E.MatchingKeepsDistinct(l.windows, r.model, |l.windows|);
    NothingToCharge(l.planID, r.at, r.usage, Matching(l.windows, r.model), now);
  }

  /** An admission that looks at all windows starts a cycle of each where there is none. */
  lemma AdmitStartsAll(l: Ledger, model: string, at: Time, w: Window)
    requires Sound(l) && l.cycles == map[] && l.planID != "" && w in l.windows
    ensures PositivePeriods(l.windows)
    ensures var next := After(l, Admit(model, at, false));
            w.id in next.cycles && next.cycles[w.id] == NewCycle(w, l.planID, at) && next.log == l.log && next.windows == l.windows
  {
    hide Sound, NewCycle, ActivatedTo, GoodWindow, GoodScopes, GoodLog, E.Exhausted;
    SoundParts(l);
    var none: Cycles := map[];
    assert Settled(none, at) == none;
    var i :| 0 <= i < |l.windows| && l.windows[i] == w;
    assert l.windows[..|l.windows|] == l.windows && Covers(l.windows, w.id);
    ActivatedAt(none, l.windows, l.planID, at, |l.windows|, w.id);
  }

  /**
    A run in which a use is lost, for every bound key without cycles and every window of its
    plan that the use belongs to: the use is recorded first, and the admission that starts the
    cycle comes after it although its clock shows a time no later than the request's.
   */
  lemma EarlierUseIsLost(l: Ledger, r: Record, now: Time, model: string, at: Time, w: Window)
    requires Sound(l) && l.cycles == map[] && l.planID != "" && w in l.windows && w.period > 0 && Matches(w.scope, r.model)
    requires GoodUsage(r.usage) && SaneClock(at) && r.at != ZERO_TIME && at <= r.at < NewCycle(w, l.planID, at).endAt
    ensures Fits(l, [Use(r, now), Admit(model, at, false)])
    ensures var end := Run(l, [Use(r, now), Admit(model, at, false)]);
            && end.log == l.log + [r] && w.id in end.cycles && end.cycles[w.id] == NewCycle(w, l.planID, at)
            && CountersOf(end.cycles[w.id]) == NOTHING && Counted(w, end.cycles[w.id], r)
  {
    hide Sound, After, NewCycle, Matches;
    var use, admit := Use(r, now), Admit(model, at, false);
    UseIsOnlyLogged(l, r, now);
    StepKeepsSound(l, use);
    var next := After(l, use);
    AdmitStartsAll(next, model, at, w);
    StepKeepsSound(next, admit);
    BornNow(w, l.planID, at);
    assert CountersOf(NewCycle(w, l.planID, at)) == NOTHING by { StartsEmpty(w, l.planID, at); }
    var steps := [use, admit];
    assert steps[1..] == [admit] && [admit][1..] == [];
    assert Fits(After(next, admit), []);
    assert Fits(next, [admit]) && Run(next, [admit]) == After(next, admit);
    assert Run(l, steps) == Run(next, steps[1..]);
  }

  lemma StartsEmpty(w: Window, planID: string, at: Time)
    requires w.period > 0
    ensures CountersOf(NewCycle(w, planID, at)) == NOTHING
  {
    hide StartOf;
  }
}
