/**
  Runs of the admission gate of internal/plugin/intercept.go: any interleaving of any calls with
  any completions. A completed request holds a slot afterwards exactly when a call that began
  after the completion has taken it.
 */
module AdmissionRuns {
  import opened Text
  import opened AccountAliases
  import opened AccountRuntimes
  import opened AdmissionMarkers
  import opened Admission
  import K = KeySlots

  ghost function After(v: GateView, events: seq<Event>): GateView {
    if events == [] then v else Step(After(v, events[..|events| - 1]), events[|events| - 1])
  }

  ghost predicate PossibleRun(v: GateView, events: seq<Event>) {
    forall t :: 0 <= t < |events| ==> Possible(After(v, events[..t]), events[t])
  }

  /** A key slot is found by the trimmed request ID, an account slot by its exact spelling. */
  datatype Slot = KeySlot(id: string) | AccountSlot(spelling: string)
  {
    function ID(): string {
      if KeySlot? then id else Trim(spelling)
    }
  }

  predicate Held(v: GateView, slot: Slot) {
    if slot.KeySlot? then slot.id in v.keys else slot.spelling in v.accounts
  }

  predicate Takes(e: Event, slot: Slot) {
    if slot.KeySlot? then e.Reserved? && Trim(e.requestID) == slot.id else e.Took? && e.requestID == slot.spelling
  }

  /** The completion of a request frees its key slot and its account slot of the same spelling. */
  predicate Completes(e: Event, slot: Slot) {
    e.Completed? && if slot.KeySlot? then Trim(e.requestID) == slot.id else e.requestID == slot.spelling
  }

  predicate Frees(e: Event, slot: Slot) {
    Completes(e, slot) || (e.GaveUp? && slot.AccountSlot? && e.requestID == slot.spelling)
  }

  /** The t-th event took the slot and nothing has freed it since. */
  ghost predicate TakenAt(events: seq<Event>, slot: Slot, t: nat) {
    t < |events| && Takes(events[t], slot) && forall u :: t < u < |events| ==> !Frees(events[u], slot)
  }

  lemma StepHolds(v: GateView, e: Event, slot: Slot)
    ensures Held(Step(v, e), slot) <==> Takes(e, slot) || (Held(v, slot) && !Frees(e, slot))
  {
    hide Trim, InFlight;
  }

  lemma Prefixes(events: seq<Event>, n: nat)
    requires n <= |events|
    ensures forall t :: 0 <= t <= n ==> events[..n][..t] == events[..t]
    ensures forall t :: 0 <= t < n ==> events[..n][t] == events[t]
  {
  }

  lemma AfterNext(v: GateView, events: seq<Event>, t: nat)
    requires t < |events|
    ensures After(v, events[..t + 1]) == Step(After(v, events[..t]), events[t])
  {
    hide Step;
    assert events[..t + 1][..t] == events[..t];
  }

  /** A slot is held exactly if it was held all along or some event has taken it and none has freed it since. */
  lemma {:induction false} HeldExactly(v: GateView, events: seq<Event>, slot: Slot)
    ensures Held(After(v, events), slot) <==>
              || (Held(v, slot) && forall u :: 0 <= u < |events| ==> !Frees(events[u], slot))
              || exists t :: TakenAt(events, slot, t)
  {
    hide Held, Takes, Frees, Step;
    if events != [] {
      var n := |events| - 1;
      var front := events[..n];
      HeldExactly(v, front, slot);
      StepHolds(After(v, front), events[n], slot);
      Prefixes(events, n);
      if Takes(events[n], slot) { assert TakenAt(events, slot, n); }
      if t: nat :| TakenAt(front, slot, t) && !Frees(events[n], slot) { assert TakenAt(events, slot, t); }
      if t: nat :| TakenAt(events, slot, t) && t < n { assert TakenAt(front, slot, t); }
    }
  }

  // ----- Who may take a slot after a completion ---------------------------------------------

  lemma StepMarks(v: GateView, e: Event)
    requires Marked(v) && Possible(v, e)
    ensures Marked(Step(v, e))
  {
    hide Trim;
    if e.Returned? {
      forall call | call in Step(v, e).calls
        ensures InFlight(v.calls - {e.call}, Trim(v.calls[call]))
      {
        assert call in v.calls - {e.call};
      }
    }
  }

  lemma {:induction false} RunMarks(v: GateView, events: seq<Event>, n: nat)
    requires Marked(v) && PossibleRun(v, events) && n <= |events|
    ensures Marked(After(v, events[..n]))
  {
    hide Step, Possible, Marked;
    if n > 0 {
      RunMarks(v, events, n - 1);
      AfterNext(v, events, n - 1);
      StepMarks(After(v, events[..n - 1]), events[n - 1]);
    }
  }

  /** A call of a completed request that is in flight keeps the completion marked. */
  ghost predicate Barred(v: GateView, call: int, requestID: string) {
    call in v.calls && v.calls[call] == requestID && IsOver(v.ended, Trim(requestID))
  }

  /** The only way to a call in flight is its start. */
  lemma StepBars(v: GateView, e: Event, call: int, requestID: string)
    requires Possible(v, e) && e != Started(call, requestID)
    requires call !in v.calls || v.calls[call] != requestID || Barred(v, call, requestID)
    ensures var w := Step(v, e); call !in w.calls || w.calls[call] != requestID || Barred(w, call, requestID)
  {
    hide Trim;
    var w := Step(v, e);
    if e.Returned? && call in w.calls && w.calls[call] == requestID {
      assert call in v.calls - {e.call};
      assert InFlight(v.calls - {e.call}, Trim(requestID));
    }
  }

  lemma CompletionBars(v: GateView, completed: string, call: int, requestID: string)
    requires Marked(v) && Trim(completed) == Trim(requestID)
    ensures var w := Step(v, Completed(completed)); call !in w.calls || w.calls[call] != requestID || Barred(w, call, requestID)
  {
    hide Trim;
  }

  ghost predicate BegunBetween(events: seq<Event>, k: nat, t: nat, call: int, requestID: string)
    requires t <= |events|
  {
    exists b :: k < b < t && events[b] == Started(call, requestID)
  }

  /** After a completion, a call of the request that has not begun since is barred while it lasts. */
  lemma {:induction false} StaysBarred(v: GateView, events: seq<Event>, k: nat, n: nat, call: int, requestID: string)
    requires Marked(v) && PossibleRun(v, events) && k < n <= |events|
    requires events[k].Completed? && Trim(events[k].requestID) == Trim(requestID) && !BegunBetween(events, k, n, call, requestID)
    ensures var w := After(v, events[..n]); call !in w.calls || w.calls[call] != requestID || Barred(w, call, requestID)
    decreases n
  {
    hide Step, Possible, Marked, Barred, Trim, After;
    AfterNext(v, events, n - 1);
    if n == k + 1 {
      RunMarks(v, events, k);
      CompletionBars(After(v, events[..k]), events[k].requestID, call, requestID);
    } else {
      assert !BegunBetween(events, k, n - 1, call, requestID);
      StaysBarred(v, events, k, n - 1, call, requestID);
      assert events[n - 1] != Started(call, requestID);
      StepBars(After(v, events[..n - 1]), events[n - 1], call, requestID);
    }
  }

  /** Whoever takes a slot after the request has been completed, under any spelling, has begun after the completion. */
  lemma TakersAreLate(v: GateView, events: seq<Event>, k: nat, t: nat, slot: Slot)
    requires Marked(v) && PossibleRun(v, events) && k < t < |events| && Takes(events[t], slot) && slot.ID() != ""
    requires events[k].Completed? && Trim(events[k].requestID) == slot.ID()
    ensures BegunBetween(events, k, t, events[t].call, events[t].requestID)
  {
    hide Step, Marked, Trim, After, BegunBetween;
    var call, requestID := events[t].call, events[t].requestID;
    assert Trim(requestID) == slot.ID();
    assert Possible(After(v, events[..t]), events[t]);
    if !BegunBetween(events, k, t, call, requestID) {
      StaysBarred(v, events, k, t, call, requestID);
    }
  }

  /** The slot was taken after the k-th event by a call that had begun after it, and nothing has freed it since. */
  ghost predicate TakenLate(events: seq<Event>, k: nat, slot: Slot) {
    exists t :: k < t && TakenAt(events, slot, t) && BegunBetween(events, k, t, events[t].call, events[t].requestID)
  }

  /**
    Whatever the interleaving: after a completion of a request, its key slot and its account slot
    of the same spelling are held exactly if a call that began after that completion took them.
   */
  lemma LeftByLateCallsOnly(v: GateView, events: seq<Event>, k: nat, slot: Slot)
    requires Marked(v) && PossibleRun(v, events) && k < |events| && Completes(events[k], slot) && slot.ID() != ""
    ensures Held(After(v, events), slot) <==> TakenLate(events, k, slot)
  {
    hide Step, Marked, Trim, After, BegunBetween, Held, PossibleRun, Takes;
    HeldExactly(v, events, slot);
    assert Frees(events[k], slot);
    if t: nat :| TakenAt(events, slot, t) {
      if t > k { TakersAreLate(v, events, k, t, slot); }
      if t == k { OnlyOne(events[k], slot); }
    }
  }

  lemma OnlyOne(e: Event, slot: Slot)
    ensures !(Takes(e, slot) && Completes(e, slot))
  {
  }

  /** So a request that no call begins for again, spelled as it was completed, leaves nothing behind. */
  lemma NothingLeft(v: GateView, events: seq<Event>, k: nat, requestID: string)
    requires Marked(v) && PossibleRun(v, events) && k < |events| && events[k] == Completed(requestID) && Trim(requestID) != ""
    requires forall b :: k < b < |events| && events[b].Started? ==> Trim(events[b].requestID) != Trim(requestID)
    ensures Trim(requestID) !in After(v, events).keys && requestID !in After(v, events).accounts
  {
    hide Step, Marked, Trim, After, PossibleRun;
    LeftByLateCallsOnly(v, events, k, KeySlot(Trim(requestID)));
    LeftByLateCallsOnly(v, events, k, AccountSlot(requestID));
  }

  /** A completion, and then a call of the same request from beginning to end. */
  function LateRun(call: int, requestID: string): seq<Event> {
    [Completed(requestID), Started(call, requestID), Took(call, requestID), Returned(call)]
  }

  lemma RunOfFour(v: GateView, a: Event, b: Event, c: Event, d: Event)
    ensures After(v, [a, b, c, d]) == Step(Step(Step(Step(v, a), b), c), d)
  {
    hide Step;
    assert [a, b, c, d][..3] == [a, b, c] && [a, b, c][..2] == [a, b] && [a, b][..1] == [a] && [a][..0] == [];
    assert After(v, [a]) == Step(v, a) by { assert After(v, []) == v; }
    assert After(v, [a, b]) == Step(Step(v, a), b);
    assert After(v, [a, b, c]) == Step(Step(Step(v, a), b), c);
  }

  /**
    A completion that arrives while no call of its request is in flight is not remembered: a call
    that begins afterwards takes an account slot, and with it gone nothing is left to free it.
   */
  method CallAfterCompletion(gate: Gate, ghost call: int, requestID: string, ref: string)
    requires gate.Valid() && IsRef(ref) && call !in gate.markers.calls
    requires Trim(requestID) != "" && !InFlight(gate.markers.calls, Trim(requestID))
    requires gate.accounts.settings.accounts == map[] && |gate.accounts.requests| < MAX_REQUESTS
    modifies gate.markers, Objects(gate.markers.admissions), gate.slots, gate.accounts`active, gate.accounts`requests
    ensures gate.Valid() && gate.markers.calls == old(gate.markers.calls) && requestID in gate.accounts.requests
    ensures gate.View() == After(old(gate.View()), LateRun(call, requestID))
  {
    hide IsRef, Trim, Admissions.Valid, IsOver, Gate.Valid, InFlight, Admissions.Holds, Possible, Step;
    RunOfFour(gate.View(), Completed(requestID), Started(call, requestID), Took(call, requestID), Returned(call));
    NotOver(gate, requestID);
    gate.Apart();
    FewerLeft(gate.accounts.requests, requestID);
    gate.Complete(requestID);
    NotOver(gate, requestID);
    gate.Apart();
    var admission := gate.Begin(call, requestID);
    gate.Apart();
    BlankTrims();
    RunThrough(gate, call, requestID, admission, ref);
  }

  lemma BlankTrims()
    ensures Trim("") == ""
  {
  }

  lemma FewerLeft(requests: map<string, string>, requestID: string)
    ensures |requests - {requestID}| <= |requests|
  {
    assert (requests - {requestID}).Keys <= requests.Keys;
    SmallerSet((requests - {requestID}).Keys, requests.Keys);
  }

  lemma {:induction false} SmallerSet(a: set<string>, b: set<string>)
    requires a <= b
    ensures |a| <= |b|
  {
    assert |b| == |a| + |b - a| by { assert a + (b - a) == b; }
  }

  /** The call takes its account slot and returns. */
  method RunThrough(gate: Gate, ghost call: int, requestID: string, admission: RequestAdmission, ref: string)
    requires gate.Valid() && IsRef(ref) && gate.markers.Holds(call, requestID, admission) && requestID != ""
    requires !IsOver(gate.markers.ended, Trim(requestID))
    requires gate.accounts.settings.accounts == map[] && |gate.accounts.requests| < MAX_REQUESTS
    modifies gate.markers, Objects(gate.markers.admissions), gate.accounts`active, gate.accounts`requests
    ensures gate.Valid() && gate.markers.calls == old(gate.markers.calls) - {call} && requestID in gate.accounts.requests
    ensures gate.View() == Step(Step(old(gate.View()), Took(call, requestID)), Returned(call))
  {
    hide IsRef, Trim, Admissions.Valid, IsOver, Gate.Valid, Possible, Step;
    gate.Apart();
    var admitted := gate.CommitAfter(call, requestID, admission, true, Slot(ref), true);
    gate.Apart();
    gate.End(call, requestID, admission);
  }

  lemma NotOver(gate: Gate, requestID: string)
    requires gate.Valid() && !InFlight(gate.markers.calls, Trim(requestID))
    ensures !IsOver(gate.markers.ended, Trim(requestID))
  {
    hide Trim, Quiet, AccountRuntime.Valid, K.SlotTable.Valid, InFlight;
    gate.StillMarked();
  }

  /** One such run of a new gate, which ends with no call in flight and the slot taken. */
  method LateCall(ref: string) returns (gate: Gate)
    requires IsRef(ref)
    ensures fresh(gate) && gate.Valid() && gate.markers.calls == map[] && "r" in gate.accounts.requests
    ensures gate.View() == After(GateView(map[], map[], {}, {}), LateRun(0, "r"))
  {
    hide IsRef, Root, Rooted, ValidSettings, NormalForm, Quiet, Admissions.Valid, AccountRuntime.Valid, K.SlotTable.Valid;
    assert Trim("r") == "r";
    gate := new Gate();
    CallAfterCompletion(gate, 0, "r", ref);
  }
}
