/**
  The race between admission and completion, internal/plugin/intercept.go. Each method is one
  critical section of the plugin; any interleaving of any calls is some sequence of them, so
  what Valid() says holds in every reachable state.
 */
module Admission {
  import opened Text
  import opened SlotCounts
  import opened AccountAliases
  import opened AccountRuntimes
  import opened AdmissionMarkers
  import K = KeySlots

  /** What the account check of a call comes to before a slot is asked for. */
  datatype AccountCheck = Skipped | Unverified | Slot(ref: string)

  /** A completed request in flight holds no key slot, and no account slot under a spelling it was completed by. */
  ghost predicate Quiet(ended: map<string, set<string>>, keySlots: map<string, string>, accountSlots: map<string, string>) {
    && (forall id :: id in ended && ended[id] != {} ==> id !in keySlots)
    && (forall id, spelling :: id in ended && spelling in ended[id] ==> Trim(spelling) == id && spelling !in accountSlots)
  }

  /** The request is in flight and has been completed. */
  ghost predicate IsOver(ended: map<string, set<string>>, id: string) {
    id in ended && ended[id] != {}
  }

  lemma QuietBegin(ended: map<string, set<string>>, keySlots: map<string, string>, accountSlots: map<string, string>, id: string)
    requires Quiet(ended, keySlots, accountSlots)
    ensures Quiet(if id in ended then ended else ended[id := {}], keySlots, accountSlots)
  {
    hide Trim;
  }

  lemma QuietReserve(ended: map<string, set<string>>, keySlots: map<string, string>, accountSlots: map<string, string>, id: string, scope: string)
    requires Quiet(ended, keySlots, accountSlots) && !IsOver(ended, id)
    ensures Quiet(ended, keySlots[id := scope], accountSlots)
  {
    hide Trim;
  }

  lemma QuietAccount(ended: map<string, set<string>>, keySlots: map<string, string>, accountSlots: map<string, string>,
                     requestID: string, root: string)
    requires Quiet(ended, keySlots, accountSlots) && !IsOver(ended, Trim(requestID))
    ensures Quiet(ended, keySlots, accountSlots[requestID := root])
  {
    hide Trim;
    assert forall id :: id in ended && requestID in ended[id] ==> !IsOver(ended, id);
  }

  lemma QuietRelease(ended: map<string, set<string>>, keySlots: map<string, string>, accountSlots: map<string, string>, id: string, spelling: string)
    requires Quiet(ended, keySlots, accountSlots)
    ensures Quiet(ended, keySlots - {id}, accountSlots) && Quiet(ended, keySlots, accountSlots - {spelling})
  {
    hide Trim;
  }

  lemma QuietComplete(ended: map<string, set<string>>, keySlots: map<string, string>, accountSlots: map<string, string>, requestID: string)
    requires Quiet(ended, keySlots, accountSlots)
    ensures var id := Trim(requestID);
            Quiet(if id in ended then ended[id := ended[id] + {requestID}] else ended, keySlots - {id}, accountSlots - {requestID})
  {
    hide Trim;
  }

  // ----- The gate as a state machine ----------------------------------------------------

  /** What decides who may hold a slot: the calls in flight, the completions seen meanwhile, and the slots taken. */
  datatype GateView = GateView(calls: Calls, ended: map<string, set<string>>, keys: set<string>, accounts: set<string>)

  /** What one critical section does, with the call that runs it. */
  datatype Event =
    | Started(call: int, requestID: string)
    | Returned(call: int)
    | Reserved(call: int, requestID: string)
    | Took(call: int, requestID: string)
    | GaveUp(call: int, requestID: string)
    | Completed(requestID: string)
    | Stayed

  /** The call is in flight with this request ID, unless the ID is blank and no marker is kept for it. */
  predicate Carries(v: GateView, call: int, requestID: string) {
    Trim(requestID) == "" || (call in v.calls && v.calls[call] == requestID)
  }

  ghost predicate Possible(v: GateView, e: Event) {
    match e
    case Started(call, requestID) => call !in v.calls && Trim(requestID) != ""
    case Returned(call) => call in v.calls
    case Reserved(call, requestID) => Trim(requestID) != "" && Carries(v, call, requestID) && !IsOver(v.ended, Trim(requestID))
    case Took(call, requestID) => requestID != "" && Carries(v, call, requestID) && !IsOver(v.ended, Trim(requestID))
    case GaveUp(call, requestID) => Carries(v, call, requestID) && !IsOver(v.ended, Trim(requestID))
    case Completed(_) => true
    case Stayed => true
  }

  ghost predicate InFlight(calls: Calls, id: string) {
    exists call :: call in calls && Trim(calls[call]) == id
  }

  lemma SomeoneCalls(calls: Calls, id: string)
    requires |CallsOf(calls, id)| > 0
    ensures InFlight(calls, id)
  {
    hide Trim, CallsOf;
    if !InFlight(calls, id) { NoCalls(calls, id); }
  }

  ghost function Step(v: GateView, e: Event): GateView {
    match e
    case Started(call, requestID) =>
      var id := Trim(requestID);
      v.(calls := v.calls[call := requestID], ended := if id in v.ended then v.ended else v.ended[id := {}])
    case Returned(call) =>
      v.(calls := v.calls - {call}, ended := map id | id in v.ended && InFlight(v.calls - {call}, id) :: v.ended[id])
    case Reserved(_, requestID) => v.(keys := v.keys + {Trim(requestID)})
    case Took(_, requestID) => v.(accounts := v.accounts + {requestID})
    case GaveUp(_, requestID) => v.(accounts := v.accounts - {requestID})
    case Completed(requestID) =>
      var id := Trim(requestID);
      v.(ended := if id in v.ended then v.ended[id := v.ended[id] + {requestID}] else v.ended,
         keys := v.keys - {id}, accounts := v.accounts - {requestID})
    case Stayed => v
  }

  /** The event may happen at v and leads to w. */
  ghost predicate Moves(v: GateView, e: Event, w: GateView) {
    Possible(v, e) && w == Step(v, e)
  }

  lemma NoMove(v: GateView)
    ensures Moves(v, Stayed, v)
  {
  }

  lemma ReturnMoves(v: GateView, call: int, ended: map<string, set<string>>)
    requires call in v.calls && ended.Keys <= v.ended.Keys
    requires forall id :: id in v.ended ==> (id in ended <==> InFlight(v.calls - {call}, id)) && (id in ended ==> ended[id] == v.ended[id])
    ensures Moves(v, Returned(call), v.(calls := v.calls - {call}, ended := ended))
  {
    hide InFlight;
  }

  lemma SlotMoves(v: GateView, call: int, requestID: string, before: map<string, string>, owner: string)
    requires v.accounts == before.Keys && Carries(v, call, requestID) && !IsOver(v.ended, Trim(requestID))
    ensures Moves(v, GaveUp(call, requestID), v.(accounts := (before - {requestID}).Keys))
    ensures requestID != "" ==> Moves(v, Took(call, requestID), v.(accounts := before[requestID := owner].Keys))
  {
    hide Trim, IsOver;
  }

  /** Every call in flight has its marker. */
  ghost predicate Marked(v: GateView) {
    forall call :: call in v.calls ==> Trim(v.calls[call]) != "" && Trim(v.calls[call]) in v.ended
  }

  class Gate {
    const markers: Admissions
    const slots: K.SlotTable
    const accounts: AccountRuntime

    ghost predicate Valid()
      reads markers, Objects(markers.admissions), slots, accounts
    {
      && markers.Valid() && slots.Valid() && accounts.Valid()
      && Quiet(markers.ended, slots.activeRequests, accounts.requests)
    }

    ghost function View(): GateView
      reads markers, slots, accounts
    {
      GateView(markers.calls, markers.ended, slots.activeRequests.Keys, accounts.requests.Keys)
    }

    lemma ValidIsMarked()
      requires Valid()
      ensures Marked(View())
    {
      hide Trim, CallsOf, Quiet, K.SlotTable.Valid, AccountRuntime.Valid;
    }

    constructor ()
      ensures Valid() && fresh(markers) && fresh(slots) && fresh(accounts) && accounts.settings == DEFAULT_SETTINGS
      ensures markers.admissions == map[] && markers.calls == map[] && markers.ended == map[] && slots.activeRequests == map[] && accounts.requests == map[]
    {
      var m := new Admissions();
      var table := new K.SlotTable();
      var runtime := new AccountRuntime();
      markers, slots, accounts := m, table, runtime;
    }

    /** The gate's parts are objects of different kinds. */
    lemma Apart()
      ensures markers as object != slots && markers as object != accounts && slots as object != accounts
      ensures forall a :: a in Objects(markers.admissions) ==> a as object != slots && a as object != accounts && a as object != markers
    {
    }

    /** A call of interceptBeforeAuth or interceptAfterAuth starts. */
    method Begin(ghost call: int, requestID: string) returns (admission: RequestAdmission?)
      requires Valid() && call !in markers.calls
      modifies markers, Objects(markers.admissions)
      ensures Valid() && markers.Holds(call, requestID, admission)
      ensures forall a :: a in Objects(markers.admissions) ==> a in old(Objects(markers.admissions)) || fresh(a)
      ensures markers.calls == if admission == null then old(markers.calls) else old(markers.calls)[call := requestID]
      ensures admission != null <==> Trim(requestID) != ""
      ensures admission != null ==> Trim(requestID) in markers.ended
      ensures admission != null ==> (IsOver(markers.ended, Trim(requestID)) <==> old(IsOver(markers.ended, Trim(requestID))))
      ensures var e := if admission == null then Stayed else Started(call, requestID);
              Moves(old(View()), e, View())
    {
      hide Trim, Quiet, K.SlotTable.Valid, AccountRuntime.Valid, Admissions.Valid, MarkersOf;
      Apart();
      QuietBegin(markers.ended, slots.activeRequests, accounts.requests, Trim(requestID));
      admission := markers.Begin(call, requestID);
    }

    /** The call returns. When it was the last of a completed request, nothing of that request is left. */
    method End(ghost call: int, requestID: string, admission: RequestAdmission?)
      requires Valid() && markers.Holds(call, requestID, admission)
      modifies markers, Objects(markers.admissions)
      ensures Valid()
      ensures markers.calls == if admission == null then old(markers.calls) else old(markers.calls) - {call}
      ensures admission != null && old(IsOver(markers.ended, Trim(requestID))) ==>
                Trim(requestID) !in slots.activeRequests &&
                forall spelling :: spelling in old(markers.ended[Trim(requestID)]) ==> spelling !in accounts.requests
      ensures var e := if admission == null then Stayed else Returned(call);
              Moves(old(View()), e, View())
    {
      hide Trim, K.SlotTable.Valid, AccountRuntime.Valid, Admissions.Valid, MarkersOf, InFlight, Moves;
      Apart();
      ghost var v := View();
      NoMove(v);
      markers.End(call, requestID, admission);
      StillMarked();
      if admission != null { ReturnMoves(v, call, markers.ended); }
    }

    lemma StillMarked()
      requires markers.Valid()
      ensures forall id :: id in MarkersOf(markers.admissions) <==> InFlight(markers.calls, id)
    {
      hide Trim, Shared;
      forall id | id in MarkersOf(markers.admissions)
        ensures InFlight(markers.calls, id)
      {
        assert MarkersOf(markers.admissions)[id].calls == |CallsOf(markers.calls, id)|;
        SomeoneCalls(markers.calls, id);
      }
    }

    /** The marker a call holds says whether its request has been completed. */
    lemma MarkerTells(call: int, requestID: string, admission: RequestAdmission?)
      requires markers.Valid() && markers.Holds(call, requestID, admission)
      ensures IsOver(markers.ended, Trim(requestID)) <==> admission != null && admission.marker.completed
    {
      hide Trim, CallsOf;
    }

    /**
      The commit section of interceptBeforeAuth. A call that finds its request completed
      reserves nothing; a refused call leaves every reservation as it was, its own
      request's earlier one included.
     */
    method CommitBefore(ghost call: int, requestID: string, admission: RequestAdmission?, scope: string, generate: bool,
                        limit: int, quotaAllows: bool)
      returns (admitted: bool)
      requires Valid() && markers.Holds(call, requestID, admission)
      modifies slots
      ensures Valid()
      ensures IsOver(markers.ended, Trim(requestID)) ==> !admitted
      ensures slots.activeRequests ==
              if admitted && generate && Trim(scope) != "" && Trim(requestID) != ""
              then old(slots.activeRequests)[Trim(requestID) := Trim(scope)] else old(slots.activeRequests)
      ensures admitted <==>
              && !IsOver(markers.ended, Trim(requestID)) && quotaAllows
              && (generate && Trim(scope) != "" ==>
                    if Trim(requestID) == "" then limit <= 0
                    else if Trim(requestID) in old(slots.activeRequests) then old(slots.activeRequests)[Trim(requestID)] == Trim(scope)
                    else limit <= 0 || Serving(old(slots.activeRequests), Trim(scope)) < limit)
      ensures var e := if admitted && generate && Trim(scope) != "" && Trim(requestID) != "" then Reserved(call, requestID) else Stayed;
              Moves(old(View()), e, View())
    {
      hide Trim, Quiet, IsOver, AccountRuntime.Valid, Admissions.Valid, K.SlotTable.Valid, Serving, MarkersOf;
      Apart();
      MarkerTells(call, requestID, admission);
      if admission != null && admission.marker.completed { return false; }
      ghost var before := slots.activeRequests;
      QuietReserve(markers.ended, before, accounts.requests, Trim(requestID), Trim(scope));
      var acquired := false;
      if generate {
        var slot := slots.AcquireSlot(scope, requestID, limit);
        if !slot.allowed { return false; }
        acquired := slot.acquired;
        SameEntry(before, Trim(requestID), Trim(scope));
      }
      if !quotaAllows {
        if acquired {
          var _ := slots.ReleaseSlot(requestID);
          assert before[Trim(requestID) := Trim(scope)] - {Trim(requestID)} == before;
        }
        return false;
      }
      return true;
    }

    /**
      The commit section of interceptAfterAuth. A refusal gives up the account slot the
      request held under this spelling; a completed request is turned away untouched.
     */
    method CommitAfter(ghost call: int, requestID: string, admission: RequestAdmission?, credentialOk: bool, check: AccountCheck,
                       stateOk: bool)
      returns (admitted: bool)
      requires Valid() && markers.Holds(call, requestID, admission) && (check.Slot? ==> IsRef(check.ref))
      modifies accounts`active, accounts`requests
      ensures Valid() && Acyclic(accounts.settings.aliases)
      ensures IsOver(markers.ended, Trim(requestID)) ==> !admitted && accounts.requests == old(accounts.requests)
      ensures !IsOver(markers.ended, Trim(requestID)) && !admitted ==>
                accounts.requests == old(accounts.requests) - {requestID}
      ensures admitted <==>
              && !IsOver(markers.ended, Trim(requestID)) && credentialOk && stateOk && !check.Unverified?
              && (check.Slot? ==> old(accounts.HasRoom(check.ref, requestID)))
      ensures admitted && check.Skipped? ==> accounts.requests == old(accounts.requests)
      ensures admitted && check.Slot? && requestID != "" ==>
                accounts.requests == old(accounts.requests)[requestID := accounts.Pool(check.ref)]
      ensures var e := if IsOver(markers.ended, Trim(requestID)) then Stayed
                       else if !admitted then GaveUp(call, requestID)
                       else if check.Slot? && requestID != "" then Took(call, requestID) else Stayed;
              Moves(old(View()), e, View())
    {
      hide Trim, Quiet, IsOver, Admissions.Valid, K.SlotTable.Valid, AccountRuntime.Valid, Root, Rooted, IsRef, MarkersOf, Moves;
      Apart();
      RuntimeIsRooted();
      MarkerTells(call, requestID, admission);
      ghost var v := View();
      NoMove(v);
      if admission != null && admission.marker.completed { return false; }
      ghost var root := if check.Slot? then accounts.Pool(check.ref) else "";
      KeptIsQuiet(markers.ended, slots.activeRequests, accounts.requests, requestID, root);
      SlotMoves(v, call, requestID, accounts.requests, root);
      admitted := TakeAccountSlot(requestID, credentialOk, check, stateOk);
    }

    lemma RuntimeIsRooted()
      requires accounts.Valid()
      ensures Acyclic(accounts.settings.aliases)
    {
      hide NormalForm, AccountRuntime.Tracked, Rooted, IsRef;
    }

    /** The checks of an after-auth call, and the account slot it takes or gives up. */
    method TakeAccountSlot(requestID: string, credentialOk: bool, check: AccountCheck, stateOk: bool) returns (admitted: bool)
      requires accounts.Valid() && (check.Slot? ==> IsRef(check.ref))
      modifies accounts`active, accounts`requests
      ensures accounts.Valid() && Acyclic(accounts.settings.aliases)
      ensures accounts.requests ==
              if !admitted then old(accounts.requests) - {requestID}
              else if check.Slot? && requestID != "" then old(accounts.requests)[requestID := accounts.Pool(check.ref)]
              else old(accounts.requests)
      ensures admitted <==>
              && credentialOk && stateOk && !check.Unverified?
              && (check.Slot? ==> old(accounts.HasRoom(check.ref, requestID)))
    {
      hide AccountRuntime.HasRoom, AccountRuntime.Tracked, ValidSettings, NormalForm, Root, Rooted, IsRef, Serving;
      SettingsAreRooted(accounts.settings);
      ghost var before := accounts.requests;
      NoBlankRequests();
      admitted := credentialOk && !check.Unverified?;
      if admitted && check.Slot? {
        ghost var root := accounts.Pool(check.ref);
        admitted := accounts.Acquire(check.ref, requestID);
      }
      if admitted && !stateOk {
        admitted := false;
      }
      if !admitted {
        accounts.Release(requestID);
      }
    }

    lemma NoBlankRequests()
      requires accounts.Valid()
      ensures "" !in accounts.requests
    {
      hide ValidSettings, NormalForm, Counted;
    }

    /** completeRequest: marks whoever is still in flight and frees what the request holds, at once. */
    method Complete(requestID: string)
      requires Valid()
      modifies markers`ended, Objects(markers.admissions), slots, accounts`active, accounts`requests
      ensures Valid() && markers.calls == old(markers.calls) && markers.held == old(markers.held)
      ensures slots.activeRequests == old(slots.activeRequests) - {Trim(requestID)}
      ensures accounts.requests == old(accounts.requests) - {requestID}
      ensures forall spelling :: Trim(spelling) == Trim(requestID) ==>
                (spelling in accounts.requests <==> spelling in old(accounts.requests) && spelling != requestID)
      ensures Trim(requestID) in old(markers.ended) ==>
                IsOver(markers.ended, Trim(requestID)) && requestID in markers.ended[Trim(requestID)]
      ensures View() == Step(old(View()), Completed(requestID))
    {
      hide Trim, Quiet, Admissions.Valid, K.SlotTable.Valid, AccountRuntime.Valid, MarkersOf, Serving;
      Apart();
      MarkedAre(requestID);
      QuietComplete(markers.ended, slots.activeRequests, accounts.requests, requestID);
      markers.MarkCompleted(requestID);
      var _ := slots.ReleaseSlot(requestID);
      accounts.Release(requestID);
    }

    lemma MarkedAre(requestID: string)
      requires markers.Valid()
      ensures Trim(requestID) in markers.admissions <==> Trim(requestID) in markers.ended
    {
      hide Trim, CallsOf;
    }
  }

  lemma SameEntry(requests: map<string, string>, id: string, scope: string)
    ensures id in requests && requests[id] == scope ==> requests[id := scope] == requests
  {
  }

  /** Whatever Acquire leaves of the account slots, it changes at most this spelling's. */
  lemma KeptIsQuiet(ended: map<string, set<string>>, keySlots: map<string, string>, accountSlots: map<string, string>, requestID: string, root: string)
    requires Quiet(ended, keySlots, accountSlots) && !IsOver(ended, Trim(requestID))
    ensures Quiet(ended, keySlots, accountSlots - {requestID})
    ensures Quiet(ended, keySlots, accountSlots[requestID := root])
  {
    hide Quiet, IsOver, Trim;
    QuietRelease(ended, keySlots, accountSlots, "", requestID);
    QuietAccount(ended, keySlots, accountSlots, requestID, root);
  }

  /**
    Key slots are found by the trimmed request ID, account slots by its exact spelling: a
    completion spelled differently from the call it ends leaves that call's account slot taken.
   */
  method SpellingMatters(ref: string) returns (gate: Gate, admission: RequestAdmission?)
    requires IsRef(ref)
    ensures fresh(gate) && gate.Valid() && admission != null && IsOver(gate.markers.ended, "r") && " r" in gate.accounts.requests
  {
    hide IsRef, Root, Rooted, ValidSettings, NormalForm, Quiet, Admissions.Valid, K.SlotTable.Valid, AccountRuntime.Valid;
    assert Trim(" r") == "r" == Trim("r");
    gate := new Gate();
    gate.Apart();
    admission := gate.Begin(0, " r");
    gate.Apart();
    assert gate.accounts.requests == map[] && !IsOver(gate.markers.ended, "r");
    var admitted := gate.CommitAfter(0, " r", admission, true, Slot(ref), true);
    assert " r" in gate.accounts.requests;
    gate.Complete("r");
  }
}
