/**
  The completion markers of internal/plugin/intercept.go: all calls of one request that are
  in flight share one marker, which lives exactly as long as some of them does.
 */
module AdmissionMarkers {
  import opened Text

  datatype Marker = Marker(calls: int, completed: bool)

  const NEW_MARKER := Marker(0, false)

  /** Shared by pointer between the calls of one request. */
  class RequestAdmission {
    var marker: Marker

    constructor ()
      ensures marker == NEW_MARKER
    {
      marker := NEW_MARKER;
    }
  }

  // ----- Markers as values ------------------------------------------------------------

  /** The calls in flight, by the request ID the host spelled for them. */
  type Calls = map<int, string>

  ghost function CallsOf(calls: Calls, id: string): set<int> {
    set call | call in calls && Trim(calls[call]) == id
  }

  /**
    Each marker belongs to a request with calls in flight and counts exactly these; it is
    completed when the request has been completed under some spelling since.
   */
  ghost predicate Consistent(markers: map<string, Marker>, calls: Calls, ended: map<string, set<string>>) {
    && (forall id :: id in markers ==> id != "" && Trim(id) == id && markers[id].calls == |CallsOf(calls, id)| && markers[id].calls > 0)
    && (forall call :: call in calls ==> Trim(calls[call]) in markers)
    && ended.Keys == markers.Keys
    && (forall id :: id in markers ==> (markers[id].completed <==> ended[id] != {}))
    && (forall id, spelling :: id in ended && spelling in ended[id] ==> Trim(spelling) == id)
  }

  function Begun(markers: map<string, Marker>, id: string): map<string, Marker> {
    var m := if id in markers then markers[id] else NEW_MARKER;
    markers[id := m.(calls := m.calls + 1)]
  }

  lemma BegunAt(markers: map<string, Marker>, id: string)
    ensures var m := if id in markers then markers[id] else NEW_MARKER;
            Begun(markers, id) == markers[id := m.(calls := m.calls + 1)]
  {
  }

  function Ended(markers: map<string, Marker>, id: string): map<string, Marker>
    requires id in markers
  {
    if markers[id].calls == 1 then markers - {id} else markers[id := markers[id].(calls := markers[id].calls - 1)]
  }

  lemma CallAdded(calls: Calls, call: int, requestID: string, id: string)
    requires call !in calls
    ensures |CallsOf(calls[call := requestID], id)| == |CallsOf(calls, id)| + if Trim(requestID) == id then 1 else 0
  {
    hide Trim;
    assert CallsOf(calls[call := requestID], id) == if Trim(requestID) == id then CallsOf(calls, id) + {call} else CallsOf(calls, id);
  }

  lemma CallRemoved(calls: Calls, call: int, id: string)
    requires call in calls
    ensures |CallsOf(calls, id)| == |CallsOf(calls - {call}, id)| + if Trim(calls[call]) == id then 1 else 0
  {
    hide Trim;
    var less := CallsOf(calls - {call}, id);
    assert CallsOf(calls, id) == if Trim(calls[call]) == id then less + {call} else less;
  }

  lemma NoCalls(calls: Calls, id: string)
    requires forall call :: call in calls ==> Trim(calls[call]) != id
    ensures |CallsOf(calls, id)| == 0
  {
    hide Trim;
    assert forall call :: call !in CallsOf(calls, id);
    assert CallsOf(calls, id) == {};
  }

  lemma SomeCall(calls: Calls, call: int)
    requires call in calls
    ensures |CallsOf(calls, Trim(calls[call]))| > 0
  {
    assert call in CallsOf(calls, Trim(calls[call]));
  }

  lemma BeginKeeps(markers: map<string, Marker>, calls: Calls, ended: map<string, set<string>>, call: int, requestID: string)
    requires Consistent(markers, calls, ended) && call !in calls && Trim(requestID) != ""
    ensures var id := Trim(requestID);
            Consistent(Begun(markers, id), calls[call := requestID], if id in ended then ended else ended[id := {}])
  {
    hide Trim, CallsOf;
    var id := Trim(requestID);
    TrimIdempotent(requestID);
    if id !in markers { NoCalls(calls, id); }
    forall x | x in Begun(markers, id)
      ensures Begun(markers, id)[x].calls == |CallsOf(calls[call := requestID], x)|
    {
      CallAdded(calls, call, requestID, x);
    }
  }

  lemma EndKeeps(markers: map<string, Marker>, calls: Calls, ended: map<string, set<string>>, call: int)
    requires Consistent(markers, calls, ended) && call in calls
    ensures Trim(calls[call]) in markers
    ensures var after := Ended(markers, Trim(calls[call]));
            Consistent(after, calls - {call}, map id | id in ended && id in after :: ended[id])
  {
    hide Trim, CallsOf;
    var id := Trim(calls[call]);
    var after, left := Ended(markers, id), calls - {call};
    forall x | x in markers
      ensures x in after ==> after[x].calls == |CallsOf(left, x)|
    {
      CallRemoved(calls, call, x);
    }
    forall other | other in left
      ensures Trim(left[other]) in after
    {
      SomeCall(left, other);
      CallRemoved(calls, call, id);
    }
  }

  lemma CompleteKeeps(markers: map<string, Marker>, calls: Calls, ended: map<string, set<string>>, requestID: string)
    requires Consistent(markers, calls, ended) && Trim(requestID) in markers
    ensures var id := Trim(requestID);
            Consistent(markers[id := markers[id].(completed := true)], calls, ended[id := ended[id] + {requestID}])
  {
    hide Trim, CallsOf;
  }

  // ----- Markers as the plugin keeps them ---------------------------------------------

  ghost function Objects(admissions: map<string, RequestAdmission>): set<RequestAdmission> {
    set id | id in admissions :: admissions[id]
  }

  ghost function MarkersOf(admissions: map<string, RequestAdmission>): (r: map<string, Marker>)
    reads Objects(admissions)
    ensures r.Keys == admissions.Keys
  {
    map id | id in admissions :: admissions[id].marker
  }

  /** No two requests share a marker, and each call in flight holds its request's. */
  ghost predicate Shared(admissions: map<string, RequestAdmission>, calls: Calls, held: map<int, RequestAdmission>) {
    && (forall a, b :: a in admissions && b in admissions && a != b ==> admissions[a] != admissions[b])
    && held.Keys == calls.Keys
    && forall call :: call in calls ==> Trim(calls[call]) in admissions && held[call] == admissions[Trim(calls[call])]
  }

  lemma SharedBegin(admissions: map<string, RequestAdmission>, calls: Calls, held: map<int, RequestAdmission>, call: int,
                    requestID: string, admission: RequestAdmission)
    requires Shared(admissions, calls, held) && call !in calls
    requires var id := Trim(requestID); if id in admissions then admission == admissions[id] else admission !in Objects(admissions)
    ensures Shared(admissions[Trim(requestID) := admission], calls[call := requestID], held[call := admission])
  {
    hide Trim;
  }

  lemma SharedEnd(admissions: map<string, RequestAdmission>, calls: Calls, held: map<int, RequestAdmission>, call: int, gone: bool)
    requires Shared(admissions, calls, held) && call in calls
    requires gone ==> forall other :: other in calls && other != call ==> Trim(calls[other]) != Trim(calls[call])
    ensures Shared(if gone then admissions - {Trim(calls[call])} else admissions, calls - {call}, held - {call})
    ensures held[call] == admissions[Trim(calls[call])]
  {
    hide Trim;
  }

  lemma OneMarker(admissions: map<string, RequestAdmission>, was: map<string, Marker>, id: string)
    requires id in admissions && admissions.Keys == was.Keys + {id}
    requires forall other :: other in admissions && other != id ==> admissions[other].marker == was[other]
    ensures MarkersOf(admissions) == was[id := admissions[id].marker]
  {
  }

  lemma MarkersLeft(admissions: map<string, RequestAdmission>, was: map<string, Marker>, id: string)
    requires id in admissions && admissions.Keys == was.Keys
    requires forall other :: other in admissions && other != id ==> admissions[other].marker == was[other]
    requires admissions[id].marker == was[id].(calls := was[id].calls - 1)
    ensures MarkersOf(if was[id].calls == 1 then admissions - {id} else admissions) == Ended(was, id)
  {
  }

  lemma ObjectsWith(admissions: map<string, RequestAdmission>, id: string, admission: RequestAdmission)
    requires id in admissions ==> admissions[id] == admission
    ensures Objects(admissions[id := admission]) == Objects(admissions) + {admission}
    ensures id in admissions ==> admission in Objects(admissions)
  {
    var after := admissions[id := admission];
    assert after[id] in Objects(after);
    forall x | x in admissions
      ensures admissions[x] in Objects(after)
    {
      assert after[x] == admissions[x];
    }
  }

  lemma OthersDiffer(admissions: map<string, RequestAdmission>, calls: Calls, held: map<int, RequestAdmission>, id: string)
    requires Shared(admissions, calls, held) && id in admissions
    ensures forall other :: other in admissions && other != id ==> admissions[other] != admissions[id]
  {
  }

  class Admissions {
    var admissions: map<string, RequestAdmission>
    ghost var calls: Calls
    /** The marker each call in flight holds. */
    ghost var held: map<int, RequestAdmission>
    /** For each request in flight, the spellings under which it has been completed. */
    ghost var ended: map<string, set<string>>

    ghost predicate Valid()
      reads this, Objects(admissions)
    {
      Consistent(MarkersOf(admissions), calls, ended) && Shared(admissions, calls, held)
    }

    constructor ()
      ensures Valid() && admissions == map[] && calls == map[] && ended == map[]
    {
      admissions, calls, held, ended := map[], map[], map[], map[];
    }

    /** The call is in flight with this marker, or carries no usable request ID at all. */
    ghost predicate Holds(call: int, requestID: string, admission: RequestAdmission?)
      reads this`calls, this`held
    {
      if admission == null then Trim(requestID) == ""
      else call in calls && calls[call] == requestID && call in held && held[call] == admission
    }

    /** The request's marker, or a new one, with one more call counted. */
    method CountIn(id: string) returns (admission: RequestAdmission)
      requires Shared(admissions, calls, held)
      modifies Objects(admissions)
      ensures if id in admissions then admission == admissions[id] else fresh(admission)
      ensures var m := if id in admissions then old(admissions[id].marker) else NEW_MARKER;
              admission.marker == m.(calls := m.calls + 1)
      ensures forall other :: other in admissions && other != id ==> admissions[other].marker == old(admissions[other].marker)
    {
      if id in admissions {
        admission := admissions[id];
      } else {
        admission := new RequestAdmission();
      }
      admission.marker := admission.marker.(calls := admission.marker.calls + 1);
    }

    /** beginAdmission. */
    method Begin(ghost call: int, requestID: string) returns (admission: RequestAdmission?)
      requires Valid() && call !in calls
      modifies this, Objects(admissions)
      ensures Valid() && Holds(call, requestID, admission)
      ensures forall a :: a in Objects(admissions) ==> a in old(Objects(admissions)) || fresh(a)
      ensures var id := Trim(requestID);
              if id == "" then
                admission == null && calls == old(calls) && ended == old(ended) && MarkersOf(admissions) == old(MarkersOf(admissions))
              else
                && admission != null && calls == old(calls)[call := requestID]
                && MarkersOf(admissions) == Begun(old(MarkersOf(admissions)), id)
                && ended == (if id in old(ended) then old(ended) else old(ended)[id := {}])
    {
      hide Consistent, Shared, MarkersOf, Trim, Objects;
      if Trim(requestID) == "" { return null; }
      admission := Join(call, requestID);
    }

    /** Counts the call in, under its request's marker or a new one. */
    method Join(ghost call: int, requestID: string) returns (admission: RequestAdmission)
      requires Valid() && call !in calls && Trim(requestID) != ""
      modifies this, Objects(admissions)
      ensures Valid() && calls == old(calls)[call := requestID] && call in held && held[call] == admission
      ensures Objects(admissions) == old(Objects(admissions)) + {admission}
      ensures admission in old(Objects(admissions)) || fresh(admission)
      ensures MarkersOf(admissions) == Begun(old(MarkersOf(admissions)), Trim(requestID))
      ensures ended == if Trim(requestID) in old(ended) then old(ended) else old(ended)[Trim(requestID) := {}]
    {
      hide Consistent, Shared, MarkersOf, Trim, Begun;
      ghost var was := MarkersOf(admissions);
      var id := Trim(requestID);
      BeginKeeps(was, calls, ended, call, requestID);
      EndedAre(was, calls, ended);
      MarkersAre(admissions);
      BegunAt(was, id);
      admission := CountIn(id);
      var next := admissions[id := admission];
      ObjectsWith(admissions, id, admission);
      SharedBegin(admissions, calls, held, call, requestID, admission);
      OneMarker(next, was, id);
      Install(call, requestID, next, admission);
    }

    /** Publishes the marker map with one more call in flight. */
    method Install(ghost call: int, ghost requestID: string, next: map<string, RequestAdmission>, ghost admission: RequestAdmission)
      requires Consistent(MarkersOf(next), calls[call := requestID],
                          if Trim(requestID) in ended then ended else ended[Trim(requestID) := {}])
      requires Shared(next, calls[call := requestID], held[call := admission])
      modifies this
      ensures Valid() && admissions == next && MarkersOf(next) == old(MarkersOf(next))
      ensures calls == old(calls)[call := requestID] && held == old(held)[call := admission]
      ensures ended == if Trim(requestID) in old(ended) then old(ended) else old(ended)[Trim(requestID) := {}]
    {
      hide Consistent, Shared, MarkersOf, Trim;
      ghost var markers := MarkersOf(next);
      assert forall a :: a in Objects(next) ==> a as object != this;
      admissions, calls, held := next, calls[call := requestID], held[call := admission];
      ended := if Trim(requestID) in ended then ended else ended[Trim(requestID) := {}];
      assert MarkersOf(next) == markers;
    }

    /** endAdmission: the last call to end takes the marker away. */
    method End(ghost call: int, requestID: string, admission: RequestAdmission?)
      requires Valid() && Holds(call, requestID, admission)
      modifies this, Objects(admissions)
      ensures Valid()
      ensures forall a :: a in Objects(admissions) ==> a in old(Objects(admissions))
      ensures if admission == null then
                calls == old(calls) && ended == old(ended) && MarkersOf(admissions) == old(MarkersOf(admissions))
              else
                && calls == old(calls) - {call} && Trim(requestID) in old(MarkersOf(admissions))
                && MarkersOf(admissions) == Ended(old(MarkersOf(admissions)), Trim(requestID))
                && ended == map id | id in old(ended) && id in MarkersOf(admissions) :: old(ended)[id]
    {
      hide Consistent, Shared, MarkersOf, Trim;
      if admission == null { return; }
      ghost var was := MarkersOf(admissions);
      var id := Trim(requestID);
      EndKeeps(was, calls, ended, call);
      EndedAre(was, calls, ended);
      EndedLeft(was, calls, ended, call);
      MarkersAre(admissions);
      OthersDiffer(admissions, calls, held, id);
      SharedEnd(admissions, calls, held, call, was[id].calls == 1);
      ghost var all := admissions;
      calls, held, ended := calls - {call}, held - {call}, map x | x in ended && x in Ended(was, id) :: ended[x];
      if admission.marker.calls == 1 {
        admissions := admissions - {id};
      }
      admission.marker := admission.marker.(calls := admission.marker.calls - 1);
      MarkersLeft(all, was, id);
    }

    /** Marks a request in flight as completed. */
    method MarkCompleted(requestID: string)
      requires Valid()
      modifies this`ended, Objects(admissions)
      ensures Valid() && calls == old(calls) && held == old(held)
      ensures var id := Trim(requestID);
              if id in admissions then
                && MarkersOf(admissions) == old(MarkersOf(admissions))[id := old(MarkersOf(admissions))[id].(completed := true)]
                && id in old(ended) && ended == old(ended)[id := old(ended)[id] + {requestID}]
              else MarkersOf(admissions) == old(MarkersOf(admissions)) && ended == old(ended)
    {
      hide Consistent, Shared, MarkersOf, Trim;
      ghost var was := MarkersOf(admissions);
      var id := Trim(requestID);
      if id in admissions {
        EndedAre(was, calls, ended);
        MarkersAre(admissions);
        OthersDiffer(admissions, calls, held, id);
        CompleteKeeps(was, calls, ended, requestID);
        var admission := admissions[id];
        admission.marker := admission.marker.(completed := true);
        ended := ended[id := ended[id] + {requestID}];
        OneMarker(admissions, was, id);
      }
    }
  }

  lemma MarkersAre(admissions: map<string, RequestAdmission>)
    ensures MarkersOf(admissions).Keys == admissions.Keys
    ensures forall id :: id in admissions ==> MarkersOf(admissions)[id] == admissions[id].marker
  {
  }

  lemma EndedAre(markers: map<string, Marker>, calls: Calls, ended: map<string, set<string>>)
    requires Consistent(markers, calls, ended)
    ensures ended.Keys == markers.Keys
    ensures forall id :: id in markers ==> markers[id].calls > 0
  {
    hide Trim, CallsOf;
  }

  /** The last call of a request is the last to spell its ID. */
  lemma EndedLeft(markers: map<string, Marker>, calls: Calls, ended: map<string, set<string>>, call: int)
    requires Consistent(markers, calls, ended) && call in calls
    ensures Trim(calls[call]) in markers
    ensures markers[Trim(calls[call])].calls == 1 ==>
              forall other :: other in calls && other != call ==> Trim(calls[other]) != Trim(calls[call])
  {
    hide Trim;
    var id := Trim(calls[call]);
    var mine := CallsOf(calls, id);
    assert call in mine;
    if |mine| == 1 {
      assert |mine - {call}| == 0;
      forall other | other in calls && other != call
        ensures Trim(calls[other]) != id
      {
        assert other !in mine - {call};
      }
    }
  }
}
