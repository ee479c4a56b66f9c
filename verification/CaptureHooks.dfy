/**
  The hooks and management commands of internal/plugin/traffic_capture.go that feed the
  capture ring. Each one is a critical section of its own.
 */
module CaptureHooks {
  import opened Text
  import opened Model
  import opened CaptureBodies
  import opened TrafficCapture

  datatype Listener = Listener(authID: string, authIndex: string, name: string, paused: bool)

  /** A request as the post-auth hook sees it, with this plugin's own decision about it. */
  datatype Request = Request(requestID: string, authID: string, authIndex: string, info: Info, body: Bytes,
                             terminate: bool, statusCode: int, responseBody: Bytes)

  /** A response or one of its chunks, as the response hooks see it. */
  datatype Response = Response(requestID: string, authID: string, upstream: Bytes, stream: bool, chunkIndex: int, body: Bytes,
                               statusCode: int, model: string)

  // ----- What each hook does to the ring ----------------------------------------------

  function IndexOf(entries: seq<Entry>, wanted: nat): (k: Option<nat>)
    ensures k.Some? ==> k.value < |entries| && entries[k.value].seq' == wanted
    ensures k.None? ==> forall i :: 0 <= i < |entries| ==> entries[i].seq' != wanted
  {
    if entries == [] then None
    else if entries[|entries| - 1].seq' == wanted then Some(|entries| - 1)
    else IndexOf(entries[..|entries| - 1], wanted)
  }

  /** Where the request in flight under this ID is kept. */
  function InFlight(r: Ring, id: string): (k: Option<nat>)
    ensures k.Some? ==> k.value < |r.entries| && id in r.inflight && r.entries[k.value].seq' == r.inflight[id]
  {
    if id in r.inflight then IndexOf(r.entries, r.inflight[id]) else None
  }

  const NO_INFO := Info("", "", "", "", "", false)

  function NewEntry(number: nat, id: string): Entry {
    Entry(number, 0, id, 0, "", "", "", NO_INFO, "", ZERO_TIME, None, 0, "", "", false, false, false, 0, NO_BODY, NO_BODY, NO_BODY, 0)
  }

  /** A retry on another account takes its response along: the old entry is closed. */
  function Departed(r: Ring, id: string, authID: string): Ring {
    var k := InFlight(r, id);
    if k.Some? && r.entries[k.value].authID != authID then
      Touched(r.(inflight := r.inflight - {id}), k.value, r.entries[k.value].(movedAway := true), 0)
    else r
  }

  function Opened(r: Ring, id: string): Ring {
    var number := r.last + 1;
    r.(last := number, entries := r.entries + [NewEntry(number, id)], inflight := if id != "" then r.inflight[id := number] else r.inflight)
  }

  /** The attempt recorded over the entry, keeping its number and counting up. */
  function Attempted(e: Entry, q: Request, name: string, now: Time, valid: Bytes -> bool): (Entry, int) {
    var body := BodyOf(q.body, valid);
    var response := if q.terminate then BodyOf(q.responseBody, valid) else NO_BODY;
    (Entry(e.seq', 0, e.requestID, e.attempts + 1, q.authID, q.authIndex, name, q.info, "", now, None,
           if q.terminate then q.statusCode else 0, "", "", q.terminate, q.terminate, false, 0, body, NO_BODY, response, e.bytes),
     |body.data| + |response.data| - e.bytes)
  }

  function Recorded(r: Ring, k: nat, q: Request, name: string, now: Time, valid: Bytes -> bool): Ring
    requires k < |r.entries|
  {
    var (e, delta) := Attempted(r.entries[k], q, name, now, valid);
    Touched(r, k, e, delta)
  }

  /** observeRequest; name is the listener that matches a request without an entry, if any. */
  function RequestSeen(r: Ring, q: Request, name: Option<string>, now: Time, valid: Bytes -> bool): Ring {
    var id := Trim(q.requestID);
    var left := Departed(r, id, q.authID);
    match InFlight(left, id)
    case Some(k) => Recorded(left, k, q, left.entries[k].authName, now, valid)
    case None =>
      if name.None? then left
      else Recorded(Opened(left, id), |left.entries|, q, name.value, now, valid)
  }

  /** The entry with one response, or one chunk of it, observed. */
  function Answered(e: Entry, p: Response, valid: Bytes -> bool): (Entry, int) {
    var upstream := if p.upstream != [] && e.upstreamBody.size == 0 then BodyOf(p.upstream, valid) else e.upstreamBody;
    var grown := if p.upstream != [] && e.upstreamBody.size == 0 then |upstream.data| else 0;
    var named := e.(upstreamBody := upstream, responded := true, responseModel := if p.model != "" then p.model else e.responseModel);
    if !p.stream then
      var body := BodyOf(p.body, valid);
      (named.(statusCode := if p.statusCode != 0 then p.statusCode else e.statusCode, responseBody := body),
       grown + |body.data| - |e.responseBody.data|)
    else if p.chunkIndex >= 0 then
      var body := Appended(e.responseBody, p.body);
      (named.(chunks := e.chunks + 1, responseBody := body), grown + |body.data| - |e.responseBody.data|)
    else (named, grown)
  }

  /** observeResponse. */
  function ResponseSeen(r: Ring, p: Response, valid: Bytes -> bool): Ring {
    match InFlight(r, Trim(p.requestID))
    case None => r
    case Some(k) =>
      var e := r.entries[k];
      if e.movedAway || (p.authID != "" && e.authID != "" && p.authID != e.authID) then r
      else
        var (answered, delta) := Answered(e, p, valid);
        Touched(r, k, answered, delta)
  }

  /** observeCompletion. */
  function CompletionSeen(r: Ring, requestID: string, outcome: string, error: string, statusCode: int, now: Time): Ring {
    var id := Trim(requestID);
    match InFlight(r, id)
    case None => r
    case Some(k) =>
      var e := r.entries[k];
      Touched(r.(inflight := r.inflight - {id}), k,
              e.(completedAt := Some(now), outcome := outcome, error := error,
                 statusCode := if statusCode != 0 then statusCode else e.statusCode), 0)
  }

  function Cleared(r: Ring): Ring {
    r.(entries := [], inflight := map[], total := 0, revision := r.revision + 1)
  }

  // ----- They keep the accounts and only move forward ---------------------------------

  lemma ForgetsOne(r: Ring, id: string)
    requires Accounted(r)
    ensures Accounted(r.(inflight := r.inflight - {id}))
  {
    hide Weighed;
    var less := r.(inflight := r.inflight - {id});
    forall x | x in less.inflight
      ensures exists k :: InFlightAt(less, x, k)
    {
      var k :| InFlightAt(r, x, k);
      assert InFlightAt(less, x, k);
    }
  }

  lemma DepartedIsSound(r: Ring, id: string, authID: string)
    requires Sound(r)
    ensures Sound(Departed(r, id, authID)) && Advances(r, Departed(r, id, authID))
  {
    hide Accounted, Shed, Touched, Advances, Weighed;
    ForgetsOne(r, id);
    SameAdvances(r);
    var k := InFlight(r, id);
    if k.Some? && r.entries[k.value].authID != authID {
      EntriesWeighed(r, k.value);
      var less, e := r.(inflight := r.inflight - {id}), r.entries[k.value].(movedAway := true);
      SameWeight(r.entries[k.value], e);
      TouchKeepsSound(less, k.value, e, 0);
      TouchAdvances(r, less, k.value, e, 0);
    }
  }

  lemma SameAdvances(r: Ring)
    ensures Advances(r, r)
  {
  }

  lemma EntriesWeighed(r: Ring, k: nat)
    requires Accounted(r) && k < |r.entries|
    ensures Weighed(r.entries[k])
  {
    hide Weighed, InFlightAt;
    assert r.entries[k] in r.entries;
  }

  lemma SameWeight(a: Entry, b: Entry)
    requires Weighed(a) && b.bytes == a.bytes && b.requestBody == a.requestBody && b.upstreamBody == a.upstreamBody && b.responseBody == a.responseBody
    ensures Weighed(b.(bytes := b.bytes + 0))
  {
  }

  lemma OpenedIsAccounted(r: Ring, id: string)
    requires Accounted(r)
    ensures Accounted(Opened(r, id))
    ensures forall i :: 0 <= i < |r.entries| ==> Opened(r, id).entries[i] in r.entries
  {
    hide Weighed, NewEntry, InFlightAt, BytesTo;
    var after, n := Opened(r, id), |r.entries|;
    NewIsWeighed(r.last + 1, id);
    OpenedBytes(r, id);
    forall e | e in after.entries
      ensures e in r.entries || e == NewEntry(r.last + 1, id)
    {
    }
    forall i | 0 <= i < n
      ensures after.entries[i] == r.entries[i] && r.entries[i] in r.entries
    {
    }
    forall x | x in after.inflight
      ensures x != "" && exists k :: InFlightAt(after, x, k)
    {
      OpenedInFlight(r, id, x);
    }
  }

  lemma OpenedBytes(r: Ring, id: string)
    ensures BytesOf(Opened(r, id).entries) == BytesOf(r.entries)
  {
    var after, n := Opened(r, id), |r.entries|;
    BytesPrefix(after.entries, r.entries, n);
    assert BytesTo(after.entries, n + 1) == BytesTo(after.entries, n) + after.entries[n].bytes;
  }

  lemma OpenedInFlight(r: Ring, id: string, x: string)
    requires x in Opened(r, id).inflight && (x in r.inflight ==> exists k :: InFlightAt(r, x, k))
    ensures exists k :: InFlightAt(Opened(r, id), x, k)
  {
    var after := Opened(r, id);
    if x == id && id != "" {
      assert InFlightAt(after, x, |r.entries|);
    } else {
      var k :| InFlightAt(r, x, k);
      assert InFlightAt(after, x, k);
    }
  }

  lemma NewIsWeighed(number: nat, id: string)
    ensures var e := NewEntry(number, id); Weighed(e) && e.seq' == number && e.revision == 0 && e.requestID == id && e.bytes == 0
  {
  }

  lemma RecordedIsSound(before: Ring, r: Ring, k: nat, q: Request, name: string, now: Time, valid: Bytes -> bool)
    requires Accounted(r) && k < |r.entries| && before.revision == r.revision
    requires forall i :: 0 <= i < |r.entries| && i != k ==> r.entries[i] in before.entries
    ensures Sound(Recorded(r, k, q, name, now, valid)) && Advances(before, Recorded(r, k, q, name, now, valid))
  {
    hide Accounted, Shed, Touched, Advances, BodyOf, InFlightAt;
    var (e, delta) := Attempted(r.entries[k], q, name, now, valid);
    assert Replaces(r, k, e, delta);
    hide Replaces, Attempted;
    TouchKeepsSound(r, k, e, delta);
    TouchAdvances(before, r, k, e, delta);
  }

  lemma RequestIsSound(r: Ring, q: Request, name: Option<string>, now: Time, valid: Bytes -> bool)
    requires Sound(r)
    ensures Sound(RequestSeen(r, q, name, now, valid)) && Advances(r, RequestSeen(r, q, name, now, valid))
  {
    hide Accounted, Departed, Recorded, Opened, InFlight, Advances, Trim;
    var id := Trim(q.requestID);
    var left := Departed(r, id, q.authID);
    DepartedIsSound(r, id, q.authID);
    var k := InFlight(left, id);
    if k.Some? {
      RecordedIsSound(left, left, k.value, q, left.entries[k.value].authName, now, valid);
      AdvancesOn(r, left, Recorded(left, k.value, q, left.entries[k.value].authName, now, valid));
    } else if name.Some? {
      OpenedIsAccounted(left, id);
      OpenedShape(left, id);
      RecordedIsSound(left, Opened(left, id), |left.entries|, q, name.value, now, valid);
      AdvancesOn(r, left, Recorded(Opened(left, id), |left.entries|, q, name.value, now, valid));
    }
  }

  lemma OpenedShape(r: Ring, id: string)
    ensures |Opened(r, id).entries| == |r.entries| + 1 && Opened(r, id).revision == r.revision
  {
  }

  lemma ResponseIsSound(r: Ring, p: Response, valid: Bytes -> bool)
    requires Sound(r)
    ensures Sound(ResponseSeen(r, p, valid)) && Advances(r, ResponseSeen(r, p, valid))
  {
    hide Accounted, Shed, Touched, Advances, BodyOf, Appended, InFlight, Weighed, Trim;
    SameAdvances(r);
    var k := InFlight(r, Trim(p.requestID));
    if k.Some? {
      EntriesWeighed(r, k.value);
      var (e, delta) := Answered(r.entries[k.value], p, valid);
      AnsweredWeighs(r.entries[k.value], p, valid);
      TouchKeepsSound(r, k.value, e, delta);
      TouchAdvances(r, r, k.value, e, delta);
    }
  }

  lemma AnsweredWeighs(e: Entry, p: Response, valid: Bytes -> bool)
    requires Weighed(e)
    ensures var (a, delta) := Answered(e, p, valid);
            a.bytes == e.bytes && a.seq' == e.seq' && a.requestID == e.requestID && Weighed(a.(bytes := a.bytes + delta))
  {
    hide TrimTail;
  }

  lemma CompletionIsSound(r: Ring, requestID: string, outcome: string, error: string, statusCode: int, now: Time)
    requires Sound(r)
    ensures var after := CompletionSeen(r, requestID, outcome, error, statusCode, now); Sound(after) && Advances(r, after)
  {
    hide Accounted, Shed, Touched, Advances, Weighed, Trim;
    var id := Trim(requestID);
    ForgetsOne(r, id);
    SameAdvances(r);
    var k := InFlight(r, id);
    if k.Some? {
      EntriesWeighed(r, k.value);
      var e := r.entries[k.value];
      var done := e.(completedAt := Some(now), outcome := outcome, error := error, statusCode := if statusCode != 0 then statusCode else e.statusCode);
      var less := r.(inflight := r.inflight - {id});
      SameWeight(e, done);
      TouchKeepsSound(less, k.value, done, 0);
      TouchAdvances(r, less, k.value, done, 0);
    }
  }

  // ----- When attempts were started -----------------------------------------------------

  lemma DepartedKeepsTimes(r: Ring, id: string, authID: string, from: Time, until: Time)
    requires Sound(r) && StartedIn(r, from, until)
    ensures StartedIn(Departed(r, id, authID), from, until)
  {
    hide Accounted, Touched, Weighed, Replaces;
    ForgetsOne(r, id);
    var k := InFlight(r, id);
    if k.Some? && r.entries[k.value].authID != authID {
      var less, e := r.(inflight := r.inflight - {id}), r.entries[k.value].(movedAway := true);
      MovedReplaces(r, id, k.value);
      assert forall i :: 0 <= i < |r.entries| ==> r.entries[i] in r.entries;
      TouchKeepsTimes(less, k.value, e, 0, from, until);
    }
  }

  lemma MovedReplaces(r: Ring, id: string, k: nat)
    requires Accounted(r) && k < |r.entries|
    ensures Replaces(r.(inflight := r.inflight - {id}), k, r.entries[k].(movedAway := true), 0)
  {
    hide Weighed, Accounted;
    EntriesWeighed(r, k);
    SameWeight(r.entries[k], r.entries[k].(movedAway := true));
  }

  /** A hook called within the span leaves no attempt started outside it. */
  lemma RequestKeepsTimes(r: Ring, q: Request, name: Option<string>, now: Time, valid: Bytes -> bool, from: Time, until: Time)
    requires Sound(r) && StartedIn(r, from, until) && from <= now < until
    ensures StartedIn(RequestSeen(r, q, name, now, valid), from, until)
  {
    hide Accounted, Departed, Opened, InFlight, Trim, Recorded;
    var id := Trim(q.requestID);
    var left := Departed(r, id, q.authID);
    DepartedIsSound(r, id, q.authID);
    DepartedKeepsTimes(r, id, q.authID, from, until);
    assert forall i :: 0 <= i < |left.entries| ==> left.entries[i] in left.entries;
    var k := InFlight(left, id);
    if k.Some? {
      RecordedKeepsTimes(left, k.value, q, left.entries[k.value].authName, now, valid, from, until);
    } else if name.Some? {
      OpenedIsAccounted(left, id);
      OpenedShape(left, id);
      RecordedKeepsTimes(Opened(left, id), |left.entries|, q, name.value, now, valid, from, until);
    }
  }

  lemma RecordedKeepsTimes(r: Ring, k: nat, q: Request, name: string, now: Time, valid: Bytes -> bool, from: Time, until: Time)
    requires Accounted(r) && k < |r.entries| && from <= now < until
    requires forall i :: 0 <= i < |r.entries| && i != k ==> from <= r.entries[i].startedAt < until
    ensures StartedIn(Recorded(r, k, q, name, now, valid), from, until)
  {
    hide Accounted, Touched, BodyOf, StartedIn;
    var (e, delta) := Attempted(r.entries[k], q, name, now, valid);
    assert Replaces(r, k, e, delta);
    TouchKeepsTimes(r, k, e, delta, from, until);
  }

  /** Responses and completions start nothing. */
  lemma AnswersKeepTimes(r: Ring, p: Response, valid: Bytes -> bool, requestID: string, outcome: string, error: string,
                         statusCode: int, now: Time, from: Time, until: Time)
    requires Sound(r) && StartedIn(r, from, until)
    ensures StartedIn(ResponseSeen(r, p, valid), from, until)
    ensures StartedIn(CompletionSeen(r, requestID, outcome, error, statusCode, now), from, until)
  {
    hide Accounted, Touched, InFlight, Weighed, Trim, Replaces;
    assert forall i :: 0 <= i < |r.entries| ==> r.entries[i] in r.entries;
    var k := InFlight(r, Trim(p.requestID));
    if k.Some? {
      AnswerReplaces(r, k.value, p, valid);
      var (e, delta) := Answered(r.entries[k.value], p, valid);
      assert e.startedAt == r.entries[k.value].startedAt;
      TouchKeepsTimes(r, k.value, e, delta, from, until);
    }
    var id := Trim(requestID);
    var l := InFlight(r, id);
    if l.Some? {
      var e := r.entries[l.value];
      var done := e.(completedAt := Some(now), outcome := outcome, error := error, statusCode := if statusCode != 0 then statusCode else e.statusCode);
      var less := r.(inflight := r.inflight - {id});
      ForgetsOne(r, id);
      EntriesWeighed(r, l.value);
      SameWeight(e, done);
      assert Replaces(less, l.value, done, 0) by { hide Weighed; DoneReplaces(less, l.value, done); }
      TouchKeepsTimes(less, l.value, done, 0, from, until);
    }
  }

  lemma AnswerReplaces(r: Ring, k: nat, p: Response, valid: Bytes -> bool)
    requires Accounted(r) && k < |r.entries|
    ensures var (e, delta) := Answered(r.entries[k], p, valid); Replaces(r, k, e, delta)
  {
    hide Weighed, Accounted, Answered;
    EntriesWeighed(r, k);
    AnsweredWeighs(r.entries[k], p, valid);
  }

  lemma DoneReplaces(r: Ring, k: nat, e: Entry)
    requires k < |r.entries| && Weighed(e.(bytes := e.bytes + 0))
    requires e.bytes == r.entries[k].bytes && e.seq' == r.entries[k].seq' && e.requestID == r.entries[k].requestID
    ensures Replaces(r, k, e, 0)
  {
    hide Weighed;
  }

  // ----- The capture ------------------------------------------------------------------

  predicate Armed(listeners: seq<Listener>) {
    exists i :: 0 <= i < |listeners| && !listeners[i].paused
  }

  function Matching(listeners: seq<Listener>, authID: string, authIndex: string): (r: Option<Listener>)
    ensures r.Some? ==> r.value in listeners && !r.value.paused
  {
    if listeners == [] then None
    else if !listeners[0].paused && ((listeners[0].authID != "" && authID == listeners[0].authID) ||
                                     (authIndex != "" && authIndex == listeners[0].authIndex)) then Some(listeners[0])
    else Matching(listeners[1..], authID, authIndex)
  }

  lemma {:induction false} PausedMatchNothing(listeners: seq<Listener>, authID: string, authIndex: string)
    requires !Armed(listeners)
    ensures Matching(listeners, authID, authIndex).None?
  {
    if listeners != [] {
      assert forall i :: 0 <= i < |listeners[1..]| ==> listeners[1..][i] == listeners[i + 1];
      PausedMatchNothing(listeners[1..], authID, authIndex);
    }
  }

  /** Whether listening is still leased: an unattended page stops it at the next look. */
  predicate Leased(listeners: seq<Listener>, expires: Time, now: Time) {
    listeners != [] && now <= expires
  }

  /** At most one listener per account, and at most 64 of them. */
  ghost predicate OnePerAccount(listeners: seq<Listener>) {
    && |listeners| <= 64
    && forall i, j :: 0 <= i < j < |listeners| ==> listeners[i].authIndex != listeners[j].authIndex
  }

  ghost predicate Listens(listeners: seq<Listener>, authIndex: string) {
    exists i :: 0 <= i < |listeners| && listeners[i].authIndex == authIndex
  }

  /** The listeners of other accounts, in their order. */
  function Others(listeners: seq<Listener>, authIndex: string): (r: seq<Listener>)
    ensures |r| <= |listeners| && forall l :: l in r <==> l in listeners && l.authIndex != authIndex
  {
    if listeners == [] then [] else
    var front, last := Others(listeners[..|listeners| - 1], authIndex), listeners[|listeners| - 1];
    assert listeners == listeners[..|listeners| - 1] + [last];
    if last.authIndex == authIndex then front else front + [last]
  }

  lemma {:induction false} OthersStayApart(listeners: seq<Listener>, authIndex: string)
    requires OnePerAccount(listeners)
    ensures OnePerAccount(Others(listeners, authIndex))
  {
    if listeners != [] {
      var rest, last := listeners[..|listeners| - 1], listeners[|listeners| - 1];
      OthersStayApart(rest, authIndex);
      var front := Others(rest, authIndex);
      forall i | 0 <= i < |front|
        ensures front[i].authIndex != last.authIndex
      {
        assert front[i] in rest;
      }
    }
  }

  const EMPTY_RING := Ring([], map[], 0, 0, 0)

  class Capture {
    var ring: Ring
    var listeners: seq<Listener>
    var expires: Time
    /** Let the hooks skip decoding while nothing is captured. */
    var armed: bool
    var pending: nat

    ghost predicate Valid()
      reads this
    {
      && Sound(ring) && Dated(ring) && pending == |ring.inflight| && (armed <==> Armed(listeners))
      && OnePerAccount(listeners)
    }

    constructor ()
      ensures Valid() && ring == EMPTY_RING && listeners == []
    {
      ring, listeners, expires, armed, pending := EMPTY_RING, [], ZERO_TIME, false, 0;
    }

    /** touchLocked: a new revision, exact bytes, and whatever no longer fits gone. */
    method TouchLocked(k: nat, e: Entry, delta: int)
      requires k < |ring.entries|
      modifies this`ring, this`pending
      ensures ring == Touched(old(ring), k, e, delta) && pending == |ring.inflight|
    {
      hide Overfull, Evict;
      var next := ring.revision + 1;
      ring := ring.(revision := next, total := ring.total + delta, entries := ring.entries[k := e.(revision := next, bytes := e.bytes + delta)]);
      ghost var bumped := ring;
      while |ring.entries| > 1 && Overfull(ring)
        invariant Shed(ring) == Shed(bumped)
        decreases |ring.entries|
      {
        EvictShrinks(ring);
        ring := Evict(ring);
      }
      NotOverfull(ring);
      pending := |ring.inflight|;
    }

    /** activeLocked. */
    method ActiveLocked(now: Time) returns (active: bool)
      modifies this`listeners, this`armed
      ensures active <==> old(Leased(listeners, expires, now))
      ensures listeners == (if active then old(listeners) else [])
      ensures armed == if active || old(listeners) == [] then old(armed) else false
    {
      if listeners == [] { return false; }
      if now > expires {
        listeners, armed := [], false;
        return false;
      }
      return true;
    }

    /** Who may start an entry for this request now. */
    ghost function Watcher(q: Request, now: Time): Option<string>
      reads this
    {
      if !Leased(listeners, expires, now) then None
      else
        match Matching(listeners, q.authID, q.authIndex)
        case None => None
        case Some(l) => Some(l.name)
    }

    method ObserveRequest(q: Request, now: Time, valid: Bytes -> bool)
      requires Valid()
      modifies this
      ensures Valid() && Advances(old(ring), ring) && expires == old(expires)
      ensures ring == RequestSeen(old(ring), q, old(Watcher(q, now)), now, valid)
      ensures listeners == old(listeners) || (listeners == [] && !old(Leased(listeners, expires, now)))
    {
      hide Sound, Dated, Advances, Touched, Trim, Attempted;
      ghost var was, watcher := ring, Watcher(q, now);
      RequestIsSound(ring, q, watcher, now, valid);
      DatedStays(ring, RequestSeen(ring, q, watcher, now, valid));
      if !armed && pending == 0 {
        return;
      }
      var id := Trim(q.requestID);
      var k := InFlight(ring, id);
      if k.Some? && ring.entries[k.value].authID != q.authID {
        var e := ring.entries[k.value];
        ring := ring.(inflight := ring.inflight - {id});
        TouchLocked(k.value, e.(movedAway := true), 0);
        LeftInFlight(was, id, q.authID);
        k := None;
      }
      assert ring == Departed(was, id, q.authID) && k == InFlight(ring, id);
      var name: string;
      if k.None? {
        var active := ActiveLocked(now);
        if !active { return; }
        var listener := Matching(listeners, q.authID, q.authIndex);
        if listener.None? { return; }
        name := listener.value.name;
        k := Some(|ring.entries|);
        ring := Opened(ring, id);
      } else {
        name := ring.entries[k.value].authName;
      }
      var (e, delta) := Attempted(ring.entries[k.value], q, name, now, valid);
      TouchLocked(k.value, e, delta);
    }

    method ObserveResponse(p: Response, valid: Bytes -> bool)
      requires Valid()
      modifies this`ring, this`pending
      ensures Valid() && Advances(old(ring), ring)
      ensures ring == ResponseSeen(old(ring), p, valid)
    {
      hide Sound, Dated, Advances, Touched, Trim, Shed, Answered;
      ResponseIsSound(ring, p, valid);
      DatedStays(ring, ResponseSeen(ring, p, valid));
      if pending == 0 {
        return;
      }
      var k := InFlight(ring, Trim(p.requestID));
      if k.None? { return; }
      var e := ring.entries[k.value];
      if e.movedAway || (p.authID != "" && e.authID != "" && p.authID != e.authID) { return; }
      var answered, delta := AnswerEntry(e, p, valid);
      TouchLocked(k.value, answered, delta);
    }

    static method AnswerEntry(before: Entry, p: Response, valid: Bytes -> bool) returns (e: Entry, delta: int)
      ensures (e, delta) == Answered(before, p, valid)
    {
      hide BodyOf;
      e, delta := before, 0;
      if p.upstream != [] && e.upstreamBody.size == 0 {
        e := e.(upstreamBody := BodyOf(p.upstream, valid));
        delta := delta + |e.upstreamBody.data|;
      }
      e := e.(responded := true);
      if p.model != "" {
        e := e.(responseModel := p.model);
      }
      if !p.stream {
        if p.statusCode != 0 {
          e := e.(statusCode := p.statusCode);
        }
        delta := delta - |e.responseBody.data|;
        e := e.(responseBody := BodyOf(p.body, valid));
        delta := delta + |e.responseBody.data|;
      } else if p.chunkIndex >= 0 {
        var body, grown := AppendBody(e.responseBody, p.body);
        e := e.(chunks := e.chunks + 1, responseBody := body);
        delta := delta + grown;
      }
    }

    method ObserveCompletion(requestID: string, outcome: string, error: string, statusCode: int, now: Time)
      requires Valid()
      modifies this`ring, this`pending
      ensures Valid() && Advances(old(ring), ring)
      ensures ring == CompletionSeen(old(ring), requestID, outcome, error, statusCode, now)
    {
      hide Sound, Dated, Advances, Touched, Trim, Shed;
      CompletionIsSound(ring, requestID, outcome, error, statusCode, now);
      DatedStays(ring, CompletionSeen(ring, requestID, outcome, error, statusCode, now));
      if pending == 0 {
        return;
      }
      var id := Trim(requestID);
      var k := InFlight(ring, id);
      if k.None? { return; }
      ring := ring.(inflight := ring.inflight - {id});
      var e := ring.entries[k.value].(completedAt := Some(now), outcome := outcome, error := error);
      if statusCode != 0 {
        e := e.(statusCode := statusCode);
      }
      TouchLocked(k.value, e, 0);
    }

    /** clearTrafficCapture: everything goes, and the revision tells. */
    method Clear()
      requires Valid()
      modifies this`ring, this`pending
      ensures Valid() && ring == Cleared(old(ring)) && Advances(old(ring), ring)
    {
      ring := ring.(entries := [], total := 0, inflight := map[], revision := ring.revision + 1);
      pending := 0;
      assert BytesOf([]) == 0;
    }

    /** watchTrafficCapture: adds a listener, or pauses or resumes one; entries are left alone. */
    method Watch(authID: string, authIndex: string, name: string, paused: bool, now: Time) returns (ok: bool)
      requires Valid()
      modifies this`listeners, this`armed, this`expires
      ensures Valid()
      ensures var was, one := if now <= old(expires) then old(listeners) else [], Listener(authID, authIndex, name, paused);
              && (ok <==> Listens(was, authIndex) || |was| < 64)
              && (ok && !Listens(was, authIndex) ==> listeners == was + [one])
              && (ok && Listens(was, authIndex) ==>
                    |listeners| == |was| &&
                    forall j :: 0 <= j < |was| ==> listeners[j] == if was[j].authIndex == authIndex then one else was[j])
              && (!ok ==> listeners == was)
      ensures expires == if ok then now + 45 * SECOND else old(expires)
    {
      hide Sound, Dated;
      var _ := ActiveLocked(now);
      ghost var was := listeners;
      var i := 0;
      while i < |listeners| && listeners[i].authIndex != authIndex
        invariant 0 <= i <= |listeners|
        invariant forall j :: 0 <= j < i ==> listeners[j].authIndex != authIndex
      {
        i := i + 1;
      }
      if i == |listeners| {
        if |listeners| >= MAX_LISTENERS { return false; }
        listeners := listeners + [Listener("", authIndex, "", false)];
      }
      listeners := listeners[i := Listener(authID, authIndex, name, paused)];
      expires := now + LEASE;
      armed := Armed(listeners);
      return true;
    }

    /** stopTrafficCapture: removes one listener, or all of them without an index. */
    method Stop(authIndex: string)
      requires Valid()
      modifies this`listeners, this`armed
      ensures Valid()
      ensures listeners == if Trim(authIndex) == "" then [] else Others(old(listeners), Trim(authIndex))
    {
      hide Sound, Dated, Trim;
      var index := Trim(authIndex);
      var kept: seq<Listener> := [];
      if index != "" {
        for i := 0 to |listeners|
          invariant kept == Others(listeners[..i], index)
        {
          assert listeners[..i + 1][..i] == listeners[..i];
          if listeners[i].authIndex != index {
            kept := kept + [listeners[i]];
          }
        }
        assert listeners[..|listeners|] == listeners;
        OthersStayApart(listeners, index);
      }
      listeners := kept;
      armed := Armed(listeners);
    }
  }

  lemma EvictShrinks(r: Ring)
    requires |r.entries| > 1
    ensures |Evict(r).entries| == |r.entries| - 1
    ensures Overfull(r) ==> Shed(r) == Shed(Evict(r))
  {
  }

  lemma NotOverfull(r: Ring)
    requires !(|r.entries| > 1 && Overfull(r))
    ensures Shed(r) == r
  {
  }

  /** A moved-away request is no longer in flight. */
  lemma LeftInFlight(r: Ring, id: string, authID: string)
    requires InFlight(r, id).Some? && r.entries[InFlight(r, id).value].authID != authID
    ensures InFlight(Departed(r, id, authID), id) == None
  {
    hide Overfull;
    ShedForgets(Bumped(r.(inflight := r.inflight - {id}), InFlight(r, id).value,
                       r.entries[InFlight(r, id).value].(movedAway := true), 0), id);
  }

  lemma {:induction false} ShedForgets(r: Ring, id: string)
    requires id !in r.inflight
    ensures id !in Shed(r).inflight
    decreases |r.entries|
  {
    if Overfull(r) { ShedForgets(Evict(r), id); }
  }

  /** With every listener paused and nothing in flight, the hook would record nothing anyway. */
  lemma IdleSkipsNothing(r: Ring, q: Request, listeners: seq<Listener>, expires: Time, now: Time, valid: Bytes -> bool)
    requires !Armed(listeners) && |r.inflight| == 0
    ensures Matching(listeners, q.authID, q.authIndex).None?
    ensures RequestSeen(r, q, None, now, valid) == r
  {
    hide Trim, Recorded;
    PausedMatchNothing(listeners, q.authID, q.authIndex);
    assert |r.inflight| == |r.inflight.Keys|;
  }
}
