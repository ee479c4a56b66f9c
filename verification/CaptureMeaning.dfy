/**
  What the capture retains and records, in the terms of requests, responses and entries: which
  entries are shed, which bytes of a body are kept, and what each hook writes into which entry.
 */
module CaptureMeaning {
  import opened Text
  import opened Model
  import opened CaptureBodies
  import opened TrafficCapture
  import opened CaptureHooks

  // ----- Shedding -------------------------------------------------------------------------

  /** At most 100 entries and 48 mebibytes of bodies; a single entry always fits. */
  ghost predicate Fits(entries: seq<Entry>) {
    |entries| <= 1 || (|entries| <= 100 && BytesOf(entries) <= 48 * 1024 * 1024)
  }

  ghost predicate Retained(entries: seq<Entry>, number: nat) {
    exists e :: e in entries && e.seq' == number
  }

  /** The n oldest entries are gone, no more than it took, and only the requests kept by them are no longer in flight. */
  ghost predicate Dropped(r: Ring, t: Ring, n: nat) {
    && n <= |r.entries| && t.entries == r.entries[n..] && Fits(t.entries) && (n > 0 ==> !Fits(r.entries[n - 1..]))
    && t.total == BytesOf(t.entries) && t.revision == r.revision && t.last == r.last
    && (forall id :: id in t.inflight <==> id in r.inflight && Retained(t.entries, r.inflight[id]))
    && (forall id :: id in t.inflight ==> t.inflight[id] == r.inflight[id])
  }

  lemma AllRetained(r: Ring)
    requires Accounted(r) && !Overfull(r)
    ensures Dropped(r, r, 0)
  {
    hide Weighed, BytesTo;
    assert r.entries[0..] == r.entries;
    forall id | id in r.inflight
      ensures Retained(r.entries, r.inflight[id])
    {
      var k :| InFlightAt(r, id, k);
      assert r.entries[k] in r.entries;
    }
  }

  lemma OneMoreDropped(r: Ring, t: Ring, n: nat)
    requires Accounted(r) && Overfull(r) && Dropped(Evict(r), t, n)
    ensures Dropped(r, t, n + 1)
  {
    hide Accounted, BytesTo, Retained, Fits, Evict;
    EvictOne(r);
    OverfullDoesNotFit(r);
    var rest := r.entries[1..];
    assert rest[n..] == r.entries[n + 1..];
    if n > 0 { assert rest[n - 1..] == r.entries[n..]; } else { assert r.entries[0..] == r.entries; }
    forall id | id in r.inflight && Retained(t.entries, r.inflight[id])
      ensures id in Evict(r).inflight
    {
      StillInFlight(r, t.entries, n, id);
    }
  }

  lemma EvictOne(r: Ring)
    requires r.entries != []
    ensures var e := Evict(r);
            && e.entries == r.entries[1..] && e.revision == r.revision && e.last == r.last
            && forall id :: id in e.inflight ==> id in r.inflight && e.inflight[id] == r.inflight[id]
  {
  }

  lemma OverfullDoesNotFit(r: Ring)
    requires Accounted(r) && Overfull(r)
    ensures |r.entries| > 1 && !Fits(r.entries)
  {
    hide BytesTo, Weighed, InFlightAt;
  }

  /** A request whose entry is retained is not the one whose entry went. */
  lemma StillInFlight(r: Ring, kept: seq<Entry>, n: nat, id: string)
    requires Accounted(r) && n + 1 <= |r.entries| && kept == r.entries[n + 1..] && id in r.inflight && Retained(kept, r.inflight[id])
    ensures id in Evict(r).inflight
  {
    hide Weighed, BytesTo, InFlightAt;
    var e :| e in kept && e.seq' == r.inflight[id];
    var i :| 0 <= i < |kept| && kept[i] == e;
    assert r.entries[n + 1 + i] == e;
    assert r.entries[0].seq' < e.seq';
  }

  /** The ring sheds its oldest entries, as few as it takes. */
  lemma {:induction false} ShedExactly(r: Ring) returns (n: nat)
    requires Accounted(r)
    ensures Dropped(r, Shed(r), n)
    decreases |r.entries|
  {
    hide Dropped, Accounted;
    if Overfull(r) {
      EvictKeepsAccounts(r);
      var less := ShedExactly(Evict(r));
      OneMoreDropped(r, Shed(r), less);
      n := less + 1;
    } else {
      AllRetained(r);
      n := 0;
    }
  }

  // ----- Bodies ---------------------------------------------------------------------------

  /** What is left without the last c bytes, fewer than four, is valid text. */
  ghost predicate IsText(bytes: Bytes, valid: Bytes -> bool, c: nat) {
    c < 4 && c < |bytes| && valid(bytes[..|bytes| - c])
  }

  ghost predicate LongestText(bytes: Bytes, valid: Bytes -> bool, text: Bytes) {
    exists c: nat :: IsText(bytes, valid, c) && text == bytes[..|bytes| - c] && forall d: nat :: d < c ==> !IsText(bytes, valid, d)
  }

  ghost predicate NoText(bytes: Bytes, valid: Bytes -> bool) {
    forall c: nat :: !IsText(bytes, valid, c)
  }

  lemma {:induction false} TailTrimmed(bytes: Bytes, valid: Bytes -> bool, cut: nat)
    requires cut <= 4 && forall d: nat :: d < cut ==> !IsText(bytes, valid, d)
    ensures var r := TrimTail(bytes, valid, cut);
            if NoText(bytes, valid) then r == bytes else LongestText(bytes, valid, r)
    decreases 4 - cut
  {
    if cut < 4 && cut < |bytes| {
      if IsText(bytes, valid, cut) {
      } else {
        TailTrimmed(bytes, valid, cut + 1);
      }
    } else {
      forall c: nat
        ensures !IsText(bytes, valid, c)
      {
        if c < cut { assert !IsText(bytes, valid, c); }
      }
    }
  }

  /**
    A body of at most two mebibytes is kept whole if it is text and dropped as binary otherwise;
    of a longer one the beginning up to that limit is kept, without a character the limit splits.
   */
  lemma BodyMeans(raw: Bytes, valid: Bytes -> bool)
    ensures var b := BodyOf(raw, valid);
            && b.size == |raw| && (b.truncated <==> |raw| > 2_097_152)
            && (|raw| <= 2_097_152 ==> (b.binary <==> raw != [] && !valid(raw)) && b.data == if b.binary then [] else raw)
            && (|raw| > 2_097_152 ==>
                  var first := raw[..2_097_152];
                  (b.binary <==> NoText(first, valid)) && if b.binary then b.data == [] else LongestText(first, valid, b.data))
  {
    hide TrimTail, LongestText;
    if |raw| > 2_097_152 {
      var first := raw[..2_097_152];
      TailTrimmed(first, valid, 0);
      assert first[..|first| - 0] == first;
      assert IsText(first, valid, 0) <==> valid(first);
      if !NoText(first, valid) { TextIsValid(first, valid, TrimTail(first, valid, 0)); }
    }
  }

  lemma TextIsValid(bytes: Bytes, valid: Bytes -> bool, text: Bytes)
    requires LongestText(bytes, valid, text)
    ensures valid(text)
  {
  }

  // ----- What the hooks write -------------------------------------------------------------

  /** The entry of a request in flight is found by its number, which no other entry has. */
  lemma InFlightExactly(r: Ring, id: string, k: nat)
    requires Accounted(r)
    ensures InFlight(r, id) == Some(k) <==> id in r.inflight && k < |r.entries| && r.entries[k].seq' == r.inflight[id]
    ensures InFlight(r, id).None? <==> id !in r.inflight
  {
    hide Weighed, BytesTo, IndexOf;
    if id in r.inflight { var j :| InFlightAt(r, id, j); }
  }

  /** e is written over the entry of that number under a new revision; every other retained entry is as it was. */
  ghost predicate Written(r: Ring, t: Ring, number: nat, e: Entry) {
    && r.revision < t.revision
    && forall x :: x in t.entries ==>
         if x.seq' == number then r.revision < x.revision && x == e.(revision := x.revision, bytes := x.bytes) else x in r.entries
  }

  lemma TouchWrites(r: Ring, k: nat, e: Entry, delta: int) returns (n: nat)
    requires Accounted(r) && k < |r.entries| && Replaces(r, k, e, delta)
    ensures Written(r, Touched(r, k, e, delta), e.seq', e)
    ensures Dropped(Bumped(r, k, e, delta), Touched(r, k, e, delta), n)
    ensures k == |r.entries| - 1 ==> var t := Touched(r, k, e, delta); t.entries != [] && t.entries[|t.entries| - 1].seq' == e.seq'
  {
    hide Accounted, Shed, Dropped, Replaces, Written;
    BumpStaysAccounted(r, k, e, delta);
    var b := Bumped(r, k, e, delta);
    n := ShedExactly(b);
    TrimmedIsSound(b);
    BumpWrites(r, k, e, delta, Shed(b), n);
  }

  lemma BumpWrites(r: Ring, k: nat, e: Entry, delta: int, t: Ring, n: nat)
    requires Accounted(r) && k < |r.entries| && Replaces(r, k, e, delta) && Dropped(Bumped(r, k, e, delta), t, n) && t.entries != []
    ensures Written(r, t, e.seq', e)
    ensures k == |r.entries| - 1 ==> t.entries[|t.entries| - 1].seq' == e.seq'
  {
    hide Accounted, Replaces, Dropped;
    var b := Bumped(r, k, e, delta);
    BumpShape(r, k, e, delta, t, n);
    forall x | x in t.entries
      ensures if x.seq' == e.seq' then x == b.entries[k] else x in r.entries
    {
      var i :| 0 <= i < |t.entries| && t.entries[i] == x;
      assert b.entries[n + i] == x;
      if n + i != k { NumbersDiffer(r, k, n + i); }
    }
    assert t.entries[|t.entries| - 1] == b.entries[|b.entries| - 1];
  }

  lemma BumpShape(r: Ring, k: nat, e: Entry, delta: int, t: Ring, n: nat)
    requires k < |r.entries| && Replaces(r, k, e, delta) && Dropped(Bumped(r, k, e, delta), t, n)
    ensures e.seq' == r.entries[k].seq' && t.revision == r.revision + 1
    ensures n <= |r.entries| && t.entries == r.entries[k := e.(revision := r.revision + 1, bytes := e.bytes + delta)][n..]
  {
    hide Weighed, BytesTo, Fits, Retained;
  }

  lemma NumbersDiffer(r: Ring, k: nat, i: nat)
    requires Accounted(r) && k < |r.entries| && i < |r.entries| && i != k
    ensures r.entries[i].seq' != r.entries[k].seq' && r.entries[i] in r.entries
  {
    hide Weighed, BytesTo, InFlightAt;
  }

  /** A new attempt of a request, as the post-auth hook sees it; a refused one is answered with it. */
  ghost predicate Attempt(e: Entry, q: Request, name: string, now: Time, valid: Bytes -> bool) {
    && e.authID == q.authID && e.authIndex == q.authIndex && e.authName == name && e.info == q.info
    && e.startedAt == now && e.completedAt == None && e.responseModel == "" && e.outcome == "" && e.error == "" && !e.movedAway && e.chunks == 0
    && e.requestBody == BodyOf(q.body, valid) && e.upstreamBody == NO_BODY
    && (q.terminate ==> e.rejected && e.responded && e.statusCode == q.statusCode && e.responseBody == BodyOf(q.responseBody, valid))
    && (!q.terminate ==> !e.rejected && !e.responded && e.statusCode == 0 && e.responseBody == NO_BODY)
  }

  /** The newest entry is the first attempt of a request that had none, numbered next, and in flight if it has an ID. */
  ghost predicate Started(r: Ring, t: Ring, id: string, q: Request, name: string, now: Time, valid: Bytes -> bool) {
    && t.last == r.last + 1 && t.entries != []
    && var e := t.entries[|t.entries| - 1];
       && e.seq' == r.last + 1 && e.requestID == id && e.attempts == 1 && r.revision < e.revision && Attempt(e, q, name, now, valid)
       && (id != "" ==> id in t.inflight && t.inflight[id] == e.seq')
  }

  /** Its entry, if retained, shows one more attempt of the same request. */
  ghost predicate Repeated(r: Ring, t: Ring, was: Entry, q: Request, now: Time, valid: Bytes -> bool) {
    && t.last == r.last
    && forall x :: x in t.entries ==>
         if x.seq' == was.seq' then
           r.revision < x.revision && x.requestID == was.requestID && x.attempts == was.attempts + 1 && Attempt(x, q, was.authName, now, valid)
         else x in r.entries
  }

  lemma AttemptedMeans(r: Ring, k: nat, q: Request, name: string, now: Time, valid: Bytes -> bool)
    requires Accounted(r) && k < |r.entries|
    ensures var (e, delta) := Attempted(r.entries[k], q, name, now, valid);
            && Replaces(r, k, e, delta) && e.seq' == r.entries[k].seq' && e.requestID == r.entries[k].requestID
            && e.attempts == r.entries[k].attempts + 1 && Attempt(e, q, name, now, valid)
  {
    hide BodyOf, BytesTo, InFlightAt;
    EntriesWeighed(r, k);
    BodiesFit(q.body, valid);
    BodiesFit(q.responseBody, valid);
  }

  lemma BodiesFit(raw: Bytes, valid: Bytes -> bool)
    ensures |BodyOf(raw, valid).data| <= MAX_BODY_BYTES
  {
    hide BodyOf;
  }

  lemma AttemptKept(e: Entry, x: Entry, q: Request, name: string, now: Time, valid: Bytes -> bool)
    requires Attempt(e, q, name, now, valid) && x == e.(revision := x.revision, bytes := x.bytes)
    ensures Attempt(x, q, name, now, valid) && x.attempts == e.attempts && x.requestID == e.requestID && x.seq' == e.seq'
  {
    hide BodyOf;
  }

  /** The same account tries again: one more attempt in the same entry. */
  lemma RepeatMeans(r: Ring, q: Request, name: Option<string>, now: Time, valid: Bytes -> bool, k: nat)
    requires Sound(r) && InFlight(r, Trim(q.requestID)) == Some(k) && r.entries[k].authID == q.authID
    ensures Repeated(r, RequestSeen(r, q, name, now, valid), r.entries[k], q, now, valid)
  {
    hide Accounted, Attempted, Touched, Trim, Attempt, Written, BodyOf, InFlight, Bumped, Replaces;
    var was := r.entries[k];
    AttemptedMeans(r, k, q, was.authName, now, valid);
    var (e, delta) := Attempted(was, q, was.authName, now, valid);
    var n := TouchWrites(r, k, e, delta);
    var t := Touched(r, k, e, delta);
    WrittenOver(r, t, e, q, was.authName, now, valid);
    LastStays(r, k, e, delta, n);
  }

  lemma LastStays(r: Ring, k: nat, e: Entry, delta: int, n: nat)
    requires k < |r.entries| && Dropped(Bumped(r, k, e, delta), Touched(r, k, e, delta), n)
    ensures Touched(r, k, e, delta).last == r.last
  {
    hide Fits, Retained, Shed;
  }

  lemma WrittenOver(r: Ring, t: Ring, e: Entry, q: Request, name: string, now: Time, valid: Bytes -> bool)
    requires Written(r, t, e.seq', e) && Attempt(e, q, name, now, valid)
    ensures forall x :: x in t.entries ==>
              if x.seq' == e.seq' then
                r.revision < x.revision && x.requestID == e.requestID && x.attempts == e.attempts && Attempt(x, q, name, now, valid)
              else x in r.entries
  {
    hide Attempt;
    forall x | x in t.entries && x.seq' == e.seq'
      ensures Attempt(x, q, name, now, valid)
    {
      AttemptKept(e, x, q, name, now, valid);
    }
  }

  /** A request without an entry gets one if somebody watches its account, and leaves the ring alone otherwise. */
  lemma FirstMeans(r: Ring, q: Request, name: Option<string>, now: Time, valid: Bytes -> bool)
    requires Sound(r) && InFlight(r, Trim(q.requestID)).None?
    ensures var t := RequestSeen(r, q, name, now, valid);
            if name.None? then t == r
            else Started(r, t, Trim(q.requestID), q, name.value, now, valid) && forall x :: x in t.entries && x.seq' != r.last + 1 ==> x in r.entries
  {
    hide Accounted, Attempted, Touched, Trim, Attempt, Written, BodyOf, Bumped, Replaces, Opened;
    var id := Trim(q.requestID);
    if name.Some? { StartMeans(r, id, q, name.value, now, valid); }
  }

  lemma StartMeans(r: Ring, id: string, q: Request, name: string, now: Time, valid: Bytes -> bool)
    requires Accounted(r)
    ensures var t := Recorded(Opened(r, id), |r.entries|, q, name, now, valid);
            Started(r, t, id, q, name, now, valid) && forall x :: x in t.entries && x.seq' != r.last + 1 ==> x in r.entries
  {
    hide Accounted, Attempted, Touched, Attempt, BodyOf, Replaces, BytesTo;
    var o, k := Opened(r, id), |r.entries|;
    OpenedIsAccounted(r, id);
    AttemptedMeans(o, k, q, name, now, valid);
    var (e, delta) := Attempted(o.entries[k], q, name, now, valid);
    var n := TouchWrites(o, k, e, delta);
    var t := Touched(o, k, e, delta);
    WrittenOver(o, t, e, q, name, now, valid);
    LastStays(o, k, e, delta, n);
    forall x | x in t.entries && x.seq' != r.last + 1
      ensures x in r.entries
    {
      assert x in o.entries;
    }
    if id != "" { NewestInFlight(o, k, e, delta, n, id); }
  }

  lemma NewestInFlight(o: Ring, k: nat, e: Entry, delta: int, n: nat, id: string)
    requires k < |o.entries| && Dropped(Bumped(o, k, e, delta), Touched(o, k, e, delta), n)
    requires id in o.inflight && o.inflight[id] == e.seq'
    requires var t := Touched(o, k, e, delta); t.entries != [] && t.entries[|t.entries| - 1].seq' == e.seq'
    ensures id in Touched(o, k, e, delta).inflight && Touched(o, k, e, delta).inflight[id] == e.seq'
  {
    hide Fits, Shed, BytesTo;
    var t := Touched(o, k, e, delta);
    assert t.entries[|t.entries| - 1] in t.entries;
  }

  /**
    Another account takes the request over: the old entry is closed as moved away, and the
    request starts anew where somebody watches the new account.
   */
  lemma TakeoverMeans(r: Ring, q: Request, name: Option<string>, now: Time, valid: Bytes -> bool, k: nat)
    requires Sound(r) && InFlight(r, Trim(q.requestID)) == Some(k) && r.entries[k].authID != q.authID
    ensures var t, was := RequestSeen(r, q, name, now, valid), r.entries[k];
            && (forall x :: x in t.entries ==>
                  || (x.seq' == was.seq' && r.revision < x.revision && x == was.(movedAway := true, revision := x.revision))
                  || (x.seq' != was.seq' && x in r.entries)
                  || (x.seq' == r.last + 1 && name.Some?))
            && (if name.Some? then Started(r, t, Trim(q.requestID), q, name.value, now, valid) else Trim(q.requestID) !in t.inflight && t.last == r.last)
  {
    hide Accounted, Attempted, Touched, Trim, Attempt, Written, BodyOf, Bumped, Replaces, Opened, Recorded, InFlight, Shed;
    var id, was := Trim(q.requestID), r.entries[k];
    LeftInFlight(r, id, q.authID);
    DepartureMeans(r, id, q.authID, k);
    DepartedIsSound(r, id, q.authID);
    var left := Departed(r, id, q.authID);
    if name.Some? {
      StartMeans(left, id, q, name.value, now, valid);
      assert r.last == left.last;
    } else {
      NotInFlight(left, id);
    }
  }

  lemma NotInFlight(r: Ring, id: string)
    requires Accounted(r) && InFlight(r, id).None?
    ensures id !in r.inflight
  {
    hide Accounted, InFlight;
    InFlightExactly(r, id, 0);
  }

  lemma DepartureMeans(r: Ring, id: string, authID: string, k: nat)
    requires Sound(r) && InFlight(r, id) == Some(k) && r.entries[k].authID != authID
    ensures var left, was := Departed(r, id, authID), r.entries[k];
            && left.last == r.last && r.revision < left.revision
            && forall x :: x in left.entries ==>
                 if x.seq' == was.seq' then r.revision < x.revision && x == was.(movedAway := true, revision := x.revision) else x in r.entries
  {
    hide Accounted, Touched, BytesTo, InFlightAt, Shed, Bumped, Replaces, Weighed;
    var less, e := r.(inflight := r.inflight - {id}), r.entries[k].(movedAway := true);
    ForgetsOne(r, id);
    MovedReplaces(r, id, k);
    var n := TouchWrites(less, k, e, 0);
    LastStays(less, k, e, 0, n);
    SameBytes(less, k, e, n);
  }

  lemma SameBytes(r: Ring, k: nat, e: Entry, n: nat)
    requires Accounted(r) && k < |r.entries| && e.seq' == r.entries[k].seq' && Dropped(Bumped(r, k, e, 0), Touched(r, k, e, 0), n)
    ensures forall x :: x in Touched(r, k, e, 0).entries && x.seq' == e.seq' ==> x.bytes == e.bytes
  {
    hide BytesTo, InFlightAt, Shed, Fits, Retained, Weighed;
    var t, b := Touched(r, k, e, 0), Bumped(r, k, e, 0);
    forall x | x in t.entries && x.seq' == e.seq'
      ensures x == b.entries[k]
    {
      var i :| 0 <= i < |t.entries| && t.entries[i] == x;
      assert b.entries[n + i] == x;
    }
  }

  /** What a response, or a chunk of a streamed one, adds to its entry. */
  ghost predicate Answers(was: Entry, e: Entry, p: Response, valid: Bytes -> bool) {
    && e.responded && e.responseModel == (if p.model != "" then p.model else was.responseModel)
    && e.upstreamBody == (if p.upstream != [] && was.upstreamBody.size == 0 then BodyOf(p.upstream, valid) else was.upstreamBody)
    && (!p.stream ==>
          && e.responseBody == BodyOf(p.body, valid) && e.chunks == was.chunks
          && e.statusCode == (if p.statusCode != 0 then p.statusCode else was.statusCode))
    && (p.stream ==> e.statusCode == was.statusCode)
    && (p.stream && p.chunkIndex >= 0 ==> e.chunks == was.chunks + 1 && e.responseBody == Appended(was.responseBody, p.body))
    && (p.stream && p.chunkIndex < 0 ==> e.chunks == was.chunks && e.responseBody == was.responseBody)
    && e == was.(revision := e.revision, bytes := e.bytes, responded := e.responded, responseModel := e.responseModel, upstreamBody := e.upstreamBody,
                 responseBody := e.responseBody, chunks := e.chunks, statusCode := e.statusCode)
  }

  /** A response belongs to its request's entry unless that has moved to another account. */
  lemma ResponseMeans(r: Ring, p: Response, valid: Bytes -> bool)
    requires Sound(r)
    ensures var t, id := ResponseSeen(r, p, valid), Trim(p.requestID);
            && (id !in r.inflight ==> t == r)
            && forall was :: was in r.entries && id in r.inflight && was.seq' == r.inflight[id] ==>
                 if was.movedAway || (p.authID != "" && was.authID != "" && p.authID != was.authID) then t == r
                 else
                   && r.revision < t.revision
                   && forall x :: x in t.entries ==> if x.seq' == was.seq' then r.revision < x.revision && Answers(was, x, p, valid) else x in r.entries
  {
    hide Accounted, Touched, Trim, Answered, BodyOf, Appended, Answers, Replaces, Bumped, Shed, InFlight;
    var id := Trim(p.requestID);
    if id in r.inflight {
      var k := WhereInFlight(r, id);
      AnswerReplaces(r, k, p, valid);
      var (e, delta) := Answered(r.entries[k], p, valid);
      var n := TouchWrites(r, k, e, delta);
      var t := Touched(r, k, e, delta);
      forall x | x in t.entries && x.seq' == e.seq'
        ensures Answers(r.entries[k], x, p, valid)
      {
        AnsweredMeans(r.entries[k], p, valid, x);
      }
      AnsweredSame(r.entries[k], p, valid);
    } else {
      InFlightExactly(r, id, 0);
    }
  }

  lemma WhereInFlight(r: Ring, id: string) returns (k: nat)
    requires Accounted(r) && id in r.inflight
    ensures k < |r.entries| && InFlight(r, id) == Some(k) && r.entries[k].seq' == r.inflight[id]
    ensures forall e :: e in r.entries && e.seq' == r.inflight[id] ==> e == r.entries[k]
  {
    hide InFlight, Weighed, BytesTo;
    var j :| InFlightAt(r, id, j);
    k := j;
    InFlightExactly(r, id, k);
    forall e | e in r.entries && e.seq' == r.inflight[id]
      ensures e == r.entries[k]
    {
      var i :| 0 <= i < |r.entries| && r.entries[i] == e;
    }
  }

  lemma AnsweredMeans(was: Entry, p: Response, valid: Bytes -> bool, x: Entry)
    requires var (e, delta) := Answered(was, p, valid); x == e.(revision := x.revision, bytes := x.bytes)
    ensures Answers(was, x, p, valid)
  {
    hide BodyOf, Appended;
  }

  lemma AnsweredSame(was: Entry, p: Response, valid: Bytes -> bool)
    ensures Answered(was, p, valid).0.seq' == was.seq'
  {
    hide BodyOf, Appended;
  }

  /** A completion closes its request's entry with time, outcome and status, and the request is no longer in flight. */
  lemma CompletionMeans(r: Ring, requestID: string, outcome: string, error: string, statusCode: int, now: Time)
    requires Sound(r)
    ensures var t, id := CompletionSeen(r, requestID, outcome, error, statusCode, now), Trim(requestID);
            && id !in t.inflight && (id !in r.inflight ==> t == r)
            && forall was :: was in r.entries && id in r.inflight && was.seq' == r.inflight[id] ==>
                 && r.revision < t.revision
                 && forall x :: x in t.entries ==>
                      if x.seq' == was.seq' then
                        && r.revision < x.revision
                        && x == was.(revision := x.revision, completedAt := Some(now), outcome := outcome, error := error,
                                     statusCode := if statusCode != 0 then statusCode else was.statusCode)
                      else x in r.entries
  {
    hide Accounted, Touched, Trim, Replaces, Bumped, Shed, InFlight;
    var id := Trim(requestID);
    if id in r.inflight {
      var k := WhereInFlight(r, id);
      var was, less := r.entries[k], r.(inflight := r.inflight - {id});
      var done := was.(completedAt := Some(now), outcome := outcome, error := error, statusCode := if statusCode != 0 then statusCode else was.statusCode);
      ForgetsOne(r, id);
      EntriesWeighed(r, k);
      SameWeight(was, done);
      DoneReplaces(less, k, done);
      var n := TouchWrites(less, k, done, 0);
      SameBytes(less, k, done, n);
      Forgotten(less, k, done, n, id);
    } else {
      InFlightExactly(r, id, 0);
    }
  }

  lemma Forgotten(r: Ring, k: nat, e: Entry, n: nat, id: string)
    requires k < |r.entries| && id !in r.inflight && Dropped(Bumped(r, k, e, 0), Touched(r, k, e, 0), n)
    ensures id !in Touched(r, k, e, 0).inflight
  {
    hide Fits, Shed, Retained, BytesTo;
  }

  // ----- Who watches ----------------------------------------------------------------------

  /** The listener watches this account, by its ID or by its index. */
  ghost predicate Watches(l: Listener, authID: string, authIndex: string) {
    !l.paused && ((l.authID != "" && l.authID == authID) || (l.authIndex != "" && l.authIndex == authIndex))
  }

  /** The first listener that watches the account is found, and none only if none does. */
  lemma {:induction false} MatchingMeans(listeners: seq<Listener>, authID: string, authIndex: string)
    ensures var l := Matching(listeners, authID, authIndex);
            && (l.None? <==> forall i :: 0 <= i < |listeners| ==> !Watches(listeners[i], authID, authIndex))
            && (l.Some? ==> exists i :: 0 <= i < |listeners| && listeners[i] == l.value && Watches(listeners[i], authID, authIndex) &&
                                       forall j :: 0 <= j < i ==> !Watches(listeners[j], authID, authIndex))
  {
    if listeners != [] && !Watches(listeners[0], authID, authIndex) {
      var rest := listeners[1..];
      MatchingMeans(rest, authID, authIndex);
      assert forall i :: 0 <= i < |rest| ==> rest[i] == listeners[i + 1];
      if Matching(rest, authID, authIndex).Some? {
        var i :| 0 <= i < |rest| && rest[i] == Matching(rest, authID, authIndex).value && Watches(rest[i], authID, authIndex) &&
                 forall j :: 0 <= j < i ==> !Watches(rest[j], authID, authIndex);
        assert listeners[i + 1] == rest[i];
        forall j | 0 <= j < i + 1
          ensures !Watches(listeners[j], authID, authIndex)
        {
          if j > 0 { assert listeners[j] == rest[j - 1]; }
        }
      }
    }
  }

  /** A row of the page shows these fields of its entry. */
  lemma RowsShow(e: Entry)
    ensures var row := SummaryOf(e);
            && row.seq' == e.seq' && row.revision == e.revision && row.requestID == e.requestID && row.attempts == e.attempts
            && row.authIndex == e.authIndex && row.authName == e.authName && row.model == e.info.model && row.requestedModel == e.info.requestedModel
            && row.responseModel == e.responseModel && row.stream == e.info.stream && row.startedAt == e.startedAt && row.completedAt == e.completedAt
            && row.statusCode == e.statusCode && row.outcome == e.outcome && row.rejected == e.rejected && row.responded == e.responded
            && row.movedAway == e.movedAway && row.requestSize == e.requestBody.size && row.responseSize == e.responseBody.size && row.chunks == e.chunks
  {
  }
}
