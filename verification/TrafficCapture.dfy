/**
  The capture ring of internal/plugin/traffic_capture.go: exact byte accounting under
  eviction, and a revision cursor by which a polling page rebuilds the server's list.
 */
module TrafficCapture {
  import opened Text
  import opened Model
  import opened CaptureBodies

  const MAX_ENTRIES := 100
  const MAX_TOTAL := 48 * 1024 * 1024
  const MAX_LISTENERS := 64
  const LEASE: int := 45 * SECOND

  /** What the request's metadata say about it; nothing here is interpreted. */
  datatype Info = Info(path: string, sourceFormat: string, toFormat: string, model: string, requestedModel: string, stream: bool)

  datatype Entry = Entry(
    seq': nat, revision: nat, requestID: string, attempts: nat, authID: string, authIndex: string, authName: string, info: Info,
    responseModel: string, startedAt: Time, completedAt: Option<Time>, statusCode: int, outcome: string, error: string,
    rejected: bool, responded: bool, movedAway: bool, chunks: nat,
    requestBody: Body, upstreamBody: Body, responseBody: Body, bytes: int)

  /** The polled list row. */
  datatype Summary = Summary(
    seq': nat, revision: nat, requestID: string, attempts: nat, authIndex: string, authName: string,
    model: string, requestedModel: string, responseModel: string, stream: bool, startedAt: Time, completedAt: Option<Time>,
    statusCode: int, outcome: string, rejected: bool, responded: bool, movedAway: bool,
    requestSize: nat, responseSize: nat, chunks: nat)

  function SummaryOf(e: Entry): Summary {
    Summary(e.seq', e.revision, e.requestID, e.attempts, e.authIndex, e.authName,
            e.info.model, e.info.requestedModel, e.responseModel, e.info.stream, e.startedAt, e.completedAt,
            e.statusCode, e.outcome, e.rejected, e.responded, e.movedAway, e.requestBody.size, e.responseBody.size, e.chunks)
  }

  // ----- The ring as a value ----------------------------------------------------------

  /** Requests in flight are found by ID; an entry is known by its sequence number. */
  datatype Ring = Ring(entries: seq<Entry>, inflight: map<string, nat>, total: int, revision: nat, last: nat)

  function BytesTo(entries: seq<Entry>, n: nat): int
    requires n <= |entries|
  {
    if n == 0 then 0 else BytesTo(entries, n - 1) + entries[n - 1].bytes
  }

  function BytesOf(entries: seq<Entry>): int {
    BytesTo(entries, |entries|)
  }

  predicate Weighed(e: Entry) {
    && |e.upstreamBody.data| <= e.upstreamBody.size
    && |e.requestBody.data| <= MAX_BODY_BYTES && |e.upstreamBody.data| <= MAX_BODY_BYTES && |e.responseBody.data| <= MAX_BODY_BYTES
    && e.bytes == |e.requestBody.data| + |e.upstreamBody.data| + |e.responseBody.data|
  }

  /** Sequence numbers ascend, so none repeats. */
  predicate Ascending(entries: seq<Entry>) {
    forall i, j :: 0 <= i < j < |entries| ==> entries[i].seq' < entries[j].seq'
  }

  predicate InFlightAt(r: Ring, id: string, k: int) {
    id in r.inflight && 0 <= k < |r.entries| && r.entries[k].seq' == r.inflight[id] && r.entries[k].requestID == id
  }

  /** Everything but the limits: they are restored by eviction. */
  ghost predicate Accounted(r: Ring) {
    && r.total == BytesOf(r.entries) && Ascending(r.entries)
    && (forall e :: e in r.entries ==> Weighed(e) && e.seq' <= r.last && e.revision <= r.revision)
    && (forall id :: id in r.inflight ==> id != "" && exists k :: InFlightAt(r, id, k))
  }

  ghost predicate Sound(r: Ring) {
    Accounted(r) && |r.entries| <= MAX_ENTRIES && r.total <= MAX_TOTAL
  }

  function Evict(r: Ring): Ring
    requires r.entries != []
  {
    var out := r.entries[0];
    r.(entries := r.entries[1..], total := r.total - out.bytes,
       inflight := if out.requestID in r.inflight && r.inflight[out.requestID] == out.seq' then r.inflight - {out.requestID} else r.inflight)
  }

  predicate Overfull(r: Ring) {
    |r.entries| > 1 && (|r.entries| > MAX_ENTRIES || r.total > MAX_TOTAL)
  }

  /** The oldest entries go until the ring fits again; the newest always stays. */
  function Shed(r: Ring): Ring
    decreases |r.entries|
  {
    if Overfull(r) then Shed(Evict(r)) else r
  }

  /** The k-th entry becomes e, under the next revision and with its bytes accounted. */
  function Bumped(r: Ring, k: nat, e: Entry, delta: int): Ring
    requires k < |r.entries|
  {
    var next := r.revision + 1;
    r.(revision := next, total := r.total + delta, entries := r.entries[k := e.(revision := next, bytes := e.bytes + delta)])
  }

  /** touchLocked. */
  function Touched(r: Ring, k: nat, e: Entry, delta: int): Ring
    requires k < |r.entries|
  {
    Shed(Bumped(r, k, e, delta))
  }

  /** e replaces the k-th entry as the same request, with delta accounting for its bodies. */
  ghost predicate Replaces(r: Ring, k: nat, e: Entry, delta: int)
    requires k < |r.entries|
  {
    && e.bytes == r.entries[k].bytes && e.seq' == r.entries[k].seq' && e.requestID == r.entries[k].requestID
    && Weighed(e.(bytes := e.bytes + delta))
  }

  lemma {:induction false} BytesPrefix(a: seq<Entry>, b: seq<Entry>, n: nat)
    requires n <= |a| && n <= |b| && forall i :: 0 <= i < n ==> a[i] == b[i]
    ensures BytesTo(a, n) == BytesTo(b, n)
  {
    if n > 0 { BytesPrefix(a, b, n - 1); }
  }

  lemma {:induction false} BytesUpdate(entries: seq<Entry>, k: nat, e: Entry, n: nat)
    requires k < n <= |entries|
    ensures BytesTo(entries[k := e], n) == BytesTo(entries, n) - entries[k].bytes + e.bytes
  {
    if n - 1 == k {
      BytesPrefix(entries[k := e], entries, n - 1);
    } else {
      BytesUpdate(entries, k, e, n - 1);
    }
  }

  lemma {:induction false} BytesDrop(entries: seq<Entry>, n: nat)
    requires 0 < n <= |entries|
    ensures BytesTo(entries[1..], n - 1) == BytesTo(entries, n) - entries[0].bytes
  {
    if n > 1 {
      BytesDrop(entries, n - 1);
    } else {
      assert BytesTo(entries, 0) == 0;
    }
  }

  lemma EvictKeepsAccounts(r: Ring)
    requires Accounted(r) && r.entries != []
    ensures Accounted(Evict(r))
  {
    hide Weighed, InFlightAt;
    BytesDrop(r.entries, |r.entries|);
    var after := Evict(r);
    forall e | e in after.entries
      ensures e in r.entries
    {
    }
    forall id | id in after.inflight
      ensures exists k :: InFlightAt(after, id, k)
    {
      EvictKeepsInFlight(r, id);
    }
  }

  lemma EvictKeepsInFlight(r: Ring, id: string)
    requires r.entries != [] && id in Evict(r).inflight && exists k :: InFlightAt(r, id, k)
    ensures exists k :: InFlightAt(Evict(r), id, k)
  {
    var k :| InFlightAt(r, id, k);
    assert InFlightAt(Evict(r), id, k - 1);
  }

  lemma {:induction false} TrimmedIsSound(r: Ring)
    requires Accounted(r)
    ensures Sound(Shed(r)) && Shed(r).revision == r.revision && Shed(r).last == r.last
    ensures exists n :: 0 <= n <= |r.entries| && Shed(r).entries == r.entries[n..]
    ensures r.entries != [] ==> Shed(r).entries != [] && r.entries[|r.entries| - 1] in Shed(r).entries
    decreases |r.entries|
  {
    hide Accounted;
    if Overfull(r) {
      EvictKeepsAccounts(r);
      TrimmedIsSound(Evict(r));
      var n :| 0 <= n <= |r.entries| - 1 && Shed(Evict(r)).entries == Evict(r).entries[n..];
      assert r.entries[1..][n..] == r.entries[n + 1..];
      assert Evict(r).entries[|r.entries| - 2] == r.entries[|r.entries| - 1];
    } else {
      assert r.entries[0..] == r.entries;
      OneEntryFits(r);
    }
  }

  lemma ShedIsPart(r: Ring)
    requires Accounted(r)
    ensures forall e :: e in Shed(r).entries ==> e in r.entries
  {
    hide Accounted, Shed;
    TrimmedIsSound(r);
  }

  /** A single entry can never fill the ring. */
  lemma OneEntryFits(r: Ring)
    requires Accounted(r) && !Overfull(r)
    ensures |r.entries| <= 100 && r.total <= 48 * 1024 * 1024
  {
    if |r.entries| == 1 {
      assert BytesTo(r.entries, 0) == 0 && Weighed(r.entries[0]);
    } else if |r.entries| == 0 {
      assert BytesTo(r.entries, 0) == 0;
    }
  }

  lemma TouchKeepsSound(r: Ring, k: nat, e: Entry, delta: int)
    requires Accounted(r) && k < |r.entries| && Replaces(r, k, e, delta)
    ensures Sound(Touched(r, k, e, delta))
  {
    hide Shed, Accounted, Bumped, Replaces;
    BumpStaysAccounted(r, k, e, delta);
    TrimmedIsSound(Bumped(r, k, e, delta));
  }

  lemma WeighedRevision(e: Entry, revision: nat)
    requires Weighed(e)
    ensures Weighed(e.(revision := revision))
  {
  }

  // ----- What changes between two states ----------------------------------------------

  /** Whatever is still at an old revision is an entry that was there before, as it was. */
  ghost predicate Advances(before: Ring, after: Ring) {
    && before.revision <= after.revision
    && forall e :: e in after.entries && e.revision <= before.revision ==> e in before.entries
  }

  lemma AdvancesOn(a: Ring, b: Ring, c: Ring)
    requires Advances(a, b) && Advances(b, c)
    ensures Advances(a, c)
  {
  }

  /** Entries are never left without a revision of their own. */
  ghost predicate Dated(r: Ring) {
    forall e :: e in r.entries ==> e.revision > 0
  }

  lemma DatedStays(before: Ring, after: Ring)
    requires Dated(before) && Advances(before, after)
    ensures Dated(after)
  {
  }

  /** Every retained attempt was started in this span of time. */
  ghost predicate StartedIn(r: Ring, from: Time, until: Time) {
    forall e :: e in r.entries ==> from <= e.startedAt < until
  }

  lemma TouchKeepsTimes(r: Ring, k: nat, e: Entry, delta: int, from: Time, until: Time)
    requires Accounted(r) && k < |r.entries| && Replaces(r, k, e, delta) && from <= e.startedAt < until
    requires forall i :: 0 <= i < |r.entries| && i != k ==> from <= r.entries[i].startedAt < until
    ensures StartedIn(Touched(r, k, e, delta), from, until)
  {
    hide Accounted, Replaces, Shed;
    var bumped := Bumped(r, k, e, delta);
    BumpStaysAccounted(r, k, e, delta);
    TrimmedIsSound(bumped);
    ShedIsPart(bumped);
    assert forall i :: 0 <= i < |r.entries| ==> from <= bumped.entries[i].startedAt < until;
  }

  lemma TouchAdvances(before: Ring, r: Ring, k: nat, e: Entry, delta: int)
    requires Accounted(r) && k < |r.entries| && before.revision == r.revision && Replaces(r, k, e, delta)
    requires forall i :: 0 <= i < |r.entries| && i != k ==> r.entries[i] in before.entries
    ensures Advances(before, Touched(r, k, e, delta))
  {
    hide Accounted, Replaces, Shed, Bumped, Advances;
    BumpStaysAccounted(r, k, e, delta);
    BumpAdvances(before, r, k, e, delta);
    TrimAdvances(before, Bumped(r, k, e, delta));
  }

  lemma BumpAdvances(before: Ring, r: Ring, k: nat, e: Entry, delta: int)
    requires k < |r.entries| && before.revision == r.revision
    requires forall i :: 0 <= i < |r.entries| && i != k ==> r.entries[i] in before.entries
    ensures Advances(before, Bumped(r, k, e, delta))
  {
    var after := Bumped(r, k, e, delta);
    forall x | x in after.entries && x.revision <= before.revision
      ensures x in before.entries
    {
      var i :| 0 <= i < |after.entries| && after.entries[i] == x;
    }
  }

  lemma TrimAdvances(before: Ring, r: Ring)
    requires Accounted(r) && Advances(before, r)
    ensures Advances(before, Shed(r))
  {
    hide Accounted, Shed;
    TrimmedIsSound(r);
    ShedIsPart(r);
  }

  lemma BumpStaysAccounted(r: Ring, k: nat, e: Entry, delta: int)
    requires Accounted(r) && k < |r.entries| && Replaces(r, k, e, delta)
    ensures Accounted(Bumped(r, k, e, delta))
  {
    hide Weighed;
    var touched := Bumped(r, k, e, delta);
    var put := touched.entries[k];
    WeighedRevision(e.(bytes := e.bytes + delta), touched.revision);
    BytesUpdate(r.entries, k, put, |r.entries|);
    forall x | x in touched.entries
      ensures x == put || x in r.entries
    {
    }
    forall id | id in touched.inflight
      ensures exists j :: InFlightAt(touched, id, j)
    {
      var j :| InFlightAt(r, id, j);
      assert InFlightAt(touched, id, j);
    }
  }
}
