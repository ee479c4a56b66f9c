/**
  The polling page of internal/plugin/ui.html against the capture ring: what one poll answers,
  what the page makes of it, and that the page then holds exactly the server's list.
 */
module CaptureSync {
  import opened Text
  import opened Model
  import opened CaptureBodies
  import opened TrafficCapture
  import opened CaptureHooks

  /** The answer to a poll: rows newer than the cursor, and every retained sequence number. */
  datatype Poll = Poll(revision: nat, rows: seq<Summary>, retained: seq<nat>)

  /** The page: its rows by sequence number, and the cursor it polls from. */
  datatype Page = Page(rows: map<nat, Summary>, revision: nat)

  function RowsTo(entries: seq<Entry>, since: nat, n: nat): (rows: seq<Summary>)
    requires n <= |entries|
  {
    if n == 0 then [] else
    var front := RowsTo(entries, since, n - 1);
    if entries[n - 1].revision <= since then front else front + [SummaryOf(entries[n - 1])]
  }

  function NumbersOf(entries: seq<Entry>): (r: seq<nat>)
    ensures |r| == |entries| && forall i :: 0 <= i < |r| ==> r[i] == entries[i].seq'
  {
    seq(|entries|, i requires 0 <= i < |entries| => entries[i].seq')
  }

  function Answer(r: Ring, since: nat): Poll {
    Poll(r.revision, RowsTo(r.entries, since, |r.entries|), NumbersOf(r.entries))
  }

  /** captureStatusLocked. */
  method Status(r: Ring, since: nat) returns (poll: Poll)
    ensures poll == Answer(r, since)
  {
    var rows: seq<Summary> := [];
    var numbers: seq<nat> := [];
    for i := 0 to |r.entries|
      invariant rows == RowsTo(r.entries, since, i)
      invariant numbers == NumbersOf(r.entries)[..i]
    {
      if r.entries[i].revision > since {
        rows := rows + [SummaryOf(r.entries[i])];
      }
      numbers := numbers + [r.entries[i].seq'];
    }
    return Poll(r.revision, rows, numbers);
  }

  function PutTo(rows: map<nat, Summary>, news: seq<Summary>, n: nat): map<nat, Summary>
    requires n <= |news|
  {
    if n == 0 then rows else PutTo(rows, news, n - 1)[news[n - 1].seq' := news[n - 1]]
  }

  function Kept(rows: map<nat, Summary>, retained: seq<nat>): map<nat, Summary> {
    map k | k in rows && k in retained :: rows[k]
  }

  function Received(page: Page, poll: Poll, withRows: bool): Page {
    var kept := Kept(page.rows, poll.retained);
    if withRows then Page(PutTo(kept, poll.rows, |poll.rows|), if poll.revision > page.revision then poll.revision else page.revision)
    else page.(rows := kept)
  }

  /** receiveCapture: forget what is no longer retained, then take the new rows. */
  method Receive(page: Page, poll: Poll, withRows: bool) returns (next: Page)
    ensures next == Received(page, poll, withRows)
  {
    var rows := Kept(page.rows, poll.retained);
    if !withRows { return page.(rows := rows); }
    for i := 0 to |poll.rows|
      invariant rows == PutTo(Kept(page.rows, poll.retained), poll.rows, i)
    {
      rows := rows[poll.rows[i].seq' := poll.rows[i]];
    }
    return Page(rows, if poll.revision > page.revision then poll.revision else page.revision);
  }

  // ----- Being in sync ----------------------------------------------------------------

  /** The page knows every retained entry that has not changed since its cursor. */
  ghost predicate InSync(page: Page, r: Ring) {
    && page.revision <= r.revision
    && forall e :: e in r.entries && e.revision <= page.revision ==> e.seq' in page.rows && page.rows[e.seq'] == SummaryOf(e)
  }

  /** The page shows the server's list, neither more nor less. */
  ghost predicate Shows(page: Page, r: Ring) {
    && (forall k :: k in page.rows ==> exists e :: e in r.entries && e.seq' == k)
    && (forall e :: e in r.entries ==> e.seq' in page.rows && page.rows[e.seq'] == SummaryOf(e))
  }

  /** Each row is the summary of an entry newer than the cursor. */
  lemma {:induction false} RowFrom(entries: seq<Entry>, since: nat, n: nat, i: nat)
    requires n <= |entries| && i < |RowsTo(entries, since, n)|
    ensures exists j :: 0 <= j < n && entries[j].revision > since && RowsTo(entries, since, n)[i] == SummaryOf(entries[j])
  {
    hide SummaryOf;
    if i < |RowsTo(entries, since, n - 1)| { RowFrom(entries, since, n - 1, i); }
  }

  /** Each entry newer than the cursor has a row, and later rows are of later entries. */
  lemma {:induction false} RowOf(entries: seq<Entry>, since: nat, n: nat, j: nat)
    requires j < n <= |entries| && entries[j].revision > since && Ascending(entries)
    ensures exists i :: 0 <= i < |RowsTo(entries, since, n)| && RowsTo(entries, since, n)[i] == SummaryOf(entries[j]) &&
                        forall l :: i < l < |RowsTo(entries, since, n)| ==> RowsTo(entries, since, n)[l].seq' != entries[j].seq'
  {
    if j < n - 1 {
      RowOf(entries, since, n - 1, j);
      var front := RowsTo(entries, since, n - 1);
      var i :| 0 <= i < |front| && front[i] == SummaryOf(entries[j]) && forall l :: i < l < |front| ==> front[l].seq' != entries[j].seq';
      assert RowsTo(entries, since, n)[i] == front[i];
      assert entries[j].seq' < entries[n - 1].seq';
    } else {
      assert RowsTo(entries, since, n)[|RowsTo(entries, since, n)| - 1] == SummaryOf(entries[j]);
    }
  }

  /** The last row put under a number is the one that stays. */
  lemma {:induction false} PutHit(rows: map<nat, Summary>, news: seq<Summary>, n: nat, i: nat)
    requires i < n <= |news| && forall l :: i < l < n ==> news[l].seq' != news[i].seq'
    ensures news[i].seq' in PutTo(rows, news, n) && PutTo(rows, news, n)[news[i].seq'] == news[i]
  {
    if i < n - 1 { PutHit(rows, news, n - 1, i); }
  }

  lemma {:induction false} PutMiss(rows: map<nat, Summary>, news: seq<Summary>, n: nat, k: nat)
    requires n <= |news| && forall i :: 0 <= i < n ==> news[i].seq' != k
    ensures k in PutTo(rows, news, n) <==> k in rows
    ensures k in rows ==> PutTo(rows, news, n)[k] == rows[k]
  {
    if n > 0 { PutMiss(rows, news, n - 1, k); }
  }

  lemma {:induction false} PutFrom(rows: map<nat, Summary>, news: seq<Summary>, n: nat, k: nat)
    requires n <= |news| && k in PutTo(rows, news, n)
    ensures k in rows || exists i :: 0 <= i < n && news[i].seq' == k
  {
    if n > 0 && news[n - 1].seq' != k { PutFrom(rows, news, n - 1, k); }
  }

  /** One poll suffices: a page in sync at its cursor then shows exactly the current list. */
  lemma PollSyncs(page: Page, r: Ring)
    requires Sound(r) && InSync(page, r)
    ensures var next := Received(page, Answer(r, page.revision), true);
            Shows(next, r) && InSync(next, r) && next.revision == r.revision
  {
    hide SummaryOf, Kept, RowsTo, PutTo, Accounted;
    var next := Received(page, Answer(r, page.revision), true);
    forall e | e in r.entries
      ensures e.seq' in next.rows && next.rows[e.seq'] == SummaryOf(e)
    {
      PollDelivers(page, r, e);
    }
    forall k | k in next.rows
      ensures exists e :: e in r.entries && e.seq' == k
    {
      PollForgets(page, r, k);
    }
  }

  /** Whatever the page shows after a poll is retained by the server. */
  lemma PollForgets(page: Page, r: Ring, k: nat)
    requires k in Received(page, Answer(r, page.revision), true).rows
    ensures exists e :: e in r.entries && e.seq' == k
  {
    hide SummaryOf, Kept, RowsTo, PutTo;
    var poll := Answer(r, page.revision);
    KeptAre(page.rows, poll.retained, k);
    PutFrom(Kept(page.rows, poll.retained), poll.rows, |poll.rows|, k);
    var j: nat;
    if k in Kept(page.rows, poll.retained) {
      j :| j < |poll.retained| && poll.retained[j] == k;
    } else {
      var i :| 0 <= i < |poll.rows| && poll.rows[i].seq' == k;
      RowFrom(r.entries, page.revision, |r.entries|, i);
      j :| j < |r.entries| && poll.rows[i] == SummaryOf(r.entries[j]);
      SummaryNumber(r.entries[j]);
    }
    assert r.entries[j] in r.entries && r.entries[j].seq' == k;
  }

  lemma SummaryNumber(e: Entry)
    ensures SummaryOf(e).seq' == e.seq'
  {
  }

  lemma KeptAre(rows: map<nat, Summary>, retained: seq<nat>, k: nat)
    ensures k in Kept(rows, retained) <==> k in rows && k in retained
    ensures k in Kept(rows, retained) ==> Kept(rows, retained)[k] == rows[k]
  {
  }

  /** A changed entry arrives with the poll; an unchanged one was there and is not overwritten. */
  lemma PollDelivers(page: Page, r: Ring, e: Entry)
    requires Sound(r) && InSync(page, r) && e in r.entries
    ensures var next := Received(page, Answer(r, page.revision), true);
            e.seq' in next.rows && next.rows[e.seq'] == SummaryOf(e)
  {
    hide SummaryOf, Kept, RowsTo, PutTo, Accounted;
    SoundAscends(r);
    var poll := Answer(r, page.revision);
    var k :| 0 <= k < |r.entries| && r.entries[k] == e;
    if e.revision > page.revision {
      RowOf(r.entries, page.revision, |r.entries|, k);
      var i :| 0 <= i < |poll.rows| && poll.rows[i] == SummaryOf(e) && forall l :: i < l < |poll.rows| ==> poll.rows[l].seq' != e.seq';
      SummaryNumber(e);
      PutHit(Kept(page.rows, poll.retained), poll.rows, |poll.rows|, i);
    } else {
      assert poll.retained[k] == e.seq';
      KeptAre(page.rows, poll.retained, e.seq');
      forall i | 0 <= i < |poll.rows|
        ensures poll.rows[i].seq' != e.seq'
      {
        RowFrom(r.entries, page.revision, |r.entries|, i);
        var j :| 0 <= j < |r.entries| && r.entries[j].revision > page.revision && poll.rows[i] == SummaryOf(r.entries[j]);
        SummaryNumber(r.entries[j]);
      }
      PutMiss(Kept(page.rows, poll.retained), poll.rows, |poll.rows|, e.seq');
    }
  }

  lemma SoundAscends(r: Ring)
    requires Sound(r)
    ensures Ascending(r.entries)
  {
  }

  /** Whatever the server does between two polls, the page stays in sync at its cursor. */
  lemma AdvancingKeepsSync(page: Page, before: Ring, after: Ring)
    requires InSync(page, before) && Advances(before, after)
    ensures InSync(page, after)
  {
    hide SummaryOf;
  }

  lemma NumberOf(entries: seq<Entry>, k: nat)
    ensures k in NumbersOf(entries) <==> exists e :: e in entries && e.seq' == k
  {
    if k in NumbersOf(entries) {
      var i :| 0 <= i < |entries| && NumbersOf(entries)[i] == k;
      assert entries[i] in entries;
    }
    if e :| e in entries && e.seq' == k {
      var i :| 0 <= i < |entries| && entries[i] == e;
      assert NumbersOf(entries)[i] == k;
    }
  }

  /** What the cursor says the page has, the server had listed already when it answered. */
  ghost predicate Listed(page: Page, before: Ring, after: Ring) {
    forall e :: e in after.entries && e.revision <= page.revision ==> e.seq' in NumbersOf(before.entries)
  }

  /**
    Answers to commands carry no rows; taking one drops what it does not list. A page in sync
    stays so exactly when everything it has was listed by the answer, which may be late: given
    from the ring before and taken when the page is in sync with a later one.
   */
  lemma LateAnswer(page: Page, before: Ring, after: Ring, since: nat)
    requires InSync(page, after)
    ensures InSync(Received(page, Answer(before, since), false), after) <==> Listed(page, before, after)
  {
    hide SummaryOf, Kept, RowsTo;
    var retained := NumbersOf(before.entries);
    forall e | e in after.entries && e.revision <= page.revision
      ensures e.seq' in Kept(page.rows, retained) <==> e.seq' in retained
      ensures e.seq' in retained ==> Kept(page.rows, retained)[e.seq'] == SummaryOf(e)
    {
      KeptAre(page.rows, retained, e.seq');
    }
  }

  /** The next poll then shows the list, or misses rows which no poll brings until they change. */
  lemma LateAnswerShows(page: Page, before: Ring, after: Ring, since: nat)
    requires InSync(page, after) && Sound(after) && Dated(after)
    ensures Shows(Polled(Received(page, Answer(before, since), false), after), after) <==> Listed(page, before, after)
  {
    hide InSync, Shows, Polled, Sound, Dated, Listed, Kept;
    LateAnswer(page, before, after, since);
    assert page.revision <= after.revision by { SyncIsBehind(page, after); }
    PollIsRight(Received(page, Answer(before, since), false), after);
  }

  lemma SyncIsBehind(page: Page, r: Ring)
    requires InSync(page, r)
    ensures page.revision <= r.revision
  {
  }

  /** In particular an answer given no earlier than the last poll was drops only what is gone. */
  lemma CommandsKeepSync(page: Page, before: Ring, after: Ring, since: nat)
    requires InSync(page, after) && Advances(before, after) && page.revision <= before.revision
    ensures InSync(Received(page, Answer(before, since), false), after)
  {
    hide SummaryOf, Received, Answer;
    forall e | e in after.entries && e.revision <= page.revision
      ensures e.seq' in NumbersOf(before.entries)
    {
      NumberOf(before.entries, e.seq');
    }
    LateAnswer(page, before, after, since);
  }

  ghost predicate Run(states: seq<Ring>) {
    states != [] && forall i :: 0 <= i < |states| - 1 ==> Advances(states[i], states[i + 1])
  }

  /** After any run of hooks and commands, one poll shows the page exactly what the server holds. */
  lemma {:induction false} AnyRunThenOnePoll(page: Page, states: seq<Ring>)
    requires Run(states) && InSync(page, states[0]) && Sound(states[|states| - 1])
    ensures var last := states[|states| - 1]; Shows(Received(page, Answer(last, page.revision), true), last)
  {
    hide Advances, Received, Answer, Sound, InSync, Shows;
    if |states| == 1 {
      PollSyncs(page, states[0]);
    } else {
      AdvancingKeepsSync(page, states[0], states[1]);
      var rest := states[1..];
      forall i | 0 <= i < |rest| - 1
        ensures Advances(rest[i], rest[i + 1])
      {
        assert Advances(states[i + 1], states[i + 1 + 1]);
      }
      AnyRunThenOnePoll(page, rest);
    }
  }

  // ----- Restarts ---------------------------------------------------------------------

  /** The page takes a revision below its cursor for a restarted server, and starts over. */
  function Polled(page: Page, r: Ring): Page {
    if r.revision < page.revision then Received(Page(map[], 0), Answer(r, 0), true)
    else Received(page, Answer(r, page.revision), true)
  }

  /**
    A poll shows the right list exactly when the page can tell the restart by a smaller
    revision, or happens to be in sync with the server it now talks to.
   */
  lemma PollIsRight(page: Page, r: Ring)
    requires Sound(r) && Dated(r)
    ensures Shows(Polled(page, r), r) <==> r.revision < page.revision || InSync(page, r)
  {
    hide SummaryOf, RowsTo, PutTo, Kept, Accounted;
    if r.revision < page.revision {
      PollSyncs(Page(map[], 0), r);
    } else if InSync(page, r) {
      PollSyncs(page, r);
    } else {
      var e :| e in r.entries && e.revision <= page.revision && !(e.seq' in page.rows && page.rows[e.seq'] == SummaryOf(e));
      OldRowsStay(page, r, e);
    }
  }

  /** What the cursor claims to know already, no poll brings. */
  lemma OldRowsStay(page: Page, r: Ring, e: Entry)
    requires Sound(r) && e in r.entries && e.revision <= page.revision
    ensures var next := Received(page, Answer(r, page.revision), true).rows;
            e.seq' in next ==> e.seq' in page.rows && next[e.seq'] == page.rows[e.seq']
  {
    hide SummaryOf, Kept, RowsTo, PutTo, Accounted;
    SoundAscends(r);
    var poll := Answer(r, page.revision);
    var k :| 0 <= k < |r.entries| && r.entries[k] == e;
    KeptAre(page.rows, poll.retained, e.seq');
    forall i | 0 <= i < |poll.rows|
      ensures poll.rows[i].seq' != e.seq'
    {
      RowFrom(r.entries, page.revision, |r.entries|, i);
      var j :| 0 <= j < |r.entries| && r.entries[j].revision > page.revision && poll.rows[i] == SummaryOf(r.entries[j]);
      SummaryNumber(r.entries[j]);
    }
    PutMiss(Kept(page.rows, poll.retained), poll.rows, |poll.rows|, e.seq');
  }

  /** A new page starts in sync with every server, and shows its list after one poll. */
  lemma NewPageInSync(capture: Capture)
    requires capture.Valid()
    ensures InSync(Page(map[], 0), capture.ring) && Shows(Polled(Page(map[], 0), capture.ring), capture.ring)
  {
    hide Received, Answer, Sound, Shows, SummaryOf;
    PollSyncs(Page(map[], 0), capture.ring);
  }

  /** Every row the page has is of an attempt started in this span of time. */
  ghost predicate RowsIn(page: Page, from: Time, until: Time) {
    forall k :: k in page.rows ==> from <= page.rows[k].startedAt < until
  }

  /** Polling a server whose attempts all started in the span brings no other rows. */
  lemma PollKeepsTimes(page: Page, r: Ring, from: Time, until: Time)
    requires RowsIn(page, from, until) && StartedIn(r, from, until)
    ensures RowsIn(Polled(page, r), from, until)
  {
    hide Kept, RowsTo, PutTo, Accounted;
    var start := if r.revision < page.revision then Page(map[], 0) else page;
    var poll := Answer(r, start.revision);
    forall k | k in Polled(page, r).rows
      ensures from <= Polled(page, r).rows[k].startedAt < until
    {
      PutEither(Kept(start.rows, poll.retained), poll.rows, |poll.rows|, k);
      KeptAre(start.rows, poll.retained, k);
      if i :| 0 <= i < |poll.rows| && poll.rows[i] == Polled(page, r).rows[k] {
        RowFrom(r.entries, start.revision, |r.entries|, i);
        var j :| 0 <= j < |r.entries| && poll.rows[i] == SummaryOf(r.entries[j]);
        assert r.entries[j] in r.entries;
      }
    }
  }

  lemma {:induction false} PutEither(rows: map<nat, Summary>, news: seq<Summary>, n: nat, k: nat)
    requires n <= |news| && k in PutTo(rows, news, n)
    ensures (k in rows && PutTo(rows, news, n)[k] == rows[k]) || exists i :: 0 <= i < n && news[i] == PutTo(rows, news, n)[k]
  {
    if n > 0 && news[n - 1].seq' != k { PutEither(rows, news, n - 1, k); }
  }

  /**
    The first poll after a restart at the time boot, for a page filled before it: the page
    then shows the new server's list exactly when the revision has dropped below its cursor
    or nothing the server retains has a revision the page believes to know.
   */
  lemma RestartIsNoticed(page: Page, r: Ring, past: Time, boot: Time, now: Time)
    requires Sound(r) && Dated(r) && RowsIn(page, past, boot) && StartedIn(r, boot, now)
    ensures Shows(Polled(page, r), r) <==> r.revision < page.revision || forall e :: e in r.entries ==> page.revision < e.revision
  {
    hide Polled, Shows, Accounted;
    PollIsRight(page, r);
    if r.revision >= page.revision && exists e :: e in r.entries && e.revision <= page.revision {
      var e :| e in r.entries && e.revision <= page.revision;
      assert SummaryOf(e).startedAt == e.startedAt >= boot;
    }
  }

  lemma {:induction false} WatcherMatches(listeners: seq<Listener>, l: Listener, authIndex: string)
    requires l in listeners && !l.paused && l.authIndex == authIndex != ""
    ensures Matching(listeners, l.authID, authIndex).Some?
  {
    if listeners[0] != l { WatcherMatches(listeners[1..], l, authIndex); }
  }

  /** The first request a server observes. */
  lemma FirstSeen(q: Request, name: string, now: Time, valid: Bytes -> bool)
    ensures var r := RequestSeen(EMPTY_RING, q, Some(name), now, valid);
            r.revision == 1 && |r.entries| == 1 && r.entries[0].revision == 1 && r.entries[0].startedAt == now
  {
    hide Trim, BodyOf;
    assert |EMPTY_RING.entries| == 0;
  }

  /** A server started at this time that watches the credential of the request. */
  method Open(q: Request, now: Time) returns (capture: Capture)
    requires q.authIndex != ""
    ensures fresh(capture) && capture.Valid() && capture.ring == EMPTY_RING && capture.Watcher(q, now).Some?
  {
    hide Sound, Dated, Advances;
    capture := new Capture();
    var ok := capture.Watch(q.authID, q.authIndex, "", false, now);
    WatcherMatches(capture.listeners, Listener(q.authID, q.authIndex, "", false), q.authIndex);
  }

  /** A server started at this time that has observed one request since. */
  method Serve(q: Request, now: Time, valid: Bytes -> bool) returns (capture: Capture)
    requires q.authIndex != ""
    ensures fresh(capture) && capture.Valid() && capture.ring.revision == 1
    ensures |capture.ring.entries| == 1 && capture.ring.entries[0].revision == 1 && capture.ring.entries[0].startedAt == now
  {
    hide Sound, Dated, RequestSeen, Advances;
    capture := Open(q, now);
    FirstSeen(q, capture.Watcher(q, now).value, now, valid);
    capture.ObserveRequest(q, now, valid);
  }

  /**
    A row the page loses: a command is answered before the request arrives, and the answer is
    taken after the poll that brought the request.
   */
  method LateCommand(q: Request, now: Time, valid: Bytes -> bool) returns (page: Page, capture: Capture)
    requires q.authIndex != ""
    ensures fresh(capture) && capture.Valid() && !Shows(Polled(page, capture.ring), capture.ring)
  {
    hide Sound, Dated, Shows, Received, Answer, RequestSeen, Advances, Polled, InSync;
    capture := Open(q, now);
    var answer := Status(capture.ring, 0);
    FirstSeen(q, capture.Watcher(q, now).value, now, valid);
    capture.ObserveRequest(q, now, valid);
    NewPageInSync(capture);
    var poll := Status(capture.ring, 0);
    page := Receive(Page(map[], 0), poll, true);
    PollSyncs(Page(map[], 0), capture.ring);
    LateAnswerShows(page, EMPTY_RING, capture.ring, 0);
    assert !Listed(page, EMPTY_RING, capture.ring) by {
      assert capture.ring.entries[0] in capture.ring.entries && page.revision == 1;
      assert NumbersOf(EMPTY_RING.entries) == [];
    }
    page := Receive(page, answer, false);
  }

  /** A restart the page misses: the old server counted one request, and so has the new one at the next poll. */
  method MissedRestart(q: Request, past: Time, boot: Time, valid: Bytes -> bool) returns (page: Page, capture: Capture)
    requires q.authIndex != "" && past < boot
    ensures fresh(capture) && capture.Valid() && capture.ring.revision >= page.revision
    ensures !Shows(Polled(page, capture.ring), capture.ring)
  {
    hide Sound, Shows, Received, Answer;
    var before := Serve(q, past, valid);
    NewPageInSync(before);
    var poll := Status(before.ring, 0);
    page := Receive(Page(map[], 0), poll, true);
    capture := Serve(q, boot, valid);
    PollSyncs(Page(map[], 0), before.ring);
    PollKeepsTimes(Page(map[], 0), before.ring, past, boot);
    RestartIsNoticed(page, capture.ring, past, boot, boot + 1);
  }
}
