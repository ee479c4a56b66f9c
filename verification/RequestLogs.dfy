/**
  The request log of internal/billing over whole runs: which events a database holds after
  any saves, working and failing, of internal/billing/store.go and internal/sqlite/repository.go.
 */
module RequestLogs {
  import opened Text
  import opened Model
  import opened ChangeSets
  import S = Stores

  /** One attempt to save: what it announces, with what in memory, and whether it fails. */
  datatype Attempt = Attempt(mem: Snapshot, c: Changes, fails: bool)

  ghost function Tried(was: S.Books, attempts: seq<Attempt>): S.Books {
    if attempts == [] then was else
    var last := attempts[|attempts| - 1];
    Tried(was, attempts[..|attempts| - 1]).After(last.mem, last.c, last.fails)
  }

  /** The log of completed requests, or that of failed ones, and what waits for it. */
  function LogOf(books: S.Books, failed: bool): seq<Event> {
    if failed then books.errors else books.normal
  }

  function QueueOf(c: Changes, failed: bool): seq<Event> {
    if failed then c.errors else c.normal
  }

  /** How often an event was announced. */
  function Announced(attempts: seq<Attempt>, failed: bool, e: Event): nat {
    if attempts == [] then 0 else
    var last := |attempts| - 1;
    Announced(attempts[..last], failed, e) + multiset(QueueOf(attempts[last].c, failed))[e]
  }

  /** The events that do not fit among the thousand that may wait: the oldest ones. */
  function Overflow(waiting: seq<Event>): seq<Event> {
    if |waiting| > 1000 then waiting[..|waiting| - 1000] else []
  }

  /** How often an event was dropped because too many waited. */
  ghost function Dropped(was: S.Books, attempts: seq<Attempt>, failed: bool, e: Event): nat {
    if attempts == [] then 0 else
    var n := |attempts| - 1;
    var waiting := QueueOf(Tried(was, attempts[..n]).dirty, failed) + QueueOf(attempts[n].c, failed);
    Dropped(was, attempts[..n], failed, e) + multiset(Overflow(waiting))[e]
  }

  /** The event is not before any cutoff announced. */
  ghost predicate Young(was: S.Books, attempts: seq<Attempt>, e: Event) {
    was.dirty.cutoff <= e.at && forall i :: 0 <= i < |attempts| ==> attempts[i].c.cutoff <= e.at
  }

  /**
    However many saves fail in between, an event is in the log or waits for it exactly as
    often as it was announced and not dropped: none is written twice, and only those are lost
    that too many newer ones pushed out, or that are before a cutoff.
   */
  lemma {:induction false} OnlyOverflowIsLost(was: S.Books, attempts: seq<Attempt>, failed: bool, e: Event)
    requires Young(was, attempts, e) && ZERO_TIME <= e.at
    ensures var now := Tried(was, attempts);
            && multiset(LogOf(now, failed))[e] + multiset(QueueOf(now.dirty, failed))[e] + Dropped(was, attempts, failed, e) ==
               multiset(LogOf(was, failed))[e] + multiset(QueueOf(was.dirty, failed))[e] + Announced(attempts, failed, e)
            && now.dirty.cutoff <= e.at
  {
    hide S.Books.After, QueueOf, LogOf, Overflow;
    if attempts != [] {
      var n := |attempts| - 1;
      OnlyOverflowIsLost(was, attempts[..n], failed, e);
      OneAttempt(Tried(was, attempts[..n]), attempts[n], failed, e);
    }
  }

  lemma OneAttempt(was: S.Books, a: Attempt, failed: bool, e: Event)
    requires was.dirty.cutoff <= e.at && a.c.cutoff <= e.at && ZERO_TIME <= e.at
    ensures var now, waiting := was.After(a.mem, a.c, a.fails), QueueOf(was.dirty, failed) + QueueOf(a.c, failed);
            && multiset(LogOf(now, failed))[e] + multiset(QueueOf(now.dirty, failed))[e] + multiset(Overflow(waiting))[e] ==
               multiset(LogOf(was, failed))[e] + multiset(QueueOf(was.dirty, failed))[e] + multiset(QueueOf(a.c, failed))[e]
            && now.dirty.cutoff <= e.at
  {
    hide Merge, S.Pruned, Changes.Empty, Overflow;
    var all := Merge(was.dirty, a.c);
    MergeCutoff(was.dirty, a.c);
    MergeKeepsNewest(was.dirty, a.c);
    var waiting := QueueOf(was.dirty, failed) + QueueOf(a.c, failed);
    OverflowAndNewest(waiting, QueueOf(all, failed), e);
    if all.Empty() {
      S.EmptyMergeKeeps(was.dirty, a.c);
      EmptyQueues(all, failed);
    } else if !a.fails {
      S.NewEventsStay(LogOf(was, failed), QueueOf(all, failed), all.cutoff, e);
    }
  }

  lemma EmptyQueues(c: Changes, failed: bool)
    ensures c.Empty() ==> QueueOf(c, failed) == []
  {
  }

  lemma OverflowAndNewest(waiting: seq<Event>, kept: seq<Event>, e: Event)
    requires Newest(waiting, kept)
    ensures multiset(waiting)[e] == multiset(Overflow(waiting))[e] + multiset(kept)[e]
  {
    assert Overflow(waiting) == waiting[..|waiting| - |kept|];
  }

  /** Nothing is dropped as long as at no attempt more than a thousand events would wait. */
  ghost predicate Roomy(was: S.Books, attempts: seq<Attempt>, failed: bool) {
    forall i :: 0 <= i < |attempts| ==>
                  |QueueOf(Tried(was, attempts[..i]).dirty, failed)| + |QueueOf(attempts[i].c, failed)| <= 1000
  }

  lemma {:induction false} NothingIsDropped(was: S.Books, attempts: seq<Attempt>, failed: bool, e: Event)
    requires Roomy(was, attempts, failed)
    ensures Dropped(was, attempts, failed, e) == 0
  {
    hide S.Books.After, QueueOf;
    if attempts != [] {
      FrontIsRoomy(was, attempts, failed);
      NothingIsDropped(was, attempts[..|attempts| - 1], failed, e);
    }
  }

  lemma FrontIsRoomy(was: S.Books, attempts: seq<Attempt>, failed: bool)
    requires attempts != [] && Roomy(was, attempts, failed)
    ensures Roomy(was, attempts[..|attempts| - 1], failed)
    ensures var n := |attempts| - 1;
            |QueueOf(Tried(was, attempts[..n]).dirty, failed)| + |QueueOf(attempts[n].c, failed)| <= 1000
  {
    hide Tried, QueueOf;
    var front := attempts[..|attempts| - 1];
    forall i | 0 <= i < |front|
      ensures |QueueOf(Tried(was, front[..i]).dirty, failed)| + |QueueOf(front[i].c, failed)| <= 1000
    {
      assert front[..i] == attempts[..i];
    }
  }

  /** A save that works leaves nothing waiting, so then the log has every event that was not dropped. */
  lemma ThenTheLogHasAll(was: S.Books, attempts: seq<Attempt>, failed: bool, e: Event)
    requires Young(was, attempts, e) && ZERO_TIME <= e.at && Roomy(was, attempts, failed)
    requires attempts != [] && !attempts[|attempts| - 1].fails
    ensures multiset(LogOf(Tried(was, attempts), failed))[e] ==
            multiset(LogOf(was, failed))[e] + multiset(QueueOf(was.dirty, failed))[e] + Announced(attempts, failed, e)
  {
    hide Merge, S.Pruned, Roomy, Dropped, Announced, Young;
    OnlyOverflowIsLost(was, attempts, failed, e);
    NothingIsDropped(was, attempts, failed, e);
    var last := attempts[|attempts| - 1];
    var before := Tried(was, attempts[..|attempts| - 1]);
    if Merge(before.dirty, last.c).Empty() { S.EmptyMergeKeeps(before.dirty, last.c); }
  }
}
