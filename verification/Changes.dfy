/**
  The dirty set of internal/billing/repository.go: which components still have to reach the
  database, and the queues of events waiting with them.
 */
module ChangeSets {
  import opened Text
  import opened Model

  const MAX_PENDING := 1000

  datatype Event = Event(at: Time, scope: string, model: string)

  datatype Changes = Changes(
    keys: seq<string>, allKeys: bool,
    plans: bool, routes: bool, groups: bool, access: bool, credentials: bool,
    normal: seq<Event>, errors: seq<Event>, cutoff: Time)
  {
    predicate Empty() {
      && keys == [] && !allKeys && !plans && !routes && !groups && !access && !credentials
      && normal == [] && errors == [] && cutoff == ZERO_TIME
    }

    predicate Touches(scope: string) {
      allKeys || scope in keys
    }
  }

  const NO_CHANGES := Changes([], false, false, false, false, false, false, [], [], ZERO_TIME)

  function KeyChanges(keys: seq<string>): Changes {
    NO_CHANGES.(keys := keys)
  }

  function LastOf<T>(events: seq<T>, n: nat): (r: seq<T>) {
    if |events| > n then events[|events| - n..] else events
  }

  function Bounded(c: Changes): Changes {
    c.(normal := LastOf(c.normal, MAX_PENDING), errors := LastOf(c.errors, MAX_PENDING))
  }

  /** The list without repeats, each scope at its first place. */
  function Deduped(scopes: seq<string>): (r: seq<string>)
    ensures forall s :: s in r <==> s in scopes
  {
    if scopes == [] then [] else
    var front := Deduped(scopes[..|scopes| - 1]);
    if scopes[|scopes| - 1] in front then front else front + [scopes[|scopes| - 1]]
  }

  function Merge(c: Changes, next: Changes): (r: Changes)
  {
    if c.Empty() then Bounded(next) else
    if next.Empty() then Bounded(c) else
    var allKeys := c.allKeys || next.allKeys;
    Bounded(Changes(
      if allKeys then [] else Deduped(c.keys + next.keys), allKeys,
      c.plans || next.plans, c.routes || next.routes, c.groups || next.groups,
      c.access || next.access, c.credentials || next.credentials,
      c.normal + next.normal, c.errors + next.errors,
      if next.cutoff < c.cutoff then c.cutoff else next.cutoff))
  }

  method MergeChanges(c: Changes, next: Changes) returns (merged: Changes)
    ensures merged == Merge(c, next)
  {
    if c.Empty() { return Bounded(next); }
    if next.Empty() { return Bounded(c); }
    merged := Changes([], c.allKeys || next.allKeys,
                      c.plans || next.plans, c.routes || next.routes, c.groups || next.groups,
                      c.access || next.access, c.credentials || next.credentials,
                      c.normal + next.normal, c.errors + next.errors, next.cutoff);
    if merged.cutoff < c.cutoff {
      merged := merged.(cutoff := c.cutoff);
    }
    if !merged.allKeys {
      var keys := Unrepeated(c.keys + next.keys);
      merged := merged.(keys := keys);
    }
    merged := Bounded(merged);
  }

  method Unrepeated(scopes: seq<string>) returns (keys: seq<string>)
    ensures keys == Deduped(scopes)
  {
    keys := [];
    var seen: set<string> := {};
    for i := 0 to |scopes|
      invariant keys == Deduped(scopes[..i])
      invariant forall s :: s in seen <==> s in keys
    {
      assert scopes[..i + 1][..i] == scopes[..i];
      if scopes[i] !in seen {
        seen := seen + {scopes[i]};
        keys := keys + [scopes[i]];
      }
    }
    assert scopes[..|scopes|] == scopes;
  }

  /** The merge announces exactly what either side announced. */
  lemma MergeAnnounces(c: Changes, next: Changes)
    ensures forall scope :: Merge(c, next).Touches(scope) <==> c.Touches(scope) || next.Touches(scope)
    ensures Merge(c, next).plans <==> c.plans || next.plans
    ensures Merge(c, next).routes <==> c.routes || next.routes
    ensures Merge(c, next).groups <==> c.groups || next.groups
    ensures Merge(c, next).access <==> c.access || next.access
    ensures Merge(c, next).credentials <==> c.credentials || next.credentials
  {
    hide LastOf;
    forall scope
      ensures Merge(c, next).Touches(scope) <==> c.Touches(scope) || next.Touches(scope)
    {
      assert scope in c.keys + next.keys <==> scope in c.keys || scope in next.keys;
    }
  }

  /** Bounding early loses nothing: only the newest events matter, however often the queue was cut. */
  lemma LastOfAppend<T>(a: seq<T>, b: seq<T>, n: nat)
    ensures LastOf(LastOf(a, n) + b, n) == LastOf(a + b, n)
  {
    if |a| > n {
      assert a[|a| - n..] + b == (a + b)[|a| - n..];
    }
  }

  /** The newest thousand of what waited and what comes, in order. */
  ghost predicate Newest(all: seq<Event>, kept: seq<Event>) {
    |kept| == (if |all| > 1000 then 1000 else |all|) && all == all[..|all| - |kept|] + kept
  }

  lemma MergeQueues(c: Changes, next: Changes)
    ensures Merge(c, next).normal == LastOf(c.normal + next.normal, MAX_PENDING)
    ensures Merge(c, next).errors == LastOf(c.errors + next.errors, MAX_PENDING)
  {
    assert [] + next.normal == next.normal && c.normal + [] == c.normal;
    assert [] + next.errors == next.errors && c.errors + [] == c.errors;
  }

  lemma MergeKeepsNewest(c: Changes, next: Changes)
    ensures Newest(c.normal + next.normal, Merge(c, next).normal) && Newest(c.errors + next.errors, Merge(c, next).errors)
  {
    hide Merge;
    MergeQueues(c, next);
  }

  lemma NothingTouched(c: Changes)
    requires forall scope :: !c.Touches(scope)
    ensures c.keys == [] && !c.allKeys
  {
    assert !c.Touches("");
    if c.keys != [] {
      assert c.Touches(c.keys[0]);
      assert false;
    }
  }

  /** Nothing needs saving exactly when neither side has anything to say. */
  lemma MergeIsEmpty(dirty: Changes, c: Changes)
    ensures Merge(dirty, c).Empty() <==> dirty == NO_CHANGES && c == NO_CHANGES
  {
    hide Deduped;
    var both := Merge(dirty, c);
    if both.Empty() {
      MergeAnnounces(dirty, c);
      MergeQueues(dirty, c);
      assert forall scope :: !both.Touches(scope);
      NothingTouched(c);
      NothingTouched(dirty);
    }
  }

  /** The later cutoff stays. */
  lemma MergeCutoff(c: Changes, next: Changes)
    ensures Merge(c, next).cutoff == if c.Empty() then next.cutoff else if next.Empty() || next.cutoff < c.cutoff then c.cutoff else next.cutoff
    ensures Merge(c, next).Empty() <==> c.Empty() && next.Empty()
  {
    hide Deduped, LastOf;
    MergeIsEmpty(c, next);
  }

  /** Retrying is associative in every respect the database sees. */
  lemma MergeAssociates(a: Changes, b: Changes, c: Changes)
    ensures var l, r := Merge(Merge(a, b), c), Merge(a, Merge(b, c));
            && (forall scope :: l.Touches(scope) <==> r.Touches(scope))
            && l.normal == r.normal && l.errors == r.errors
            && l.plans == r.plans && l.routes == r.routes && l.groups == r.groups
            && l.access == r.access && l.credentials == r.credentials && l.cutoff == r.cutoff
  {
    hide Merge, LastOf;
    MergeCutoff(a, b);
    MergeCutoff(Merge(a, b), c);
    MergeCutoff(b, c);
    MergeCutoff(a, Merge(b, c));
    MergeAnnounces(a, b);
    MergeAnnounces(Merge(a, b), c);
    MergeAnnounces(b, c);
    MergeAnnounces(a, Merge(b, c));
    MergeQueues(a, b);
    MergeQueues(Merge(a, b), c);
    MergeQueues(b, c);
    MergeQueues(a, Merge(b, c));
    LastOfAppend(a.normal + b.normal, c.normal, MAX_PENDING);
    LastOfAppend(a.errors + b.errors, c.errors, MAX_PENDING);
    LastOfPrepend(a.normal, b.normal + c.normal, MAX_PENDING);
    LastOfPrepend(a.errors, b.errors + c.errors, MAX_PENDING);
    assert a.normal + b.normal + c.normal == a.normal + (b.normal + c.normal);
    assert a.errors + b.errors + c.errors == a.errors + (b.errors + c.errors);
  }

  lemma LastOfPrepend<T>(a: seq<T>, b: seq<T>, n: nat)
    ensures LastOf(a + LastOf(b, n), n) == LastOf(a + b, n)
  {
    if |b| > n {
      assert LastOf(a + LastOf(b, n), n) == LastOf(b, n);
      assert LastOf(a + b, n) == (a + b)[|a| + |b| - n..] == b[|b| - n..];
    }
  }
}
