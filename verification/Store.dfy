/**
  The write-behind store of internal/billing/store.go. Usage and cycle settlement change the
  live records first and retry failed saves later; management edits work on a copy and
  publish it only once it is saved.
 */
module Stores {
  import opened Text
  import opened Model
  import opened ChangeSets

  /** What one save leaves on disk: each announced component replaced, each announced key upserted. */
  function Written(disk: Snapshot, mem: Snapshot, c: Changes): Snapshot {
    State(
      if c.plans then mem.plans else disk.plans,
      WrittenKeys(disk.keys, mem.keys, c),
      if c.routes then mem.routes else disk.routes,
      if c.groups then mem.groups else disk.groups,
      if c.access then mem.access else disk.access,
      if c.credentials then mem.credentials else disk.credentials)
  }

  function WrittenKeys(disk: map<string, Key>, mem: map<string, Key>, c: Changes): map<string, Key> {
    disk + map scope | scope in mem && c.Touches(scope) :: mem[scope]
  }

  /** Disk equals memory on everything dirty does not name. */
  ghost predicate Agrees(mem: Snapshot, disk: Snapshot, dirty: Changes) {
    && (!dirty.plans ==> disk.plans == mem.plans)
    && (!dirty.routes ==> disk.routes == mem.routes)
    && (!dirty.groups ==> disk.groups == mem.groups)
    && (!dirty.access ==> disk.access == mem.access)
    && (!dirty.credentials ==> disk.credentials == mem.credentials)
    && KeysAgree(mem.keys, disk.keys, dirty)
  }

  ghost predicate KeysAgree(mem: map<string, Key>, disk: map<string, Key>, dirty: Changes) {
    && disk.Keys <= mem.Keys
    && forall scope :: scope in mem && !dirty.Touches(scope) ==> scope in disk && disk[scope] == mem[scope]
  }

  /** The announced changes name every component that differs; keys are never dropped. */
  ghost predicate Covers(before: Snapshot, after: Snapshot, c: Changes) {
    && (!c.plans ==> after.plans == before.plans)
    && (!c.routes ==> after.routes == before.routes)
    && (!c.groups ==> after.groups == before.groups)
    && (!c.access ==> after.access == before.access)
    && (!c.credentials ==> after.credentials == before.credentials)
    && KeysCovered(before.keys, after.keys, c)
  }

  ghost predicate KeysCovered(before: map<string, Key>, after: map<string, Key>, c: Changes) {
    && before.Keys <= after.Keys
    && forall scope :: scope in after && !c.Touches(scope) ==> scope in before && after[scope] == before[scope]
  }

  lemma CoveredChangeAgrees(before: Snapshot, after: Snapshot, disk: Snapshot, dirty: Changes, c: Changes)
    requires Agrees(before, disk, dirty) && Covers(before, after, c)
    ensures Agrees(after, disk, Merge(dirty, c))
  {
    MergeAnnounces(dirty, c);
  }

  lemma SaveAgrees(mem: Snapshot, disk: Snapshot, dirty: Changes)
    requires Agrees(mem, disk, dirty)
    ensures Agrees(mem, Written(disk, mem, dirty), NO_CHANGES)
    ensures Written(disk, mem, dirty) == mem
  {
  }

  /** Nothing announced and nothing pending means nothing differs. */
  lemma EmptyMergeAgrees(before: Snapshot, after: Snapshot, disk: Snapshot, dirty: Changes, c: Changes)
    requires Agrees(before, disk, dirty) && Covers(before, after, c) && Merge(dirty, c).Empty()
    ensures Agrees(after, disk, dirty)
    ensures dirty.normal == [] && c.normal == [] && dirty.errors == [] && c.errors == []
  {
    CoveredChangeAgrees(before, after, disk, dirty, c);
    MergeAnnounces(dirty, c);
    MergeQueues(dirty, c);
  }

  /** pruneRequestEvents: what a save leaves of the log. A cutoff that is not set leaves everything. */
  function Pruned(log: seq<Event>, cutoff: Time): (r: seq<Event>)
    ensures forall e :: multiset(r)[e] == if cutoff != ZERO_TIME && e.at < cutoff then 0 else multiset(log)[e]
  {
    if log == [] then [] else
    var front, last := Pruned(log[..|log| - 1], cutoff), log[|log| - 1];
    assert log == log[..|log| - 1] + [last];
    if cutoff != ZERO_TIME && last.at < cutoff then front else front + [last]
  }

  /** What the database holds, and what still has to reach it. */
  datatype Books = Books(dirty: Changes, saved: Snapshot, normal: seq<Event>, errors: seq<Event>)
  {
    /** After one more attempt to save, with these changes in memory. */
    function After(mem: Snapshot, c: Changes, fails: bool): Books {
      var all := Merge(dirty, c);
      if all.Empty() then this
      else if fails then this.(dirty := all)
      else Books(NO_CHANGES, mem, Pruned(normal + all.normal, all.cutoff), Pruned(errors + all.errors, all.cutoff))
    }
  }

  /** The changes of a management edit: no events and no cutoff. */
  predicate Quiet(c: Changes) {
    c.normal == [] && c.errors == [] && c.cutoff == ZERO_TIME
  }

  /** Nothing waits any longer; of the events that did only those before the pending cutoff may be missing. */
  ghost predicate Flushed(was: Books, now: Books, mem: Snapshot) {
    && now.dirty == NO_CHANGES && now.saved == mem
    && Took(was.normal, was.dirty.normal, was.dirty.cutoff, now.normal)
    && Took(was.errors, was.dirty.errors, was.dirty.cutoff, now.errors)
  }

  /** The log has every event of the queue, and all it had, as often as before, but for those before the cutoff. */
  ghost predicate Took(log: seq<Event>, queue: seq<Event>, cutoff: Time, now: seq<Event>) {
    forall e: Event :: cutoff <= e.at ==> multiset(now)[e] == multiset(log)[e] + multiset(queue)[e]
  }

  /** An event that is not too old stays in the log, as often as it was there and came. */
  lemma NewEventsStay(log: seq<Event>, queue: seq<Event>, cutoff: Time, e: Event)
    requires cutoff == ZERO_TIME || cutoff <= e.at
    ensures multiset(Pruned(log + queue, cutoff))[e] == multiset(log)[e] + multiset(queue)[e]
  {
    hide Pruned;
  }

  lemma PrunedTook(log: seq<Event>, queue: seq<Event>, pruned: Time, cutoff: Time)
    requires pruned in {ZERO_TIME, cutoff}
    ensures Took(log, queue, cutoff, Pruned(log + queue, pruned))
  {
    hide Pruned;
  }

  /** A quiet change that gets saved takes everything that waited along. */
  lemma SavingFlushes(was: Books, mem: Snapshot, c: Changes)
    requires Quiet(c) && |was.dirty.normal| <= MAX_PENDING && |was.dirty.errors| <= MAX_PENDING
    requires was.After(mem, c, false).dirty == NO_CHANGES && was.After(mem, c, false).saved == mem
    ensures Flushed(was, was.After(mem, c, false), mem)
  {
    hide Merge, Pruned, Took;
    QuietMerge(was.dirty, c);
    PrunedTook(was.normal, was.dirty.normal, Merge(was.dirty, c).cutoff, was.dirty.cutoff);
    PrunedTook(was.errors, was.dirty.errors, Merge(was.dirty, c).cutoff, was.dirty.cutoff);
    if Merge(was.dirty, c).Empty() {
      NothingTaken(was.normal, was.dirty.cutoff);
      NothingTaken(was.errors, was.dirty.cutoff);
    }
  }

  lemma NothingTaken(log: seq<Event>, cutoff: Time)
    ensures Took(log, [], cutoff, log)
  {
  }

  lemma QuietMerge(dirty: Changes, c: Changes)
    requires Quiet(c) && |dirty.normal| <= MAX_PENDING && |dirty.errors| <= MAX_PENDING
    ensures Merge(dirty, c).normal == dirty.normal && Merge(dirty, c).errors == dirty.errors
    ensures Merge(dirty, c).cutoff in {ZERO_TIME, dirty.cutoff}
  {
    hide Merge;
    MergeQueues(dirty, c);
    MergeCutoff(dirty, c);
    assert dirty.normal + c.normal == dirty.normal && dirty.errors + c.errors == dirty.errors;
  }

  class Repository {
    var saved: Snapshot
    var normal: seq<Event>
    var errors: seq<Event>

    constructor (saved: Snapshot)
      ensures this.saved == saved && normal == [] && errors == []
    {
      this.saved, normal, errors := saved, [], [];
    }

    /** One transaction: everything announced is written, or nothing is. */
    method Save(mem: Snapshot, c: Changes, fails: bool) returns (ok: bool)
      modifies this
      ensures ok == !fails
      ensures ok ==> saved == Written(old(saved), mem, c)
      ensures ok ==> normal == Pruned(old(normal) + c.normal, c.cutoff) && errors == Pruned(old(errors) + c.errors, c.cutoff)
      ensures !ok ==> saved == old(saved) && normal == old(normal) && errors == old(errors)
    {
      if fails { return false; }
      saved, normal, errors := Written(saved, mem, c), Pruned(normal + c.normal, c.cutoff), Pruned(errors + c.errors, c.cutoff);
      return true;
    }
  }

  class Store {
    var state: State<KeyState>
    var dirty: Changes
    const repo: Repository
    /** Every event recorded since the last successful save, oldest first. */
    ghost var unsavedNormal: seq<Event>
    ghost var unsavedErrors: seq<Event>

    ghost predicate Valid()
      reads this, repo, Cells(state.keys)
    {
      Separate(state.keys) && Agrees(SnapshotOf(state), repo.saved, dirty) && Queued()
    }

    /** The pending queues are the last MAX_PENDING unsaved events of each kind. */
    ghost predicate Queued()
      reads this
    {
      && dirty.normal == LastOf(unsavedNormal, MAX_PENDING)
      && dirty.errors == LastOf(unsavedErrors, MAX_PENDING)
    }

    function Memory(): Snapshot
      reads this`state, Cells(state.keys)
    {
      SnapshotOf(state)
    }

    ghost function Held(): Books
      reads this, repo
    {
      Books(dirty, repo.saved, repo.normal, repo.errors)
    }

    /** An edit that works saves everything; one that fails leaves disk and waiting changes alone. */
    ghost predicate Kept(was: Books, ok: bool)
      reads this, repo, Cells(state.keys)
    {
      if ok then Flushed(was, Held(), Memory()) else Held() == was
    }

    /** An update tries to save, whether or not it announces anything: everything reaches the disk, or nothing does and all keeps waiting. */
    ghost predicate Attempted(was: Books, fails: bool)
      reads this, repo, Cells(state.keys)
    {
      if !fails then Flushed(was, Held(), Memory())
      else
        && repo.saved == was.saved && repo.normal == was.normal && repo.errors == was.errors
        && dirty.normal == was.dirty.normal && dirty.errors == was.dirty.errors && dirty.cutoff in {ZERO_TIME, was.dirty.cutoff}
    }

    /** A store on a freshly loaded database. */
    constructor (state: State<KeyState>, repo: Repository)
      requires Separate(state.keys) && repo.saved == SnapshotOf(state)
      ensures Valid() && this.state == state && this.repo == repo && dirty == NO_CHANGES
      ensures unsavedNormal == [] && unsavedErrors == []
    {
      this.state, this.repo, dirty := state, repo, NO_CHANGES;
      unsavedNormal, unsavedErrors := [], [];
    }

    /**
      The tail of updateResult. The caller has changed live records and announces what it
      changed. Memory keeps the change whether or not the save works.
     */
    method FinishUpdate(ghost before: Snapshot, current: Changes, fails: bool)
      requires Separate(state.keys) && Queued()
      requires Agrees(before, repo.saved, dirty) && Covers(before, Memory(), current)
      modifies this`dirty, this`unsavedNormal, this`unsavedErrors, repo
      ensures Valid() && Memory() == old(Memory())
      ensures Held() == old(Held()).After(Memory(), current, fails)
      ensures Quiet(current) ==> Attempted(old(Held()), fails)
      ensures unsavedNormal == (if dirty == NO_CHANGES then [] else old(unsavedNormal) + current.normal)
      ensures unsavedErrors == (if dirty == NO_CHANGES then [] else old(unsavedErrors) + current.errors)
    {
      hide Attempted, Quiet, Written, Merge, LastOf, Pruned, SnapshotOf, Separate, Agrees, Covers;
      ghost var mem, disk, pending, books := Memory(), repo.saved, dirty, Held();
      QueuesAreShort();
      assert forall c :: c in Cells(state.keys) ==> c as object != repo && c as object != this;
      var changes := MergeChanges(dirty, current);
      assert Memory() == mem;
      MergedQueues(current);
      if changes.Empty() {
        EmptyMergeAgrees(before, mem, disk, pending, current);
        EmptyMergeKeeps(dirty, current);
        NothingQueued(unsavedNormal);
        NothingQueued(unsavedErrors);
      } else {
        assert Agrees(mem, disk, changes) && Agrees(mem, mem, NO_CHANGES) && Written(disk, mem, changes) == mem by {
          CoveredChangeAgrees(before, mem, disk, pending, current);
          SaveAgrees(mem, disk, changes);
        }
        NothingQueued([]);
        var ok := repo.Save(SnapshotOf(state), changes, fails);
        assert Memory() == mem;
        if ok {
          dirty, unsavedNormal, unsavedErrors := NO_CHANGES, [], [];
        } else {
          dirty := changes;
          unsavedNormal, unsavedErrors := unsavedNormal + current.normal, unsavedErrors + current.errors;
        }
      }
      TriedIsAttempted(books, current, fails);
    }

    /** The tail of updateResult for a closure that rewrote at most one record. */
    method FinishKeyUpdate(ghost before: Snapshot, scope: string, changed: bool, fails: bool)
      requires Separate(state.keys) && Queued() && Agrees(before, repo.saved, dirty)
      requires scope in state.keys && before == SnapshotOf(state).(keys := before.keys) && before.keys.Keys == state.keys.Keys
      requires forall other :: other in state.keys && other != scope ==> state.keys[other].key == before.keys[other]
      requires !changed ==> state.keys[scope].key == before.keys[scope]
      modifies this`dirty, this`unsavedNormal, this`unsavedErrors, repo
      ensures Valid() && Memory() == old(Memory()) == before.(keys := before.keys[scope := old(state.keys[scope].key)])
      ensures Held() == old(Held()).After(Memory(), if changed then KeyChanges([scope]) else NO_CHANGES, fails)
      ensures Attempted(old(Held()), fails)
    {
      hide Attempted, Separate, Agrees, Covers;
      OneRecord(state.keys, before.keys, scope);
      RecordChangeCovered(before, scope, state.keys[scope].key, changed);
      FinishUpdate(before, if changed then KeyChanges([scope]) else NO_CHANGES, fails);
    }

    /**
      The tail of editConfiguration: save the edited copy, publish it only if that works.
      A failed edit leaves the published records, the dirty set and the disk as they were.
     */
    method Publish(next: State<KeyState>, changes: Changes, fails: bool) returns (ok: bool)
      requires Valid() && Separate(next.keys) && Covers(Memory(), SnapshotOf(next), changes)
      modifies this`state, this`dirty, this`unsavedNormal, this`unsavedErrors, repo
      ensures Valid()
      ensures ok <==> !fails || Merge(old(dirty), changes).Empty()
      ensures ok ==> state == next && Memory() == old(SnapshotOf(next)) && dirty == NO_CHANGES && Held() == old(Held()).After(Memory(), changes, false)
      ensures !ok ==> state == old(state) && Memory() == old(Memory()) && Held() == old(Held())
      ensures !ok ==> unsavedNormal == old(unsavedNormal) && unsavedErrors == old(unsavedErrors)
      ensures Quiet(changes) ==> Kept(old(Held()), ok)
    {
      hide Kept, Quiet, Written, Merge, LastOf, Pruned, SnapshotOf, Separate, Agrees, Covers, Changes.Empty;
      ghost var was, mem, disk, pending, books := Memory(), SnapshotOf(next), repo.saved, dirty, Held();
      QueuesAreShort();
      assert forall c :: c in Cells(state.keys) ==> c as object != repo && c as object != this;
      assert forall c :: c in Cells(next.keys) ==> c as object != repo && c as object != this;
      var merged := MergeChanges(dirty, changes);
      assert Memory() == was && SnapshotOf(next) == mem;
      NothingQueued([]);
      if merged.Empty() {
        EmptyMergeAgrees(was, mem, disk, pending, changes);
        EmptyMergeKeeps(dirty, changes);
        state := next;
        SavedIsKept(books, changes, true);
        return true;
      }
      assert Agrees(mem, mem, NO_CHANGES) && Written(disk, mem, merged) == mem by {
        CoveredChangeAgrees(was, mem, disk, pending, changes);
        SaveAgrees(mem, disk, merged);
      }
      ok := repo.Save(SnapshotOf(next), merged, fails);
      assert Memory() == was && SnapshotOf(next) == mem;
      if ok {
        state, dirty, unsavedNormal, unsavedErrors := next, NO_CHANGES, [], [];
      }
      SavedIsKept(books, changes, ok);
    }

    /**
      editConfiguration for an edit that rewrites plans, routes, groups and access as given
      and every key by f: all of it on a copy, published together or not at all.
     */
    method Edit(plans: seq<Plan>, routes: seq<Route>, groups: seq<Group>, access: AccessControl, f: (string, Key) -> Key,
                c: Changes, fails: bool)
      returns (ok: bool)
      requires Valid() && Covers(Memory(), Edited(Memory(), plans, routes, groups, access, f), c)
      modifies this`state, this`dirty, this`unsavedNormal, this`unsavedErrors, repo
      ensures Valid()
      ensures ok <==> !fails || Merge(old(dirty), c).Empty()
      ensures ok ==> Memory() == Edited(old(Memory()), plans, routes, groups, access, f)
      ensures ok ==> dirty == NO_CHANGES && Held() == old(Held()).After(Memory(), c, false)
      ensures !ok ==> Memory() == old(Memory()) && Held() == old(Held())
      ensures Quiet(c) ==> Kept(old(Held()), ok)
    {
      hide Kept, Quiet, Written, Merge, LastOf, Pruned, Flushed, KeysOf, Separate, Agrees, Covers, Rewritten;
      ghost var was := Memory();
      var next := CopyForEdit();
      RewriteEach(next.keys, f);
      next := next.(plans := plans, routes := routes, groups := groups, access := access);
      assert Memory() == was;
      ok := Publish(next, c, fails);
    }

    /** With nothing pending, disk and memory are the same. */
    lemma DiskAgrees()
      requires Valid() && dirty == NO_CHANGES
      ensures repo.saved == Memory()
    {
    }

    lemma QueuesAreShort()
      requires Queued()
      ensures |dirty.normal| <= MAX_PENDING && |dirty.errors| <= MAX_PENDING
    {
    }

    lemma TriedIsAttempted(was: Books, c: Changes, fails: bool)
      requires Valid() && |was.dirty.normal| <= MAX_PENDING && |was.dirty.errors| <= MAX_PENDING
      requires Held() == was.After(Memory(), c, fails)
      ensures Quiet(c) ==> Attempted(was, fails)
    {
      hide Valid, Merge, Pruned, SnapshotOf, Flushed;
      if !Quiet(c) { return; }
      QuietMerge(was.dirty, c);
      if Merge(was.dirty, c).Empty() { EmptyMergeKeeps(was.dirty, c); }
      if !fails {
        DiskAgrees();
        SavingFlushes(was, Memory(), c);
      }
    }

    lemma SavedIsKept(was: Books, c: Changes, ok: bool)
      requires Valid() && |was.dirty.normal| <= MAX_PENDING && |was.dirty.errors| <= MAX_PENDING
      requires if ok then dirty == NO_CHANGES && Held() == was.After(Memory(), c, false) else Held() == was
      ensures Quiet(c) ==> Kept(was, ok)
    {
      hide Valid, Merge, Pruned, SnapshotOf, Flushed;
      if ok && Quiet(c) {
        DiskAgrees();
        SavingFlushes(was, Memory(), c);
      }
    }

    /** The copy editConfiguration works on: the same contents in records of its own. */
    method CopyForEdit() returns (next: State<KeyState>)
      ensures next == state.(keys := next.keys)
      ensures forall scope :: scope in next.keys ==> fresh(next.keys[scope])
      ensures Separate(next.keys) && KeysOf(next.keys) == KeysOf(state.keys)
      ensures Cells(next.keys) !! Cells(state.keys)
    {
      var keys := CloneKeys(state.keys);
      next := state.(keys := keys);
    }

    lemma MergedQueues(current: Changes)
      requires Queued()
      ensures Merge(dirty, current).normal == LastOf(unsavedNormal + current.normal, MAX_PENDING)
      ensures Merge(dirty, current).errors == LastOf(unsavedErrors + current.errors, MAX_PENDING)
    {
      MergeQueues(dirty, current);
      LastOfAppend(unsavedNormal, current.normal, MAX_PENDING);
      LastOfAppend(unsavedErrors, current.errors, MAX_PENDING);
    }
  }

  lemma NothingToCover(s: Snapshot)
    ensures Covers(s, s, NO_CHANGES)
  {
  }

  lemma OthersAreApart(keys: map<string, KeyState>, scope: string)
    requires Separate(keys) && scope in keys
    ensures forall other :: other in keys && other != scope ==> keys[other] != keys[scope]
  {
  }

  /** Changing one record changes the snapshot at its scope only. */
  lemma OneRecord(keys: map<string, KeyState>, before: map<string, Key>, scope: string)
    requires keys.Keys == before.Keys && scope in keys
    requires forall other :: other in keys && other != scope ==> keys[other].key == before[other]
    ensures KeysOf(keys) == before[scope := keys[scope].key]
  {
  }

  /** Announcing a key covers a change of its record. */
  lemma RecordChangeCovered(before: Snapshot, scope: string, key: Key, changed: bool)
    requires scope in before.keys && (!changed ==> key == before.keys[scope])
    ensures Covers(before, before.(keys := before.keys[scope := key]), if changed then KeyChanges([scope]) else NO_CHANGES)
  {
  }

  ghost function Edited(s: Snapshot, plans: seq<Plan>, routes: seq<Route>, groups: seq<Group>, access: AccessControl,
                        f: (string, Key) -> Key): Snapshot {
    State(plans, Rewritten(s.keys, f), routes, groups, access, s.credentials)
  }

  lemma NothingQueued(unsaved: seq<Event>)
    ensures LastOf(unsaved, MAX_PENDING) == [] <==> unsaved == []
  {
  }

  lemma EmptyMergeKeeps(dirty: Changes, c: Changes)
    requires Merge(dirty, c).Empty()
    ensures dirty == NO_CHANGES
  {
  }

  method CloneKeys(keys: map<string, KeyState>) returns (copy: map<string, KeyState>)
    ensures copy.Keys == keys.Keys
    ensures forall scope :: scope in copy ==> fresh(copy[scope])
    ensures Separate(copy) && KeysOf(copy) == KeysOf(keys)
  {
    copy := map[];
    var pending := keys.Keys;
    while pending != {}
      invariant pending <= keys.Keys && copy.Keys == keys.Keys - pending
      invariant forall scope :: scope in copy ==> fresh(copy[scope]) && copy[scope].key == keys[scope].key
      invariant Separate(copy)
      decreases pending
    {
      var scope :| scope in pending;
      pending := pending - {scope};
      var record := new KeyState(keys[scope].key);
      copy := copy[scope := record];
    }
  }

  function Rewritten(keys: map<string, Key>, f: (string, Key) -> Key): map<string, Key> {
    map scope | scope in keys :: f(scope, keys[scope])
  }

  /** Rewrites every record in place, one key at a time. */
  method RewriteEach(keys: map<string, KeyState>, f: (string, Key) -> Key)
    requires Separate(keys)
    modifies Cells(keys)
    ensures KeysOf(keys) == Rewritten(old(KeysOf(keys)), f)
  {
    ghost var was := KeysOf(keys);
    var pending := keys.Keys;
    while pending != {}
      invariant pending <= keys.Keys
      invariant forall scope :: scope in keys ==> keys[scope].key == if scope in pending then was[scope] else f(scope, was[scope])
      decreases pending
    {
      var scope :| scope in pending;
      pending := pending - {scope};
      keys[scope].key := f(scope, keys[scope].key);
    }
  }
}
