/**
  The key list of internal/billing/keys.go and concurrency.go: synchronizing it with the host,
  viewing it, which settles what has expired, and the settings of single keys and of the
  configured credentials.
 */
module KeyLists {
  import opened Text
  import opened Model
  import opened ChangeSets
  import opened QuotaCycles
  import opened QuotaState
  import S = Stores

  const MAX_CONCURRENCY := 10000

  // ----- Viewing keys settles them ----------------------------------------------------

  /** settleKeyPlan: expired cycles go; without its plan the key is unbound. */
  function ViewedKey(plans: seq<Plan>, key: Key, now: Time): Key {
    if key.planID == "" then key
    else
      var found := FindPlan(plans, key.planID);
      if found.Some? && found.value.id == key.planID then key.(cycles := Settled(key.cycles, now)) else Unbound(key)
  }

  method SettleKeyPlan(record: KeyState, plans: seq<Plan>, now: Time) returns (changed: bool)
    modifies record
    ensures record.key == ViewedKey(plans, old(record.key), now)
    ensures changed <==> record.key != old(record.key)
  {
    hide Settled, FindPlan;
    if record.key.planID == "" { return false; }
    var found := FindPlan(plans, record.key.planID);
    if found.Some? && found.value.id == record.key.planID {
      changed := SettleExpired(record, now);
      return;
    }
    record.key := record.key.(planID := "", cycles := map[]);
    return true;
  }

  /** Deleted keys are shown as they are. */
  function ShownKey(plans: seq<Plan>, key: Key, now: Time): Key {
    if key.Live() then ViewedKey(plans, key, now) else key
  }

  function KeysViewed(s: Snapshot, scopes: set<string>, now: Time): Snapshot {
    s.(keys := map scope | scope in s.keys :: if scope in scopes then ShownKey(s.plans, s.keys[scope], now) else s.keys[scope])
  }

  /** KeyViews. */
  method ViewKeys(store: S.Store, now: Time, fails: bool)
    requires store.Valid()
    modifies store`dirty, store`unsavedNormal, store`unsavedErrors, store.repo, Cells(store.state.keys)
    ensures store.Valid() && store.Memory() == KeysViewed(old(store.Memory()), old(store.Memory()).keys.Keys, now)
    ensures store.Attempted(old(store.Held()), fails)
  {
    hide S.Store.Attempted, S.Agrees, S.Covers, ShownKey, Separate, KeysOf;
    ghost var s := store.Memory();
    assert forall c :: c in Cells(store.state.keys) ==> c as object != store.repo && c as object != store;
    var settled := SettleEach(store.state.keys, store.state.plans, now);
    ViewsCovered(s, store.Memory(), settled);
    store.FinishUpdate(s, KeyChanges(settled), fails);
  }

  method SettleEach(keys: map<string, KeyState>, plans: seq<Plan>, now: Time) returns (settled: seq<string>)
    requires Separate(keys)
    modifies Cells(keys)
    ensures KeysOf(keys) == map scope | scope in keys :: ShownKey(plans, old(KeysOf(keys))[scope], now)
    ensures forall scope :: scope in settled <==> scope in keys && KeysOf(keys)[scope] != old(KeysOf(keys))[scope]
  {
    hide ViewedKey, Separate;
    ghost var was := KeysOf(keys);
    settled := [];
    var pending := keys.Keys;
    while pending != {}
      invariant pending <= keys.Keys
      invariant forall scope :: scope in keys ==> keys[scope].key == if scope in pending then was[scope] else ShownKey(plans, was[scope], now)
      invariant forall scope :: scope in settled <==> scope in keys && scope !in pending && keys[scope].key != was[scope]
      decreases pending
    {
      var scope :| scope in pending;
      pending := pending - {scope};
      S.OthersAreApart(keys, scope);
      if keys[scope].key.Live() {
        var changed := SettleKeyPlan(keys[scope], plans, now);
        if changed {
          settled := settled + [scope];
        }
      }
    }
  }

  lemma ViewsCovered(s: Snapshot, t: Snapshot, settled: seq<string>)
    requires t == s.(keys := t.keys) && t.keys.Keys == s.keys.Keys
    requires forall scope :: scope in settled <==> scope in s.keys && t.keys[scope] != s.keys[scope]
    ensures S.Covers(s, t, KeyChanges(settled))
  {
  }

  /** KeyViewForScope. */
  method ViewKey(store: S.Store, scope: string, now: Time, fails: bool) returns (shown: bool)
    requires store.Valid()
    modifies store`dirty, store`unsavedNormal, store`unsavedErrors, store.repo, Cells(store.state.keys)
    ensures var s, name := old(store.Memory()), NormalizeScopeName(scope);
            && shown == (name != "" && LiveKey(s, name))
            && (if name == "" then store.Held() == old(store.Held()) else store.Attempted(old(store.Held()), fails))
            && store.Valid() && store.Memory() == if shown then KeysViewed(s, {name}, now) else s
  {
    hide S.Store.Attempted, S.Agrees, S.Covers, ViewedKey, NormalizeScopeName;
    ghost var s := store.Memory();
    var name, keys := NormalizeScopeName(scope), store.state.keys;
    assert forall c :: c in Cells(keys) ==> c as object != store.repo && c as object != store;
    if name == "" { return false; }
    S.NothingToCover(s);
    if name !in keys || !keys[name].key.Live() {
      store.FinishUpdate(s, NO_CHANGES, fails);
      return false;
    }
    S.OthersAreApart(keys, name);
    var changed := SettleKeyPlan(keys[name], store.state.plans, now);
    OneKeyViewed(s, name, now);
    store.FinishKeyUpdate(s, name, changed, fails);
    return true;
  }

  lemma OneKeyViewed(s: Snapshot, name: string, now: Time)
    requires LiveKey(s, name)
    ensures KeysViewed(s, {name}, now) == s.(keys := s.keys[name := ViewedKey(s.plans, s.keys[name], now)])
  {
    hide ViewedKey;
  }

  // ----- Synchronizing with the host --------------------------------------------------

  const BLANK_KEY := Key("", false, ZERO_TIME, "", 0, Bindings([], false, EMPTY_RULE), [], map[])

  /** A listed key is created or restored; one that is no longer listed, but was, is marked deleted. */
  function SyncedKey(keys: map<string, Key>, listed: map<string, string>, now: Time, scope: string): Key
    requires scope in keys || scope in listed
  {
    var key := if scope in keys then keys[scope] else BLANK_KEY;
    if scope in listed then key.(preview := listed[scope], listed := true, deletedAt := ZERO_TIME)
    else if key.listed then key.(listed := false, deletedAt := now)
    else key
  }

  /** The keys once those in done have been reconciled. */
  function SyncedTo(keys: map<string, Key>, listed: map<string, string>, now: Time, done: set<string>): map<string, Key> {
    map scope | scope in keys.Keys + listed.Keys * done :: if scope in done then SyncedKey(keys, listed, now, scope) else keys[scope]
  }

  function KeysSynced(s: Snapshot, listed: map<string, string>, now: Time): Snapshot {
    s.(keys := SyncedTo(s.keys, listed, now, s.keys.Keys + listed.Keys))
  }

  /** SyncKeys: bindings and spent quota survive deletion and restoration. */
  method SyncKeys(store: S.Store, listed: map<string, string>, allowEmpty: bool, now: Time, fails: bool) returns (ok: bool)
    requires store.Valid() && "" !in listed
    modifies store`state, store`dirty, store`unsavedNormal, store`unsavedErrors, store.repo
    ensures store.Valid()
    ensures store.Kept(old(store.Held()), ok)
    ensures var s := old(store.Memory());
            if listed == map[] && !allowEmpty then !ok && store.Memory() == s
            else store.Memory() == (if ok then KeysSynced(s, listed, now) else s) && (ok || fails)
  {
    hide S.Agrees, S.Covers, Merge, SyncedTo, KeysOf;
    if listed == map[] && !allowEmpty { return false; }
    var s := store.Memory();
    assert forall c :: c in Cells(store.state.keys) ==> c as object != store.repo && c as object != store;
    var next := store.CopyForEdit();
    var keys, changed := BothPasses(next.keys, s.keys, listed, now);
    next := next.(keys := keys);
    assert store.Memory() == s;
    var c := if changed then NO_CHANGES.(allKeys := true) else NO_CHANGES;
    SyncIsCovered(s, listed, now, c);
    ok := store.Publish(next, c, fails);
  }

  lemma NothingSynced(keys: map<string, Key>, listed: map<string, string>, now: Time)
    ensures SyncedTo(keys, listed, now, {}) == keys
  {
  }

  lemma SyncedHas(keys: map<string, Key>, listed: map<string, string>, now: Time, done: set<string>)
    ensures SyncedTo(keys, listed, now, done).Keys == keys.Keys + listed.Keys * done
  {
  }

  lemma SyncedNext(keys: map<string, Key>, listed: map<string, string>, now: Time, done: set<string>, scope: string)
    requires scope in keys || scope in listed
    ensures SyncedTo(keys, listed, now, done + {scope}) == SyncedTo(keys, listed, now, done)[scope := SyncedKey(keys, listed, now, scope)]
    ensures scope !in done && scope in SyncedTo(keys, listed, now, done) ==> scope in keys && SyncedTo(keys, listed, now, done)[scope] == keys[scope]
  {
  }

  /** The listed scopes first, then those that are no longer listed. */
  method BothPasses(records: map<string, KeyState>, was: map<string, Key>, listed: map<string, string>, now: Time)
    returns (keys: map<string, KeyState>, changed: bool)
    requires Separate(records) && KeysOf(records) == was
    modifies Cells(records)
    ensures Separate(keys) && KeysOf(keys) == SyncedTo(was, listed, now, was.Keys + listed.Keys)
    ensures forall scope :: scope in keys ==> fresh(keys[scope]) || keys[scope] in Cells(records)
    ensures changed <==> SyncedTo(was, listed, now, was.Keys + listed.Keys) != was
  {
    hide SyncedTo, KeysOf, Separate;
    NothingSynced(was, listed, now);
    var first, rest := listed.Keys, was.Keys - listed.Keys;
    InTwoParts(was.Keys, first);
    keys, changed := Reconcile(records, was, listed, now, first, {}, false);
    keys, changed := Reconcile(keys, was, listed, now, rest, first, changed);
  }

  lemma InTwoParts(all: set<string>, first: set<string>)
    ensures {} + first == first && first + (all - first) == all + first
    ensures first !! {} && (all - first) !! first && first <= all + first && all - first <= all + first
  {
  }

  /** One of the two passes: the given scopes reconciled on the working copy, and whether any record changed. */
  method Reconcile(records: map<string, KeyState>, was: map<string, Key>, listed: map<string, string>, now: Time, scopes: set<string>,
                   ghost done: set<string>, before: bool)
    returns (keys: map<string, KeyState>, changed: bool)
    requires Separate(records) && KeysOf(records) == SyncedTo(was, listed, now, done)
    requires scopes !! done && scopes <= was.Keys + listed.Keys
    requires before <==> SyncedTo(was, listed, now, done) != was
    modifies Cells(records)
    ensures Separate(keys) && KeysOf(keys) == SyncedTo(was, listed, now, done + scopes)
    ensures forall scope :: scope in keys ==> fresh(keys[scope]) || keys[scope] in Cells(records)
    ensures changed <==> SyncedTo(was, listed, now, done + scopes) != was
  {
    hide SyncedTo, SyncedKey, KeysOf, Separate;
    keys, changed := records, before;
    var pending := scopes;
    assert done + (scopes - pending) == done;
    while pending != {}
      invariant pending <= scopes && Separate(keys)
      invariant KeysOf(keys) == SyncedTo(was, listed, now, done + (scopes - pending))
      invariant forall scope :: scope in keys ==> fresh(keys[scope]) || keys[scope] in Cells(records)
      invariant changed <==> SyncedTo(was, listed, now, done + (scopes - pending)) != was
      decreases pending
    {
      var scope :| scope in pending;
      ghost var sofar := done + (scopes - pending);
      pending := pending - {scope};
      assert done + (scopes - pending) == sofar + {scope};
      SyncedNext(was, listed, now, sofar, scope);
      StaysChanged(was, listed, now, sofar, scope);
      var differs;
      keys, differs := PutKey(keys, scope, SyncedKey(was, listed, now, scope));
      changed := changed || differs;
    }
    assert scopes - pending == scopes;
  }

  /** Writes one record of the working copy, adding it if it is missing. */
  method PutKey(records: map<string, KeyState>, scope: string, key: Key) returns (keys: map<string, KeyState>, differs: bool)
    requires Separate(records)
    modifies Cells(records)
    ensures Separate(keys) && KeysOf(keys) == old(KeysOf(records))[scope := key]
    ensures forall x :: x in keys ==> fresh(keys[x]) || keys[x] in Cells(records)
    ensures differs <==> scope !in records || old(KeysOf(records))[scope] != key
  {
    keys := records;
    if scope !in keys {
      var record := new KeyState(key);
      keys := keys[scope := record];
      return keys, true;
    }
    differs := keys[scope].key != key;
    S.OthersAreApart(keys, scope);
    keys[scope].key := key;
  }

  /** What one reconciliation changes, later ones do not change back. */
  lemma StaysChanged(was: map<string, Key>, listed: map<string, string>, now: Time, done: set<string>, scope: string)
    requires (scope in was || scope in listed) && scope !in done
    ensures SyncedTo(was, listed, now, done + {scope}) != was <==>
            SyncedTo(was, listed, now, done) != was || scope !in was || SyncedKey(was, listed, now, scope) != was[scope]
  {
    hide SyncedKey;
    var a, b := SyncedTo(was, listed, now, done), SyncedTo(was, listed, now, done + {scope});
    if a != was {
      SyncedHas(was, listed, now, done);
      if a.Keys == was.Keys {
        var x :| x in was && a[x] != was[x];
        assert x in b && b[x] == a[x];
      } else {
        assert b.Keys != was.Keys;
      }
    } else if scope !in was {
      assert scope in b;
    }
  }

  lemma SyncIsCovered(s: Snapshot, listed: map<string, string>, now: Time, c: Changes)
    requires c == NO_CHANGES.(allKeys := true) || (c == NO_CHANGES && KeysSynced(s, listed, now) == s)
    ensures S.Covers(s, KeysSynced(s, listed, now), c)
  {
    hide SyncedKey;
  }

  // ----- Settings ---------------------------------------------------------------------

  function Limited(s: Snapshot, name: string, limit: int): Snapshot
    requires name in s.keys
  {
    s.(keys := s.keys[name := s.keys[name].(concurrencyLimit := limit)])
  }

  /** SetConcurrencyLimit. */
  method SetConcurrencyLimit(store: S.Store, scope: string, limit: int, fails: bool) returns (ok: bool)
    requires store.Valid()
    modifies store`state, store`dirty, store`unsavedNormal, store`unsavedErrors, store.repo
    ensures store.Valid()
    ensures store.Kept(old(store.Held()), ok)
    ensures var s, name := old(store.Memory()), NormalizeScopeName(scope);
            if name == "" || !(0 <= limit <= 10_000) || !LiveKey(s, name) then !ok && store.Memory() == s
            else store.Memory() == (if ok then Limited(s, name, limit) else s) && (ok || fails)
  {
    hide Separate, S.Agrees, S.Covers, KeysOf, Merge, NormalizeScopeName;
    var s, name := store.Memory(), NormalizeScopeName(scope);
    assert forall c :: c in Cells(store.state.keys) ==> c as object != store.repo && c as object != store;
    if name == "" || !(0 <= limit <= MAX_CONCURRENCY) || !LiveKey(s, name) { return false; }
    var f := (other: string, key: Key) => if other == name then key.(concurrencyLimit := limit) else key;
    var c := if s.keys[name].concurrencyLimit == limit then NO_CHANGES else KeyChanges([name]);
    LimitIsCovered(s, name, limit, f, c);
    ok := store.Edit(s.plans, s.routes, s.groups, s.access, f, c, fails);
  }

  lemma LimitIsCovered(s: Snapshot, name: string, limit: int, f: (string, Key) -> Key, c: Changes)
    requires name in s.keys && f == ((other: string, key: Key) => if other == name then key.(concurrencyLimit := limit) else key)
    requires c == if s.keys[name].concurrencyLimit == limit then NO_CHANGES else KeyChanges([name])
    ensures S.Edited(s, s.plans, s.routes, s.groups, s.access, f) == Limited(s, name, limit)
    ensures S.Covers(s, Limited(s, name, limit), c)
  {
    assert S.Rewritten(s.keys, f) == Limited(s, name, limit).keys;
  }

  /** SyncConfigCredentials: the configured inventory as the host has it. */
  method SyncConfigCredentials(store: S.Store, credentials: map<string, ConfigCredential>, fails: bool) returns (ok: bool)
    requires store.Valid()
    modifies store`state, store`dirty, store`unsavedNormal, store`unsavedErrors, store.repo
    ensures store.Valid() && (ok || fails)
    ensures store.Kept(old(store.Held()), ok)
    ensures store.Memory() == if ok then old(store.Memory()).(credentials := credentials) else old(store.Memory())
  {
    hide Separate, S.Agrees, KeysOf, Merge;
    var s := store.Memory();
    assert forall c :: c in Cells(store.state.keys) ==> c as object != store.repo && c as object != store;
    var next := store.CopyForEdit();
    next := next.(credentials := credentials);
    assert store.Memory() == s;
    var c := if s.credentials == credentials then NO_CHANGES else NO_CHANGES.(credentials := true);
    ok := store.Publish(next, c, fails);
  }
}
