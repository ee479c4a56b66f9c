/**
  The reference price manager of internal/billing/reference_prices.go as interleaved critical
  sections: cached and uncached lookups, one refresh at a time, and the publication of a new
  price set. Readers of the database hold off publication from their start to their finish.
 */
module ReferencePrices {
  import opened Text
  import opened Model
  import opened ModelNames
  import opened PriceMatching

  const CAPACITY := 1024
  const BATCH_SIZE := 128

  const CLOSED := "The reference price database changed"
  const MINUTE: int := 60 * SECOND
  const HOUR: int := 60 * MINUTE
  const DAY: int := 24 * HOUR

  datatype Metadata = Metadata(hash: string, version: nat, fetchedAt: Time, modelCount: nat, usable: bool,
                               lastAttemptAt: Time, retryAfter: Time, lastError: string, failures: nat)

  datatype CacheEntry = CacheEntry(price: ReferencePrice, found: bool)

  /** What a lookup returns. */
  datatype Answer = Answer(price: ReferencePrice, found: bool, metadata: Metadata, sequence: nat)

  predicate NeedsRefresh(m: Metadata, found: bool, now: Time) {
    || !m.usable || m.fetchedAt == ZERO_TIME
    || now - m.fetchedAt > DAY || (!found && now - m.fetchedAt > HOUR)
  }

  /** The prices are missing, or older than a day, or older than an hour while the name was not found. */
  ghost predicate Stale(m: Metadata, found: bool, now: Time) {
    || !m.usable || m.fetchedAt == ZERO_TIME
    || m.fetchedAt + 86_400 * SECOND < now || (!found && m.fetchedAt + 3_600 * SECOND < now)
  }

  lemma StaleNeedsRefresh(m: Metadata, found: bool, now: Time)
    ensures NeedsRefresh(m, found, now) <==> Stale(m, found, now)
  {
  }

  function Pow2(n: nat): nat {
    if n == 0 then 1 else 2 * Pow2(n - 1)
  }

  function Smaller(a: int, b: int): int {
    if a < b then a else b
  }

  /** The pause after so many failures in a row: a minute, doubling, at most an hour. */
  function Backoff(failures: nat): int
    requires failures > 0
  {
    Smaller(MINUTE * Pow2(if failures - 1 < 6 then failures - 1 else 6), HOUR)
  }

  function Failed(m: Metadata, now: Time, error: string): Metadata {
    m.(lastAttemptAt := now, failures := m.failures + 1, retryAfter := now + Backoff(m.failures + 1), lastError := error)
  }

  /** The metadata of a successful download. */
  function Renewed(current: Metadata, hash: string, count: nat, now: Time, same: bool): Metadata {
    var next := if same then current else current.(version := current.version + 1, modelCount := count, hash := hash, usable := true);
    next.(fetchedAt := now, lastAttemptAt := now, lastError := "", failures := 0, retryAfter := ZERO_TIME)
  }

  // ----- The cache as a value ---------------------------------------------------------

  /** Where an element's key stands in the recency list, newest first. */
  function WithoutKey(recency: seq<string>, key: string): (r: seq<string>)
    ensures forall x :: x in r <==> x in recency && x != key
  {
    if recency == [] then []
    else if recency[0] == key then WithoutKey(recency[1..], key)
    else [recency[0]] + WithoutKey(recency[1..], key)
  }

  predicate DistinctKeys(recency: seq<string>) {
    forall i, j :: 0 <= i < j < |recency| ==> recency[i] != recency[j]
  }

  lemma {:induction false} WithoutKeepsDistinct(recency: seq<string>, key: string)
    requires DistinctKeys(recency)
    ensures DistinctKeys(WithoutKey(recency, key))
    ensures |WithoutKey(recency, key)| == |recency| - if key in recency then 1 else 0
  {
    if recency != [] {
      var rest := recency[1..];
      assert forall i :: 0 <= i < |rest| ==> rest[i] == recency[i + 1];
      assert recency[0] !in rest;
      assert recency == [recency[0]] + rest;
      WithoutKeepsDistinct(rest, key);
    }
  }

  function Front(recency: seq<string>, key: string): seq<string> {
    [key] + WithoutKey(recency, key)
  }

  lemma FrontKeepsDistinct(recency: seq<string>, key: string)
    requires DistinctKeys(recency)
    ensures DistinctKeys(Front(recency, key)) && forall x :: x in Front(recency, key) <==> x == key || x in recency
    ensures |Front(recency, key)| == if key in recency then |recency| else |recency| + 1
  {
    WithoutKeepsDistinct(recency, key);
  }

  /** A key that is used moves to the front, and the others keep their order. */
  lemma FrontMeans(recency: seq<string>, key: string, k: nat)
    requires DistinctKeys(recency)
    ensures key !in recency ==> Front(recency, key) == [key] + recency
    ensures k < |recency| && recency[k] == key ==> Front(recency, key) == [key] + (recency[..k] + recency[k + 1..])
  {
    if key !in recency {
      NoneToTakeOut(recency, key);
    } else if k < |recency| && recency[k] == key {
      TakenOut(recency, key, k);
    }
  }

  lemma {:induction false} NoneToTakeOut(recency: seq<string>, key: string)
    requires key !in recency
    ensures WithoutKey(recency, key) == recency
  {
    if recency != [] {
      NoneToTakeOut(recency[1..], key);
      assert recency == [recency[0]] + recency[1..];
    }
  }

  lemma {:induction false} TakenOut(recency: seq<string>, key: string, k: nat)
    requires DistinctKeys(recency) && k < |recency| && recency[k] == key
    ensures WithoutKey(recency, key) == recency[..k] + recency[k + 1..]
  {
    RestIsDistinct(recency);
    if k == 0 {
      NoneToTakeOut(recency[1..], key);
    } else {
      TakenOut(recency[1..], key, k - 1);
      TailOf(recency, k);
    }
  }

  lemma RestIsDistinct(recency: seq<string>)
    requires recency != [] && DistinctKeys(recency)
    ensures DistinctKeys(recency[1..]) && recency[0] !in recency[1..]
    ensures forall x :: x in recency <==> x == recency[0] || x in recency[1..]
  {
    var rest := recency[1..];
    assert forall i :: 0 <= i < |rest| ==> rest[i] == recency[i + 1];
    assert recency == [recency[0]] + rest;
  }

  lemma TailOf(recency: seq<string>, k: nat)
    requires 0 < k < |recency|
    ensures recency[..k] == [recency[0]] + recency[1..][..k - 1]
    ensures recency[1..][k - 1] == recency[k] && recency[1..][k..] == recency[k + 1..]
  {
  }

  /** The recency list once a key has been used, cut to the cache's capacity. */
  function LastUsed(recency: seq<string>, key: string): seq<string> {
    var all := Front(recency, key);
    if |all| > CAPACITY then all[..CAPACITY] else all
  }

  /** The cache and the recency list hold the same keys, none twice, and not too many. */
  ghost predicate Cached(entries: map<string, CacheEntry>, recency: seq<string>) {
    DistinctKeys(recency) && |recency| <= 1024 && forall key :: key in entries <==> key in recency
  }

  /** Every cached answer is right for the names it was computed for. */
  ghost predicate Coherent(entries: map<string, CacheEntry>, filled: map<string, seq<string>>, prices: set<ReferencePrice>) {
    && entries.Keys == filled.Keys
    && forall key :: key in entries ==>
         && NameList(filled[key]) && CacheKey(filled[key]) == key
         && Right(prices, filled[key], entries[key].found, entries[key].price)
  }

  /** The same prices, whatever was noted about failed attempts since. */
  predicate SamePrices(a: Metadata, b: Metadata) {
    a.version == b.version && a.usable == b.usable && a.hash == b.hash && a.modelCount == b.modelCount && a.fetchedAt == b.fetchedAt
  }

  // ----- The manager ------------------------------------------------------------------

  class Manager {
    var metadata: Metadata
    var sequence: nat
    var refreshing: bool
    var entries: map<string, CacheEntry>
    var recency: seq<string>
    /** The metadata in the database; they may lack a failed attempt that could not be saved. */
    var recorded: Metadata
    /** The names each cached answer was computed for. */
    ghost var filled: map<string, seq<string>>
    /** The price set of the version in metadata. */
    ghost var published: set<ReferencePrice>
    /** The price set in the database; ahead of published only while a new one is being published. */
    ghost var stored: set<ReferencePrice>
    ghost var publishing: bool
    /** Lookups holding the storage lock for reading, by the names they look up. */
    ghost var readers: map<int, seq<string>>

    ghost predicate Valid()
      reads this
    {
      && Cached(entries, recency) && Coherent(entries, filled, published)
      && (publishing ==> refreshing && readers == map[])
      && (!publishing ==> stored == published && SamePrices(recorded, metadata))
      && (readers != map[] ==> metadata.usable)
      && (!metadata.usable ==> entries == map[])
    }

    constructor (metadata: Metadata, ghost prices: set<ReferencePrice>)
      ensures Valid() && this.metadata == metadata == recorded && published == prices && entries == map[] && !refreshing && readers == map[]
    {
      this.metadata, sequence, refreshing, entries, recency := metadata, 0, false, map[], [];
      recorded, filled, published, stored, publishing, readers := metadata, map[], prices, prices, false, map[];
    }

    /**
      The cached path of lookup, which takes no storage lock and may run at any moment. The
      answer is right for the published prices unless the request shares its key with another
      one; then it is right for some request with that key, and the only other one that two
      names without NUL characters have to fear is the one for their joined name.
     */
    method LookupCached(upstream: string, requested: string) returns (answer: Option<Answer>)
      requires Valid()
      modifies this`recency
      ensures Valid()
      ensures var keys, key := RequestKeys(upstream, requested), CacheKey(RequestKeys(upstream, requested));
              && (answer.Some? <==> key in entries)
              && recency == (if key in entries then Front(old(recency), key) else old(recency))
              && (answer.Some? ==>
                    && answer.value == Answer(entries[key].price, entries[key].found, metadata, sequence)
                    && Right(published, filled[key], answer.value.found, answer.value.price)
                    && NameList(filled[key]) && CacheKey(filled[key]) == key
                    && (!Ambiguous(keys) ==> Right(published, keys, answer.value.found, answer.value.price))
                    && (NulFree(keys) && |keys| == 2 && filled[key] != [Joined(keys[0], keys[1])] ==>
                          Right(published, keys, answer.value.found, answer.value.price)))
    {
      hide Right, DistinctKeys, NulFree, RequestKeys, NameList, Ambiguous, CacheKey, Joined;
      var keys := RequestKeys(upstream, requested);
      var key := CacheKey(keys);
      if key !in entries { return None; }
      RequestNames(upstream, requested);
      if keys != filled[key] {
        SharingIsAmbiguous(keys, filled[key]);
        if NulFree(keys) && |keys| == 2 { OnlyJoined(keys, filled[key]); }
      }
      FrontKeepsDistinct(recency, key);
      recency := Front(recency, key);
      return Some(Answer(entries[key].price, entries[key].found, metadata, sequence));
    }

    /** The uncached path begins: under the storage lock, a closed database fails and an unusable one answers at once. */
    method LookupStart(ghost call: int, upstream: string, requested: string, closed: bool) returns (answer: Option<Result<Answer>>)
      requires Valid() && !publishing && call !in readers
      modifies this`readers
      ensures Valid()
      ensures if closed then answer == Some(Err(CLOSED)) && readers == old(readers)
              else if metadata.usable then answer == None && readers == old(readers)[call := RequestKeys(upstream, requested)]
              else answer == Some(Ok(Answer(NO_PRICE, false, metadata, sequence))) && readers == old(readers)
    {
      hide Cached, Coherent, RequestKeys;
      if closed { return Some(Err(CLOSED)); }
      if !metadata.usable { return Some(Ok(Answer(NO_PRICE, false, metadata, sequence))); }
      readers := readers[call := RequestKeys(upstream, requested)];
      return None;
    }

    /**
      The uncached path ends: the candidates read are matched and cached, evicting the least
      recently used answer if the cache is full, and the lock is released. A failing read ends
      the lookup and caches nothing.
     */
    method LookupFinish(ghost call: int, upstream: string, requested: string, read: Result<seq<ReferencePrice>>) returns (r: Result<Answer>)
      requires Valid() && call in readers && readers[call] == RequestKeys(upstream, requested)
      requires read.Ok? ==> Selected(stored, RequestKeys(upstream, requested), read.value)
      modifies this`entries, this`recency, this`filled, this`readers
      ensures Valid() && readers == old(readers) - {call}
      ensures r.Ok? <==> read.Ok?
      ensures r.Err? ==> r.reason == read.reason && entries == old(entries) && recency == old(recency) && filled == old(filled)
      ensures r.Ok? ==>
                var key := CacheKey(RequestKeys(upstream, requested));
                && Right(published, RequestKeys(upstream, requested), r.value.found, r.value.price)
                && r.value.metadata == metadata && r.value.sequence == sequence
                && recency == LastUsed(old(recency), key)
                && key in entries && entries[key] == CacheEntry(r.value.price, r.value.found)
                && forall other :: other in entries && other != key ==> other in old(entries) && entries[other] == old(entries)[other]
    {
      hide Right, Front, RequestKeys, Selected, Cached, Coherent, NameList;
      if read.Err? {
        readers := readers - {call};
        return Err(read.reason);
      }
      var keys := RequestKeys(upstream, requested);
      var key := CacheKey(keys);
      var price, found := MatchKeys(read.value, keys);
      RequestNames(upstream, requested);
      CandidatesSuffice(published, keys, read.value, found, price);
      var e := CacheEntry(price, found);
      CachePut(entries, recency, filled, published, keys, e);
      recency := Front(recency, key);
      entries, filled := entries[key := e], filled[key := keys];
      if |recency| > CAPACITY {
        var last := recency[|recency| - 1];
        entries, recency, filled := entries - {last}, recency[..CAPACITY], filled - {last};
      }
      readers := readers - {call};
      return Ok(Answer(price, found, metadata, sequence));
    }

    /** refresh begins: joins a running one, or accepts a finished one, or starts one if that is due. */
    method RefreshStart(force: bool, observed: nat, found: bool, now: Time) returns (started: bool, previous: Metadata)
      requires Valid()
      modifies this`refreshing
      ensures Valid() && previous == metadata
      ensures started <==> !old(refreshing) && observed == sequence && (force || (Stale(metadata, found, now) && metadata.retryAfter <= now))
      ensures refreshing == (old(refreshing) || started)
    {
      hide Cached, Coherent;
      StaleNeedsRefresh(metadata, found, now);
      previous := metadata;
      if refreshing { return false, previous; }
      if observed != sequence { return false, previous; }
      if !force && (!NeedsRefresh(metadata, found, now) || now < metadata.retryAfter) { return false, previous; }
      refreshing := true;
      return true, previous;
    }

    /** The database takes metadata, and with a changed download its price set, in one transaction. */
    method SavePrices(next: Metadata, ghost prices: Option<set<ReferencePrice>>, fails: bool) returns (ok: bool)
      requires Valid() && refreshing && !publishing && readers == map[]
      modifies this`stored, this`recorded, this`publishing
      ensures Valid() && ok == !fails
      ensures if ok then publishing && recorded == next && stored == (if prices.Some? then prices.value else old(stored))
              else publishing == old(publishing) && stored == old(stored) && recorded == old(recorded)
    {
      hide Cached, Coherent;
      if fails { return false; }
      publishing := true;
      recorded := next;
      if prices.Some? {
        stored := prices.value;
      }
      return true;
    }

    /** Publication, still under the storage lock: new metadata, and an empty cache if the prices changed. */
    method Publish(next: Metadata, changed: bool)
      requires Valid() && publishing && recorded == next && next.usable && (!changed ==> stored == published && metadata.usable)
      modifies this`metadata, this`entries, this`recency, this`filled, this`published, this`publishing
      ensures Valid() && metadata == next && published == stored && !publishing
      ensures changed ==> entries == map[] && recency == []
      ensures !changed ==> entries == old(entries) && recency == old(recency) && filled == old(filled)
    {
      metadata := next;
      if changed {
        entries, recency, filled := map[], [], map[];
      }
      published, publishing := stored, false;
    }

    /**
      downloadAndCommit once the storage lock is held: a download with the recorded hash only
      renews the times, anything else becomes the next version, and a failure at any point
      leaves prices, metadata and cache as they were.
     */
    method DownloadAndCommit(hash: string, ghost prices: set<ReferencePrice>, count: nat, now: Time, downloadFails: bool, saveFails: bool)
      returns (r: Result<Metadata>)
      requires Valid() && refreshing && !publishing && readers == map[]
      modifies this`metadata, this`recorded, this`entries, this`recency, this`filled, this`published, this`stored, this`publishing
      ensures Valid() && !publishing
      ensures r.Ok? <==> !downloadFails && !saveFails
      ensures var same := old(metadata.usable) && hash == old(metadata.hash);
              if r.Ok? then
                && metadata == recorded == r.value == Renewed(old(recorded), hash, count, now, same)
                && metadata.version == old(metadata.version) + (if same then 0 else 1) && metadata.hash == hash
                && published == (if same then old(published) else prices)
                && entries == (if same then old(entries) else map[])
              else
                && metadata == old(metadata) && recorded == old(recorded)
                && published == old(published) && entries == old(entries) && recency == old(recency)
    {
      hide Cached, Coherent;
      if downloadFails { return Err("Failed to download reference prices"); }
      var same := recorded.usable && hash == recorded.hash;
      var next := Renewed(recorded, hash, count, now, same);
      var ok := SavePrices(next, if same then None else Some(prices), saveFails);
      if !ok { return Err("Failed to save reference prices"); }
      Publish(next, !same);
      return Ok(next);
    }

    /** A failed attempt is noted in the database, if that can be saved. */
    method SaveRetry(next: Metadata, fails: bool)
      requires Valid() && refreshing && !publishing && readers == map[] && SamePrices(next, metadata)
      modifies this`recorded
      ensures Valid() && recorded == if fails then old(recorded) else next
    {
      hide Cached, Coherent;
      if !fails {
        recorded := next;
      }
    }

    /** refresh ends: its metadata stay, the sequence moves on, and waiters may go. */
    method RefreshEnd(next: Metadata)
      requires Valid() && refreshing && !publishing && SamePrices(next, metadata)
      modifies this`metadata, this`sequence, this`refreshing
      ensures Valid() && metadata == next && sequence == old(sequence) + 1 && !refreshing
    {
      hide Cached, Coherent;
      metadata, sequence, refreshing := next, sequence + 1, false;
    }

    /**
      A whole refresh that nothing interrupts. Success publishes; failure notes when to try
      again, in memory always and in the database if that can be saved, and costs no price.
     */
    method Refresh(force: bool, observed: nat, found: bool, now: Time, hash: string, ghost prices: set<ReferencePrice>, count: nat,
                   downloadFails: bool, saveFails: bool, retryFails: bool)
      returns (outcome: Option<Result<Metadata>>)
      requires Valid() && !publishing && readers == map[]
      modifies this
      ensures Valid() && !publishing && readers == map[]
      ensures outcome.Some? <==> !old(refreshing) && observed == old(sequence) &&
                                 (force || (Stale(old(metadata), found, now) && old(metadata.retryAfter) <= now))
      ensures outcome.None? ==>
                metadata == old(metadata) && recorded == old(recorded) && sequence == old(sequence) && refreshing == old(refreshing)
      ensures outcome.Some? ==> sequence == old(sequence) + 1 && !refreshing && (outcome.value.Ok? <==> !downloadFails && !saveFails)
      ensures outcome.Some? && outcome.value.Ok? ==>
                var same := old(metadata.usable) && hash == old(metadata.hash);
                && metadata == recorded == outcome.value.value == Renewed(old(recorded), hash, count, now, same)
                && published == (if same then old(published) else prices) && entries == (if same then old(entries) else map[])
                && metadata.usable && metadata.fetchedAt == now == metadata.lastAttemptAt && metadata.hash == hash
                && metadata.failures == 0 && metadata.retryAfter == ZERO_TIME && metadata.lastError == ""
                && metadata.version == old(metadata.version) + (if same then 0 else 1)
                && metadata.modelCount == (if same then old(metadata.modelCount) else count)
      ensures outcome.Some? && outcome.value.Err? ==>
                && metadata == Failed(old(metadata), now, outcome.value.reason) && SamePrices(metadata, old(metadata))
                && metadata.failures == old(metadata.failures) + 1 && metadata.retryAfter == now + Backoff(metadata.failures)
                && metadata.lastAttemptAt == now && metadata.lastError == outcome.value.reason
                && metadata.usable == old(metadata.usable) && metadata.fetchedAt == old(metadata.fetchedAt)
                && metadata.hash == old(metadata.hash) && metadata.version == old(metadata.version) && metadata.modelCount == old(metadata.modelCount)
                && recorded == (if retryFails then old(recorded) else metadata)
      ensures outcome.None? || outcome.value.Err? ==> published == old(published) && entries == old(entries) && recency == old(recency)
    {
      hide Cached, Coherent, NeedsRefresh, Backoff, Stale;
      var started, previous := RefreshStart(force, observed, found, now);
      if !started { return None; }
      var r := DownloadAndCommit(hash, prices, count, now, downloadFails, saveFails);
      var next := if r.Ok? then r.value else Failed(previous, now, r.reason);
      if r.Err? {
        SaveRetry(next, retryFails);
      }
      RefreshEnd(next);
      return Some(r);
    }
  }

  /** A refresh nobody forces, and how it would go if it were started. */
  datatype Attempt = Attempt(observed: nat, found: bool, now: Time, hash: string, count: nat, downloadFails: bool, saveFails: bool, retryFails: bool)

  /**
    After a failed refresh, forced or not, no unforced one is started before the pause is over,
    however often that is asked for: a minute, twice as long each time, never more than an hour. Every
    refresh that runs counts up the sequence, so none has.
   */
  method FailureWaits(manager: Manager, force: bool, first: Attempt, ghost prices: set<ReferencePrice>, attempts: seq<Attempt>)
    returns (failed: bool, pause: int)
    requires manager.Valid() && !manager.publishing && manager.readers == map[]
    modifies manager
    ensures manager.Valid()
    ensures failed ==> pause == Backoff(old(manager.metadata.failures) + 1) && MINUTE <= pause <= HOUR
    ensures failed && (forall i :: 0 <= i < |attempts| ==> attempts[i].now < first.now + pause) ==>
              manager.metadata.retryAfter == first.now + pause && manager.sequence == old(manager.sequence) + 1 && !manager.refreshing
  {
    hide Cached, Coherent, NeedsRefresh, Renewed;
    BackoffBounds(manager.metadata.failures + 1);
    pause := Backoff(manager.metadata.failures + 1);
    var outcome := manager.Refresh(force, first.observed, first.found, first.now, first.hash, prices, first.count,
                                   first.downloadFails, first.saveFails, first.retryFails);
    failed := outcome.Some? && outcome.value.Err?;
    for i := 0 to |attempts|
      invariant manager.Valid() && !manager.publishing && manager.readers == map[]
      invariant failed && (forall k :: 0 <= k < i ==> attempts[k].now < first.now + pause) ==>
                  manager.metadata.retryAfter == first.now + pause && manager.sequence == old(manager.sequence) + 1 && !manager.refreshing
    {
      var a := attempts[i];
      var _ := manager.Refresh(false, a.observed, a.found, a.now, a.hash, prices, a.count, a.downloadFails, a.saveFails, a.retryFails);
    }
  }

  /**
    After a successful refresh, forced or not, unforced ones wait an hour, or a day where the
    name was found, however often they are asked for; the first one later than that is started.
   */
  method SuccessLasts(manager: Manager, force: bool, first: Attempt, ghost prices: set<ReferencePrice>, attempts: seq<Attempt>, last: Attempt)
    returns (succeeded: bool, again: bool)
    requires manager.Valid() && !manager.publishing && manager.readers == map[] && first.now > ZERO_TIME && last.now > ZERO_TIME
    modifies manager
    ensures manager.Valid()
    ensures succeeded && (forall i :: 0 <= i < |attempts| ==> attempts[i].now <= first.now + (if attempts[i].found then DAY else HOUR)) ==>
              && (again <==> last.now > first.now + (if last.found then 86_400 * SECOND else 3_600 * SECOND))
              && manager.sequence == old(manager.sequence) + (if again then 2 else 1) && !manager.refreshing
  {
    hide Cached, Coherent, NeedsRefresh, Renewed;
    var outcome := manager.Refresh(force, first.observed, first.found, first.now, first.hash, prices, first.count,
                                   first.downloadFails, first.saveFails, first.retryFails);
    succeeded := outcome.Some? && outcome.value.Ok?;
    ghost var renewed := manager.metadata;
    for i := 0 to |attempts|
      invariant manager.Valid() && !manager.publishing && manager.readers == map[]
      invariant succeeded && (forall k :: 0 <= k < i ==> attempts[k].now <= first.now + (if attempts[k].found then DAY else HOUR)) ==>
                  manager.metadata == renewed && manager.sequence == old(manager.sequence) + 1 && !manager.refreshing
    {
      var a := attempts[i];
      var _ := manager.Refresh(false, a.observed, a.found, a.now, a.hash, prices, a.count, a.downloadFails, a.saveFails, a.retryFails);
    }
    var final := manager.Refresh(false, manager.sequence, last.found, last.now, last.hash, prices, last.count,
                                 last.downloadFails, last.saveFails, last.retryFails);
    again := final.Some?;
  }

  /** The pause is a minute after one failure, and doubles with each further one up to an hour. */
  lemma BackoffDoubles(failures: nat)
    requires failures > 0
    ensures Backoff(1) == 60 * SECOND
    ensures Backoff(failures + 1) == Smaller(2 * Backoff(failures), 3_600 * SECOND)
  {
    var n := failures - 1;
    assert Pow2(0) == 1;
    PowersTo6();
    if n < 6 { assert Pow2(n + 1) == 2 * Pow2(n); }
  }

  lemma PowersTo6()
    ensures Pow2(1) == 2 && Pow2(2) == 4 && Pow2(3) == 8 && Pow2(4) == 16 && Pow2(5) == 32 && Pow2(6) == 64
  {
    assert Pow2(0) == 1;
    assert Pow2(2) == 2 * Pow2(1);
    assert Pow2(3) == 2 * Pow2(2);
    assert Pow2(4) == 2 * Pow2(3);
    assert Pow2(5) == 2 * Pow2(4);
    assert Pow2(6) == 2 * Pow2(5);
  }

  lemma BackoffBounds(failures: nat)
    requires failures > 0
    ensures MINUTE <= Backoff(failures) <= HOUR
  {
    PowerGrows(if failures - 1 < 6 then failures - 1 else 6);
  }

  lemma {:induction false} PowerGrows(n: nat)
    ensures Pow2(n) >= 1
  {
    if n > 0 { PowerGrows(n - 1); }
  }

  /**
    Every ambiguous request is answered wrongly in some run: a lookup for the other names with
    its key comes first, and where one of the two requests is priced the other is not.
   */
  method Misled(keys: seq<string>, others: seq<string>, rates: Rates, metadata: Metadata) returns (manager: Manager, answer: Option<Answer>)
    requires NameList(keys) && NameList(others) && |keys| != |others| && CacheKey(keys) == CacheKey(others) && metadata.usable
    ensures fresh(manager) && manager.Valid() && RequestKeys(RequestFor(keys).0, RequestFor(keys).1) == keys
    ensures answer.Some? && !Right(manager.published, keys, answer.value.found, answer.value.price)
  {
    hide Right, Cached, Coherent, RequestKeys, CacheKey, NameList, RealName, ModelKey, RequestFor;
    var pair, single := Longer(keys, others);
    RequestForIsRight(keys);
    RequestForIsRight(others);
    FirstNamePriced(pair, single, rates);
    var price := ReferencePrice("p", "/" + pair[0], true, Some(rates));
    manager := new Manager(metadata, {price});
    var none := manager.LookupStart(0, RequestFor(others).0, RequestFor(others).1, false);
    var candidates := if ModelKey(price.modelID) in others then [price] else [];
    var missed := manager.LookupFinish(0, RequestFor(others).0, RequestFor(others).1, Ok(candidates));
    answer := manager.LookupCached(RequestFor(keys).0, RequestFor(keys).1);
    OneIsWrong({price}, pair, single, rates, missed.value.found, missed.value.price);
  }

  /** Of two lists with one cache key and different lengths, the one with two names, and the other. */
  method Longer(a: seq<string>, b: seq<string>) returns (pair: seq<string>, single: seq<string>)
    requires NameList(a) && NameList(b) && |a| != |b| && CacheKey(a) == CacheKey(b)
    ensures {pair, single} == {a, b} && |pair| == 2 && |single| != 2
  {
    hide RealName;
    SharingIsAmbiguous(a, b);
    SharingIsAmbiguous(b, a);
    return if |a| == 2 then a else b, if |a| == 2 then b else a;
  }

  lemma OneIsWrong(prices: set<ReferencePrice>, pair: seq<string>, single: seq<string>, rates: Rates, found: bool, price: ReferencePrice)
    requires RequestPricedAt(prices, pair, rates) && forall r :: !RequestPricedAt(prices, single, r)
    ensures !(Right(prices, pair, found, price) && Right(prices, single, found, price))
  {
    hide RequestPricedAt;
  }

  /** Adding an answer, and evicting the least recently used one if there are too many, keeps the cache in order. */
  lemma CachePut(entries: map<string, CacheEntry>, recency: seq<string>, filled: map<string, seq<string>>,
                 prices: set<ReferencePrice>, keys: seq<string>, e: CacheEntry)
    requires Cached(entries, recency) && Coherent(entries, filled, prices)
    requires NameList(keys) && Right(prices, keys, e.found, e.price)
    ensures var key := CacheKey(keys);
            var all := Front(recency, key);
            if |all| > CAPACITY then
              var last := all[|all| - 1];
              && |all| == CAPACITY + 1 && last != key
              && Cached(entries[key := e] - {last}, all[..CAPACITY]) && Coherent(entries[key := e] - {last}, filled[key := keys] - {last}, prices)
            else Cached(entries[key := e], all) && Coherent(entries[key := e], filled[key := keys], prices)
  {
    hide Right, WithoutKey, Coherent, DistinctKeys, RealName;
    var key := CacheKey(keys);
    var all := Front(recency, key);
    FrontKeepsDistinct(recency, key);
    CoherentMore(entries, filled, prices, keys, e);
    if |all| > CAPACITY {
      CacheFewer(entries[key := e], all, filled[key := keys], prices);
    }
  }

  lemma CoherentMore(entries: map<string, CacheEntry>, filled: map<string, seq<string>>, prices: set<ReferencePrice>, keys: seq<string>, e: CacheEntry)
    requires Coherent(entries, filled, prices) && NameList(keys) && Right(prices, keys, e.found, e.price)
    ensures Coherent(entries[CacheKey(keys) := e], filled[CacheKey(keys) := keys], prices)
  {
    hide Right;
  }

  lemma CacheFewer(entries: map<string, CacheEntry>, recency: seq<string>, filled: map<string, seq<string>>, prices: set<ReferencePrice>)
    requires |recency| == CAPACITY + 1 && DistinctKeys(recency) && (forall x :: x in entries <==> x in recency) && Coherent(entries, filled, prices)
    ensures var last := recency[|recency| - 1];
            Cached(entries - {last}, recency[..|recency| - 1]) && Coherent(entries - {last}, filled - {last}, prices)
  {
    hide Right;
    var last, rest := recency[|recency| - 1], recency[..|recency| - 1];
    assert recency == rest + [last];
    assert last !in rest;
  }

  // ----- Prices for display -----------------------------------------------------------

  function BatchKeys(batch: seq<string>): (keys: seq<string>) {
    if batch == [] then [] else
    var front, key := BatchKeys(batch[..|batch| - 1]), KeyOf(batch[|batch| - 1]);
    if key == "" || key in front then front else front + [key]
  }

  lemma {:induction false} BatchHasKey(batch: seq<string>, i: nat)
    requires i < |batch| && KeyOf(batch[i]) != ""
    ensures KeyOf(batch[i]) in BatchKeys(batch)
  {
    hide KeyOf;
    if i < |batch| - 1 { BatchHasKey(batch[..|batch| - 1], i); }
  }

  /** The candidates of one name, in the order read. */
  function OfKey(prices: seq<ReferencePrice>, key: string): (r: seq<ReferencePrice>)
    ensures forall p :: p in r <==> p in prices && ModelKey(p.modelID) == key
  {
    if prices == [] then [] else
    var front, last := OfKey(prices[..|prices| - 1], key), prices[|prices| - 1];
    assert prices == prices[..|prices| - 1] + [last];
    if ModelKey(last.modelID) == key then front + [last] else front
  }

  lemma OfKeyPrices(prices: set<ReferencePrice>, keys: seq<string>, candidates: seq<ReferencePrice>, key: string, found: bool, price: ReferencePrice)
    requires Selected(prices, keys, candidates) && key in keys
    requires RightFor(SetOf(OfKey(candidates, key)), key, found, price)
    ensures RightFor(prices, key, found, price)
  {
    hide ModelKey, OfKey, RightFor, PricedAt;
    var own := SetOf(OfKey(candidates, key));
    assert Speaks(own, key) <==> Speaks(prices, key);
    assert forall p :: Decides(own, key, p) <==> Decides(prices, key, p);
    SameDeciders(own, prices, key, found, price);
  }

  lemma SameDeciders(a: set<ReferencePrice>, b: set<ReferencePrice>, key: string, found: bool, price: ReferencePrice)
    requires (forall p :: Decides(a, key, p) <==> Decides(b, key, p)) && RightFor(a, key, found, price)
    ensures RightFor(b, key, found, price)
  {
    hide Decides;
    forall rates
      ensures PricedAt(a, key, rates) <==> PricedAt(b, key, rates)
    {
    }
  }

  /** The first n models have found exactly what a single match would. */
  ghost predicate Displays(prices: set<ReferencePrice>, models: seq<string>, n: nat, matched: map<string, ReferencePrice>)
    requires n <= |models|
  {
    && (forall m :: m in matched ==> m in models[..n])
    && forall i :: 0 <= i < n ==>
         RightFor(prices, KeyOf(models[i]), models[i] in matched, if models[i] in matched then matched[models[i]] else NO_PRICE)
  }

  lemma DisplaysNext(prices: set<ReferencePrice>, models: seq<string>, n: nat, matched: map<string, ReferencePrice>, found: bool, price: ReferencePrice)
    requires n < |models| && Displays(prices, models, n, matched)
    requires RightFor(prices, KeyOf(models[n]), found, if found then price else NO_PRICE)
    ensures Displays(prices, models, n + 1, if found then matched[models[n] := price] else matched)
  {
    hide RightFor, KeyOf;
    assert models[..n + 1] == models[..n] + [models[n]];
    if models[n] in matched {
      var i :| 0 <= i < n && models[i] == models[n];
    }
  }

  /** The batch of models that starts at the given index. */
  function BatchFrom(models: seq<string>, start: nat): seq<string>
    requires start <= |models|
  {
    models[start..if start + BATCH_SIZE < |models| then start + BATCH_SIZE else |models|]
  }

  ghost predicate BatchesRead(models: seq<string>, read: seq<string> -> Result<seq<ReferencePrice>>, n: int) {
    forall start: nat :: start < n && start < |models| && start % BATCH_SIZE == 0 ==> read(BatchKeys(BatchFrom(models, start))).Ok?
  }

  /**
    lookupModels: the batched display lookup finds for each model exactly what a single match
    would. A closed database and a failing read fail it, and an unusable database finds nothing;
    read stands for the database's answer to one batch of names.
   */
  method LookupModels(models: seq<string>, closed: bool, usable: bool, ghost prices: set<ReferencePrice>,
                      read: seq<string> -> Result<seq<ReferencePrice>>)
    returns (r: Result<map<string, ReferencePrice>>)
    requires forall keys :: read(keys).Ok? ==> Selected(prices, keys, read(keys).value)
    ensures r.Ok? <==> models == [] || (!closed && (!usable || BatchesRead(models, read, |models|)))
    ensures r.Ok? ==> if usable then Displays(prices, models, |models|, r.value) else r.value == map[]
  {
    hide Selected, KeyOf, BatchKeys, OfKey, Displays;
    var matched: map<string, ReferencePrice> := map[];
    NothingDisplayed(prices, models);
    if models == [] { return Ok(matched); }
    if closed { return Err(CLOSED); }
    if !usable { return Ok(matched); }
    var start := 0;
    while start < |models|
      invariant 0 <= start && (start < |models| ==> start % BATCH_SIZE == 0)
      invariant BatchesRead(models, read, start) && Displays(prices, models, if start < |models| then start else |models|, matched)
    {
      var end := if start + BATCH_SIZE < |models| then start + BATCH_SIZE else |models|;
      var candidates := read(BatchKeys(models[start..end]));
      if candidates.Err? {
        assert BatchFrom(models, start) == models[start..end];
        return Err(candidates.reason);
      }
      matched := MatchBatch(models, start, end, prices, candidates.value, matched);
      start := start + BATCH_SIZE;
    }
    return Ok(matched);
  }

  lemma NothingDisplayed(prices: set<ReferencePrice>, models: seq<string>)
    ensures Displays(prices, models, 0, map[])
  {
  }

  method MatchBatch(models: seq<string>, start: nat, end: nat, ghost prices: set<ReferencePrice>, candidates: seq<ReferencePrice>,
                    before: map<string, ReferencePrice>)
    returns (matched: map<string, ReferencePrice>)
    requires start <= end <= |models| && Selected(prices, BatchKeys(models[start..end]), candidates)
    requires Displays(prices, models, start, before)
    ensures Displays(prices, models, end, matched)
  {
    hide Selected, RightFor, KeyOf, BatchKeys, OfKey, Displays, SetOf, ModelKey, NormalizeModelID, WithoutThinkingSuffix, Trim, Lower;
    matched := before;
    for i := start to end
      invariant Displays(prices, models, i, matched)
    {
      var key := KeyOf(models[i]);
      var price, found := MatchKey(key, OfKey(candidates, key));
      ModelIsRight(prices, models, start, end, i, candidates, found, price);
      DisplaysNext(prices, models, i, matched, found, price);
      if found {
        matched := matched[models[i] := price];
      }
    }
  }

  lemma ModelIsRight(prices: set<ReferencePrice>, models: seq<string>, start: nat, end: nat, i: nat, candidates: seq<ReferencePrice>,
                     found: bool, price: ReferencePrice)
    requires start <= i < end <= |models| && Selected(prices, BatchKeys(models[start..end]), candidates)
    requires RightFor(SetOf(OfKey(candidates, KeyOf(models[i]))), KeyOf(models[i]), found, price)
    ensures RightFor(prices, KeyOf(models[i]), found, price)
  {
    hide Selected, KeyOf, SetOf, OfKey, Decides;
    var key := KeyOf(models[i]);
    if key != "" {
      assert models[start..end][i - start] == models[i];
      BatchHasKey(models[start..end], i - start);
      OfKeyPrices(prices, BatchKeys(models[start..end]), candidates, key, found, price);
    }
  }
}
