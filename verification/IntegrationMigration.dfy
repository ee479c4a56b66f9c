/**
  The recoverable credential replacement of internal/plugin/integration_migration.go: the
  host keeps a pending record, billing rules and account pools are prepared, and a commit
  retires the old credentials. Host saves, billing saves and settings writes may fail at any
  step, the process may restart between steps, and every step may be retried.
 */
module IntegrationMigration {
  import opened Text
  import opened Model
  import opened Stores
  import opened CredentialMigration
  import opened AccountAliases
  import opened AccountRuntimes
  import M = ReplacementMeaning
  import C = ChangeSets

  // ----- What the host stores ---------------------------------------------------------

  datatype Pending = Pending(id: string, mapping: Mapping, prepared: bool)

  /** An integration account; token stands for its secrets and settings. */
  datatype Account = Account(token: string, pending: Option<Pending>, last: string)

  // ----- Rules and pools --------------------------------------------------------------

  /** The part of the working set that a replacement rewrites, configured credentials aside. */
  datatype Rules = Rules(routes: seq<Route>, groups: seq<Group>, keys: map<string, RouteRule>)

  ghost function RulesOf(s: Snapshot): Rules {
    Rules(s.routes, s.groups, map scope | scope in s.keys :: s.keys[scope].bindings.rule)
  }

  ghost function MigratedRules(mapping: Mapping, complete: bool, r: Rules): Rules {
    Rules(MigratedRoutes(mapping, complete, r.routes), MigratedGroups(mapping, complete, r.groups),
          map scope | scope in r.keys :: MigratedRule(mapping, complete, r.keys[scope]))
  }

  lemma ReplacedRules(mapping: Mapping, complete: bool, order: seq<string>, s: Snapshot)
    requires Enumerates(order, mapping)
    ensures RulesOf(Replaced(mapping, complete, order, s)) == MigratedRules(mapping, complete, RulesOf(s))
  {
    hide MigratedRule, MoveAll;
  }

  /** Retrying any part of a replacement, in any order, leaves what its furthest part leaves. */
  lemma RulesTwice(mapping: Mapping, first: bool, second: bool, r: Rules)
    requires NoChains(mapping)
    ensures MigratedRules(mapping, second, MigratedRules(mapping, first, r)) == MigratedRules(mapping, first || second, r)
  {
    hide MigratedRule, NoChains;
    M.RoutesTwice(mapping, first, second, r.routes);
    M.GroupsTwice(mapping, first, second, r.groups);
    forall scope | scope in r.keys
      ensures MigratedRule(mapping, second, MigratedRule(mapping, first, r.keys[scope])) == MigratedRule(mapping, first || second, r.keys[scope])
    {
      M.RuleTwice(mapping, first, second, r.keys[scope]);
    }
  }

  // ----- The story of one replacement -------------------------------------------------

  datatype Stage = Untouched | Prepared | Completed

  /** The replacement begun last: what it replaces, what it found, and how far it has come. */
  datatype History = History(id: string, mapping: Mapping, base: Rules, pools: Settings, stage: Stage, joined: bool)

  ghost predicate Begun(h: History) {
    h.stage != Untouched || h.joined
  }

  ghost function Expected(h: History): Rules {
    if h.stage == Untouched then h.base else MigratedRules(h.mapping, h.stage == Completed, h.base)
  }

  /** The pools found, or with the replacement's pairs joined and each pool's strictest limit kept. */
  ghost predicate PoolsAt(h: History, s: Settings) {
    if h.joined then Joins(h.pools, h.mapping, s) else s == h.pools
  }

  /** An older replacement that has left nothing to do. */
  ghost predicate Settled(p: Pending, rules: Rules, pools: Settings) {
    && Acceptable(p.mapping) && MigratedRules(p.mapping, true, rules) == rules
    && Joins(pools, p.mapping, pools)
  }

  /** What a stored record claims about the current replacement is true. */
  ghost predicate Tells(h: History, a: Account) {
    && (a.pending.Some? && a.pending.value.id == h.id ==>
          a.pending.value.mapping == h.mapping && (a.pending.value.prepared ==> h.stage != Untouched && h.joined))
    && (a.pending.None? && a.last == h.id ==> h.stage == Completed && h.joined)
  }

  ghost predicate Knows(h: History, a: Account) {
    if a.pending.Some? then a.pending.value.id == h.id else a.last == h.id
  }

  /**
    The protocol's invariant. Nothing is touched before the host has the pending record; a
    record says prepared only once rules and pools are; and what an unsaved record hides is
    either the current replacement or an older one that has left nothing to do.
   */
  ghost predicate Protocol(h: History, saved: Account, unsaved: Option<Account>) {
    && (h.stage != Untouched ==> Acceptable(h.mapping))
    && Tells(h, saved) && (Begun(h) ==> Knows(h, saved))
    && (unsaved.Some? ==> Tells(h, unsaved.value) && (Begun(h) ==> Knows(h, unsaved.value)))
    && (unsaved.Some? && unsaved.value.pending.Some? ==> unsaved.value.pending.value.id == h.id)
    && (unsaved.Some? && unsaved.value.pending.None? && saved.pending.Some? ==> saved.pending.value.id == h.id == unsaved.value.last)
    && (saved.pending.Some? && saved.pending.value.id != h.id ==>
          unsaved.Some? && unsaved.value.pending.Some? && Settled(saved.pending.value, h.base, h.pools))
  }

  // ----- Steps of the story -----------------------------------------------------------

  lemma PrepareRules(h: History, rules: Rules)
    requires NoChains(h.mapping) && rules == Expected(h)
    ensures var next := h.(stage := if h.stage == Completed then Completed else Prepared);
            MigratedRules(h.mapping, false, rules) == Expected(next)
  {
    hide MigratedRules, NoChains;
    RulesTwice(h.mapping, h.stage == Completed, false, h.base);
  }

  lemma CompleteRules(h: History, rules: Rules)
    requires NoChains(h.mapping) && rules == Expected(h)
    ensures MigratedRules(h.mapping, true, rules) == Expected(h.(stage := Completed))
    ensures h.stage == Completed ==> MigratedRules(h.mapping, true, rules) == rules
  {
    hide MigratedRules, NoChains;
    RulesTwice(h.mapping, h.stage == Completed, true, h.base);
  }

  /** Joining what is joined already changes no pool, so the story stands. */
  lemma JoinedOnceMore(h: History, s: Settings, next: Settings)
    requires PoolsAt(h, s) && Joins(s, h.mapping, next) && (AlreadyJoined(s.aliases, Proper(h.mapping)) ==> next == s)
    ensures PoolsAt(h.(joined := true), next)
  {
    hide Root, Rooted, LeastJoin, Strictest, AlreadyJoined, Proper;
  }

  /** Once completed and joined, a replacement is settled. */
  lemma CompletedIsSettled(h: History, p: Pending, rules: Rules, pools: Settings)
    requires h.stage == Completed && h.joined && Acceptable(h.mapping) && rules == Expected(h) && PoolsAt(h, pools)
    requires ValidSettings(pools) && NormalForm(pools, pools) && p.mapping == h.mapping
    ensures Settled(p, rules, pools)
  {
    hide MigratedRules, NoChains, NormalForm, ValidSettings, LeastJoin, Strictest, AlreadyJoined, Acceptable;
    AcceptableHasNoChains(h.mapping);
    CompleteRules(h, rules);
    JoinsItself(pools, p.mapping);
  }

  // ----- However it went, a commit ends the same --------------------------------------

  lemma SamePoolLimits(before: Settings, mapping: Mapping, a: Settings, b: Settings, ref: string)
    requires Joins(before, mapping, a) && Joins(before, mapping, b) && ref in a.accounts && ref in b.accounts
    ensures a.accounts[ref] == b.accounts[ref]
  {
    hide Root, Rooted, LeastJoin, AlreadyJoined, Proper, Stricter;
    forall x
      ensures Root(a.aliases, x) == Root(a.aliases, ref) <==> Root(b.aliases, x) == Root(b.aliases, ref)
    {
      LeastJoinsAgree(before.aliases, Proper(mapping), Proper(mapping).Keys, a.aliases, b.aliases, x, ref);
    }
  }

  /**
    Two replacements that started alike and are both completed, whatever failed, was retried or
    was interrupted on the way, leave the same rules and the same pools with the same limits.
   */
  lemma SameAsCleanRun(h: History, k: History, rules: Rules, rules': Rules, pools: Settings, pools': Settings)
    requires h.mapping == k.mapping && h.base == k.base && h.pools == k.pools
    requires h.stage == k.stage == Completed && h.joined && k.joined
    requires rules == Expected(h) && rules' == Expected(k) && PoolsAt(h, pools) && PoolsAt(k, pools')
    ensures rules == rules'
    ensures forall x, y :: SamePool(pools.aliases, x, y) <==> SamePool(pools'.aliases, x, y)
    ensures forall ref :: ref in pools.accounts && ref in pools'.accounts ==> pools.accounts[ref] == pools'.accounts[ref]
  {
    hide Root, Rooted, LeastJoin, AlreadyJoined, Strictest, MigratedRules, Proper, SamePool;
    forall x, y
      ensures SamePool(pools.aliases, x, y) <==> SamePool(pools'.aliases, x, y)
    {
      LeastJoinsAgree(h.pools.aliases, Proper(h.mapping), Proper(h.mapping).Keys, pools.aliases, pools'.aliases, x, y);
    }
    forall ref | ref in pools.accounts && ref in pools'.accounts
      ensures pools.accounts[ref] == pools'.accounts[ref]
    {
      SamePoolLimits(h.pools, h.mapping, pools, pools', ref);
    }
  }

  // ----- Saving the host's record -----------------------------------------------------

  /** What may be saved: a record of the current replacement, or one older records do not contradict. */
  ghost predicate MaySave(h: History, saved: Account, a: Account) {
    && Tells(h, a) && (Begun(h) ==> Knows(h, a))
    && (a.pending.Some? ==> a.pending.value.id == h.id)
    && (a.pending.None? && saved.pending.Some? ==> saved.pending.value.id == h.id == a.last)
  }

  lemma SavingKeepsProtocol(h: History, saved: Account, unsaved: Option<Account>, a: Account)
    requires Protocol(h, saved, unsaved) && MaySave(h, saved, a)
    ensures Protocol(h, a, None)
    ensures Protocol(h, saved, Some(a))
  {
    hide Settled, Acceptable;
  }

  /** Progress needs the host to have the record already. */
  lemma ProgressKeepsProtocol(h: History, next: History, saved: Account, unsaved: Option<Account>)
    requires Protocol(h, saved, unsaved) && Knows(h, saved) && (unsaved.Some? ==> Knows(h, unsaved.value)) && Acceptable(h.mapping)
    requires next == h.(stage := next.stage, joined := h.joined || next.joined)
    requires next.stage == h.stage || next.stage == Completed || h.stage == Untouched
    ensures Protocol(next, saved, unsaved)
  {
    hide Settled, Acceptable;
  }

  /** A new replacement may begin, and be held in memory, once none is pending. */
  lemma StartOver(h: History, saved: Account, unsaved: Option<Account>, account: Account, rules: Rules, pools: Settings)
    requires Protocol(h, saved, unsaved) && rules == Expected(h) && PoolsAt(h, pools) && ValidSettings(pools) && NormalForm(pools, pools)
    requires (if unsaved.Some? then unsaved.value else saved).pending.None? && account.pending.Some? && !account.pending.value.prepared
    requires account.pending.value.id != h.id && account.pending.value.id != saved.last
    requires saved.pending.Some? ==> account.pending.value.id != saved.pending.value.id
    ensures var next := History(account.pending.value.id, account.pending.value.mapping, rules, pools, Untouched, false);
            && Protocol(next, saved, Some(account)) && MaySave(next, saved, account)
            && rules == Expected(next) && PoolsAt(next, pools)
  {
    hide MigratedRules, NoChains, Joins, NormalForm, ValidSettings, Acceptable;
    if saved.pending.Some? {
      AcceptableHasNoChains(h.mapping);
      CompletedIsSettled(h, saved.pending.value, rules, pools);
    }
  }

  /** The story a restarted process continues: the one its host record tells. */
  ghost function Resumption(h: History, saved: Account, rules: Rules, pools: Settings): History {
    if saved.pending.Some? && saved.pending.value.id != h.id then
      History(saved.pending.value.id, saved.pending.value.mapping, rules, pools, Completed, true)
    else h
  }

  lemma Resumed(h: History, saved: Account, unsaved: Option<Account>, rules: Rules, pools: Settings)
    requires Protocol(h, saved, unsaved) && rules == Expected(h) && PoolsAt(h, pools)
    ensures var next := Resumption(h, saved, rules, pools);
            && Protocol(next, saved, None) && rules == Expected(next) && PoolsAt(next, pools)
            && (next == h || Settled(saved.pending.value, Expected(next), pools))
  {
    hide MigratedRules, NoChains, Joins, Acceptable;
    if saved.pending.Some? && saved.pending.value.id != h.id {
      assert rules == h.base && pools == h.pools;
    }
  }

  method LoadKeys(keys: map<string, Key>) returns (records: map<string, KeyState>)
    ensures Separate(records) && KeysOf(records) == keys
    ensures forall scope :: scope in records ==> fresh(records[scope])
  {
    records := map[];
    var pending := keys.Keys;
    while pending != {}
      invariant pending <= keys.Keys && records.Keys == keys.Keys - pending
      invariant forall scope :: scope in records ==> fresh(records[scope]) && records[scope].key == keys[scope]
      invariant Separate(records)
      decreases pending
    {
      var scope :| scope in pending;
      pending := pending - {scope};
      var record := new KeyState(keys[scope]);
      records := records[scope := record];
    }
  }

  method Reload(repo: Repository) returns (loaded: Store)
    ensures fresh(loaded) && loaded.repo == repo && (forall c :: c in Cells(loaded.state.keys) ==> fresh(c))
    ensures loaded.Valid() && loaded.Memory() == repo.saved && loaded.dirty == C.NO_CHANGES
  {
    hide Store.Valid, Separate, KeysOf;
    var disk := repo.saved;
    var keys := LoadKeys(disk.keys);
    loaded := new Store(State(disk.plans, keys, disk.routes, disk.groups, disk.access, disk.credentials), repo);
  }

  method Respawn(runtime: AccountRuntime) returns (restarted: AccountRuntime)
    requires runtime.Valid()
    ensures fresh(restarted) && restarted.Valid() && restarted.settings == runtime.settings && restarted.requests == map[]
  {
    hide ValidSettings, NormalForm;
    restarted := new AccountRuntime.Load(runtime.settings);
  }

  /** Every replacement is configured and no replaced credential is. */
  ghost predicate InPlace(mapping: Mapping, held: Inventory) {
    forall o :: o in mapping ==> mapping[o] in held && o !in held
  }

  lemma InventoryCovered(s: Snapshot, credentials: Inventory)
    ensures Covers(s, s.(credentials := credentials), C.NO_CHANGES.(credentials := s.credentials != credentials))
  {
  }

  /** With nothing dirty, the disk holds the working set. */
  lemma CleanIsSaved(store: Store)
    requires store.Valid() && store.dirty == C.NO_CHANGES
    ensures store.repo.saved == store.Memory()
  {
    hide Separate;
    assert Agrees(store.Memory(), store.repo.saved, C.NO_CHANGES);
  }

  // ----- The integration --------------------------------------------------------------

  datatype Outcome = Committed | NoLongerPending | NotPrepared | NotPublished | Failed

  /** One integration account, the billing store and the account pools it shares with everything else. */
  class Integration {
    var store: Store
    var runtime: AccountRuntime
    /** The record in the host's auth directory, and the newer one a failed save left in memory. */
    var saved: Account
    var unsaved: Option<Account>
    ghost var story: History

    ghost predicate Valid()
      reads this, store, store.repo, Cells(store.state.keys), runtime
    {
      && store.Valid() && runtime.Valid()
      && RulesOf(store.Memory()) == RulesOf(store.repo.saved) == Expected(story)
      && PoolsAt(story, runtime.settings)
      && Protocol(story, saved, unsaved)
    }

    /** An account with nothing pending, on a store whose rules are all saved. */
    constructor (store: Store, runtime: AccountRuntime, saved: Account)
      requires store.Valid() && runtime.Valid() && RulesOf(store.Memory()) == RulesOf(store.repo.saved) && saved.pending.None?
      ensures Valid() && this.store == store && this.runtime == runtime && this.saved == saved && unsaved == None
    {
      hide Store.Valid, AccountRuntime.Valid, RulesOf;
      this.store, this.runtime, this.saved, unsaved := store, runtime, saved, None;
      story := History(saved.last + "+", map[], RulesOf(store.Memory()), runtime.settings, Untouched, false);
      new;
      assert |saved.last + "+"| != |saved.last|;
      Apart();
    }

    function Current(): Account
      reads this
    {
      if unsaved.Some? then unsaved.value else saved
    }

    /** The integration, its store and its pools share no memory. */
    lemma Apart()
      ensures this as object != store && this as object != store.repo && this as object != runtime
      ensures store as object != runtime && store.repo as object != runtime
      ensures forall c :: c in Cells(store.state.keys) ==> c as object != this && c as object != runtime && c as object != store.repo
    {
    }

    lemma RecordTellsStory()
      requires Valid() && unsaved == None && saved.pending.Some?
      ensures saved.pending.value.id == story.id && saved.pending.value.mapping == story.mapping
    {
    }

    /** persistIntegrationRecoverably: the record stays in memory until the host has it. */
    method Save(account: Account, fails: bool) returns (ok: bool)
      requires Valid() && MaySave(story, saved, account)
      modifies this`saved, this`unsaved
      ensures Valid() && ok == !fails && Current() == account
      ensures if ok then saved == account && unsaved == None else saved == old(saved) && unsaved == Some(account)
    {
      hide Store.Valid, AccountRuntime.Valid, Protocol, MaySave, PoolsAt, Expected, RulesOf;
      Apart();
      SavingKeepsProtocol(story, saved, unsaved, account);
      unsaved := Some(account);
      if fails { return false; }
      saved, unsaved := account, None;
      return true;
    }

    /** The billing half of preparing. */
    method PrepareBilling(mapping: Mapping, fails: bool) returns (ok: bool)
      requires Valid() && mapping == story.mapping && Knows(story, saved) && unsaved == None
      modifies this`story, store, store.repo
      ensures Valid()
      ensures store.repo == old(store.repo)
      ensures ok ==> story == old(story).(stage := if old(story).stage == Completed then Completed else Prepared)
      ensures !ok ==> story == old(story)
      ensures if ok then Acceptable(mapping) else fails || !Acceptable(mapping)
    {
      hide Store.Valid, AccountRuntime.Valid, Protocol, Joins, Expected, RulesOf, Acceptable, Replaced, Knows, NoChains, MigratedRules;
      Apart();
      ghost var before, h := store.Memory(), story;
      ghost var order;
      ok, order := MigrateCredentialRefs(store, mapping, false, fails);
      Apart();
      if ok {
        CleanIsSaved(store);
        AcceptableHasNoChains(mapping);
        ReplacedRules(mapping, false, order, before);
        PrepareRules(h, RulesOf(before));
        story := h.(stage := if h.stage == Completed then Completed else Prepared);
        ProgressKeepsProtocol(h, story, saved, unsaved);
      }
    }

    /** The concurrency half of preparing. */
    method PreparePools(mapping: Mapping, fails: bool) returns (ok: bool)
      requires Valid() && mapping == story.mapping && Knows(story, saved) && unsaved == None && Acceptable(mapping)
      modifies this`story, runtime
      ensures Valid()
      ensures ok ==> story == old(story).(joined := true)
      ensures !ok ==> story == old(story)
      ensures !ok ==> fails || !GoodAliases(Proper(mapping)) || |Involved(old(runtime.settings), Proper(mapping))| > MAX_POLICIES
    {
      hide Store.Valid, AccountRuntime.Valid, Protocol, MigratedRules, RulesOf, Knows, Acceptable, GoodAliases, Involved, Joins, AlreadyJoined;
      Apart();
      ghost var h, before := story, runtime.settings;
      ok := runtime.MigrateCredentialRefs(mapping, fails);
      Apart();
      if ok {
        JoinedOnceMore(h, before, runtime.settings);
        story := h.(joined := true);
        ProgressKeepsProtocol(h, story, saved, unsaved);
      }
    }

    /**
      prepareIntegrationReplacement: saves what an earlier failure left unsaved, then prepares
      rules, then pools, then says so in the record. It may stop after any of these and be
      called again.
     */
    method Prepare(failing: Failures) returns (ok: bool)
      requires Valid()
      modifies this`saved, this`unsaved, this`story, store, store.repo, runtime
      ensures Valid()
      ensures ok && Current().pending.Some? ==> Current().pending.value.prepared
      ensures ok ==> unsaved == None
      ensures Current() == old(Current()) ||
              (old(Current()).pending.Some? && Current() == old(Current()).(pending := Some(old(Current()).pending.value.(prepared := true))))
      ensures store == old(store) && runtime == old(runtime)
      ensures story.id == old(story).id && story.mapping == old(story).mapping && story.base == old(story).base && story.pools == old(story).pools
      ensures old(story).stage == Completed ==> story.stage == Completed
      ensures (old(unsaved).None? || !failing.record) && !failing.billing && !failing.pools && !failing.mark ==>
                (old(Current()).pending.Some? ==> Takes(old(Current()).pending.value.mapping, old(runtime.settings))) ==> ok
      ensures old(unsaved).Some? && failing.record ==> !ok && Current() == old(Current()) && saved == old(saved) && story == old(story)
      ensures ok && Current().pending.Some? && Current().pending.value.id == story.id ==> story.stage != Untouched && story.joined
      ensures old(unsaved).None? ==> saved == old(saved) || saved == Current()
    {
      hide Store.Valid, AccountRuntime.Valid, Expected, RulesOf, PoolsAt, Settled, Acceptable, GoodAliases, Involved;
      var account := Current();
      if unsaved.Some? {
        ok := Save(account, failing.record);
        if !ok { return; }
      }
      if account.pending.None? || account.pending.value.prepared { return true; }
      var pending := account.pending.value;
      ok := PrepareBilling(pending.mapping, failing.billing);
      if !ok { return; }
      ok := PreparePools(pending.mapping, failing.pools);
      if !ok { return; }
      ok := Save(account.(pending := Some(pending.(prepared := true))), failing.mark);
    }

    /**
      saveIntegrationReplacement: a new secret and, if it changes credential identities, a new
      pending record under an identifier nothing else has. Refused while one is pending.
     */
    method Begin(token: string, id: string, mapping: Mapping, failing: Failures, recordFails: bool) returns (ok: bool)
      requires Valid() && Unused(id)
      modifies this`saved, this`unsaved, this`story, store, store.repo, runtime
      ensures Valid()
      ensures old(Current()).pending.Some? ==>
                !ok && story == old(story) && saved == old(saved) && unsaved == old(unsaved)
      ensures old(Current()).pending.None? ==> Current().token == token
      ensures old(Current()).pending.None? && mapping != map[] ==>
                story.id == id && story.mapping == mapping && story.base == old(RulesOf(store.Memory())) && story.pools == old(runtime.settings)
      ensures old(Current()).pending.None? && mapping == map[] ==> story == old(story) && Current().pending.None?
      ensures old(Current()).pending.None? && recordFails ==> !ok && saved == old(saved) && RulesOf(store.Memory()) == old(RulesOf(store.Memory()))
      ensures old(Current()).pending.None? && !recordFails ==>
                saved.token == token && (mapping != map[] ==> saved.pending.Some? && saved.pending.value.id == id && saved.pending.value.mapping == mapping)
      ensures ok ==> unsaved == None && saved.token == token
      ensures ok && mapping != map[] ==> saved.pending == Some(Pending(id, mapping, true)) && story.stage != Untouched && story.joined
      ensures old(Current()).pending.None? && !recordFails && failing == NO_FAILURES && (mapping != map[] ==> Takes(mapping, old(runtime.settings))) ==> ok
    {
      hide Store.Valid, AccountRuntime.Valid, Expected, RulesOf, PoolsAt, Settled, Acceptable, Joins, MigratedRules;
      Apart();
      var previous := Current();
      if previous.pending.Some? { return false; }
      var account := previous.(token := token);
      if mapping != map[] {
        account := account.(pending := Some(Pending(id, mapping, false)));
        Start(account);
      }
      ok := Save(account, recordFails);
      if !ok { return; }
      ok := Prepare(failing);
    }

    /** A replacement nothing has been done for yet, held in memory until the host has it. */
    method Start(account: Account)
      requires Valid() && Current().pending.None? && account.pending.Some? && !account.pending.value.prepared
      requires Unused(account.pending.value.id)
      modifies this`story, this`unsaved
      ensures Valid() && MaySave(story, saved, account)
      ensures story == History(account.pending.value.id, account.pending.value.mapping, RulesOf(store.Memory()), runtime.settings, Untouched, false)
      ensures unsaved == Some(account)
    {
      hide Store.Valid, RulesOf, Protocol, MaySave, Expected, PoolsAt, NormalForm, ValidSettings, AccountRuntime.Tracked;
      Apart();
      ghost var rules, pools := RulesOf(store.Memory()), runtime.settings;
      StartOver(story, saved, unsaved, account, rules, pools);
      story := History(account.pending.value.id, account.pending.value.mapping, rules, pools, Untouched, false);
      unsaved := Some(account);
    }

    ghost predicate Unused(id: string)
      reads this
    {
      && id != story.id && id != saved.last && id != Current().last
      && (saved.pending.Some? ==> id != saved.pending.value.id)
    }

    /** The management browser reports the host's channels: SyncConfigCredentials. No rule and no pool changes. */
    method Sync(credentials: Inventory, fails: bool) returns (ok: bool)
      requires Valid()
      modifies store, store.repo
      ensures Valid()
      ensures ok ==> store.Memory() == old(store.Memory()).(credentials := credentials)
      ensures !ok ==> fails && store.Memory() == old(store.Memory())
    {
      hide Store.Valid, AccountRuntime.Valid, Protocol, PoolsAt, Expected, Covers, Separate, C.Merge;
      Apart();
      ghost var before := store.Memory();
      var next := store.CopyForEdit();
      assert store.Memory() == before;
      var c := C.NO_CHANGES.(credentials := next.credentials != credentials);
      next := next.(credentials := credentials);
      InventoryCovered(before, credentials);
      ok := store.Publish(next, c, fails);
      Apart();
      if ok { CleanIsSaved(store); }
    }

    /**
      A crash and a new process: what the host, the database and the settings file hold is all
      there is. A record lost with the process leaves either nothing begun or an older
      replacement with nothing left to do.
     */
    method Restart()
      requires Valid()
      modifies this
      ensures Valid() && unsaved == None && saved == old(saved)
      ensures fresh(store) && fresh(runtime) && store.repo == old(store.repo)
      ensures store.Memory() == old(store.repo.saved) && store.dirty == C.NO_CHANGES
      ensures runtime.settings == old(runtime.settings) && runtime.requests == map[]
      ensures story == Resumption(old(story), saved, old(RulesOf(store.Memory())), runtime.settings)
    {
      hide Store.Valid, Store.Memory, AccountRuntime.Valid, Protocol, PoolsAt, Expected, RulesOf, Settled, Resumption;
      Apart();
      ghost var rules, disk, pools := RulesOf(store.Memory()), store.repo.saved, runtime.settings;
      var restarted := Respawn(runtime);
      var loaded := Reload(store.repo);
      Resumed(story, saved, unsaved, rules, pools);
      assert forall c :: c in Cells(loaded.state.keys) ==> c as object != this;
      story := Resumption(story, saved, rules, pools);
      store, runtime, unsaved := loaded, restarted, None;
      Apart();
      assert store.Valid() && store.Memory() == store.repo.saved == disk;
      assert runtime.Valid() && runtime.settings == pools;
    }

    method Published(mapping: Mapping) returns (published: bool)
      ensures published <==> InPlace(mapping, store.state.credentials)
    {
      var pending := mapping.Keys;
      while pending != {}
        invariant pending <= mapping.Keys
        invariant forall o :: o in mapping && o !in pending ==> mapping[o] in store.state.credentials && o !in store.state.credentials
        decreases pending
      {
        var o :| o in pending;
        pending := pending - {o};
        if mapping[o] !in store.state.credentials || o in store.state.credentials { return false; }
      }
      return true;
    }

    /** The billing half of committing. */
    method CompleteBilling(mapping: Mapping, fails: bool) returns (ok: bool)
      requires Valid() && mapping == story.mapping && Knows(story, saved) && Knows(story, Current()) && Acceptable(mapping)
      modifies this`story, store, store.repo
      ensures Valid()
      ensures ok ==> story == old(story).(stage := Completed)
      ensures !ok ==> story == old(story)
      ensures !ok ==> fails
      ensures ok && old(story).stage == Completed ==> RulesOf(store.Memory()) == old(RulesOf(store.Memory()))
    {
      hide Store.Valid, AccountRuntime.Valid, Protocol, Joins, Expected, RulesOf, Acceptable, Replaced, Knows, NoChains, MigratedRules;
      Apart();
      ghost var before, h := store.Memory(), story;
      ghost var order;
      ok, order := MigrateCredentialRefs(store, mapping, true, fails);
      Apart();
      if ok {
        CleanIsSaved(store);
        AcceptableHasNoChains(mapping);
        ReplacedRules(mapping, true, order, before);
        CompleteRules(h, RulesOf(before));
        story := h.(stage := Completed);
        ProgressKeepsProtocol(h, story, saved, unsaved);
      }
    }

    /**
      commitIntegrationReplacement. Committed means done and on record: the rules are those a
      completion leaves, the pools are joined, and the host's own record says so.
     */
    method Commit(migrationID: string, failing: Failures) returns (r: Outcome)
      requires Valid()
      modifies this`saved, this`unsaved, this`story, store, store.repo
      ensures Valid()
      ensures r == Committed ==> saved.pending.None? && saved.last == migrationID && unsaved == None
      ensures r == Committed && migrationID == story.id ==> story.stage == Completed && story.joined
      ensures story == old(story) || story == old(story).(stage := Completed)
      ensures old(story).stage == Completed ==> RulesOf(store.Memory()) == old(RulesOf(store.Memory()))
      ensures r == NoLongerPending <==> old(Current()).pending.None? && old(Current()).last != migrationID
      ensures r == NotPrepared <==>
                old(Current()).pending.Some? && !(old(Current()).pending.value.id == migrationID && old(Current()).pending.value.prepared)
      ensures r == NotPublished <==>
                && old(Current()).pending.Some? && old(Current()).pending.value.id == migrationID && old(Current()).pending.value.prepared
                && !InPlace(old(Current()).pending.value.mapping, old(store.state.credentials))
      ensures r == Failed ==>
                if old(Current()).pending.Some? then failing.billing || failing.mark else old(unsaved).Some? && failing.mark
      ensures story != old(story) ==>
                && old(Current()).pending == Some(Pending(migrationID, story.mapping, true))
                && InPlace(story.mapping, old(store.state.credentials))
    {
      hide Store.Valid, AccountRuntime.Valid, Expected, RulesOf, PoolsAt, Settled, Acceptable, GoodAliases, Involved;
      Apart();
      var account := Current();
      if account.pending.None? {
        if account.last != migrationID { return NoLongerPending; }
        if unsaved.Some? {
          var kept := Save(account, failing.mark);
          if !kept { return Failed; }
        }
        return Committed;
      }
      var pending := account.pending.value;
      if pending.id != migrationID || !pending.prepared { return NotPrepared; }
      var published := Published(pending.mapping);
      if !published { return NotPublished; }
      var ok := CompleteBilling(pending.mapping, failing.billing);
      if !ok { return Failed; }
      ok := Save(account.(pending := None, last := pending.id), failing.mark);
      return if ok then Committed else Failed;
    }
  }

  /**
    Whatever has happened, once the host has a record the replacement can be finished: after a
    restart, a repair, a synchronization and a commit that do not fail.
   */
  method Recover(a: Integration, published: Inventory) returns (r: Outcome)
    requires a.Valid() && a.saved.pending.Some? && Takes(a.saved.pending.value.mapping, a.runtime.settings)
    requires InPlace(a.saved.pending.value.mapping, published)
    modifies a, a.store, a.store.repo, a.runtime
    ensures a.Valid() && r == Committed
    ensures a.saved.pending.None? && a.saved.last == old(a.saved).pending.value.id == a.story.id
    ensures a.story.mapping == old(a.saved).pending.value.mapping && a.story.stage == Completed && a.story.joined
    ensures old(a.saved).pending.value.id == old(a.story).id ==> a.story.base == old(a.story).base && a.story.pools == old(a.story).pools
  {
    hide Integration.Valid, Takes, InPlace;
    a.Restart();
    a.RecordTellsStory();
    var prepared := a.Prepare(NO_FAILURES);
    var synced := a.Sync(published, false);
    r := a.Commit(a.Current().pending.value.id, NO_FAILURES);
  }

  /** Which of the writes on the way fail. */
  datatype Failures = Failures(record: bool, billing: bool, pools: bool, mark: bool)

  const NO_FAILURES := Failures(false, false, false, false)

  /** Billing accepts the mapping, and the pools have room for what it joins. */
  ghost predicate Takes(mapping: Mapping, pools: Settings) {
    Acceptable(mapping) && GoodAliases(Proper(mapping)) && |Involved(pools, Proper(mapping))| <= MAX_POLICIES
  }
}
