/**
  Upstream account slots of internal/plugin/account_runtime.go: one pool per replaced
  credential family, the strictest limit any member asks for, and a count of the requests
  each pool is serving.
 */
module AccountRuntimes {
  import opened Text
  import opened AccountAliases
  import opened SlotCounts

  const MAX_POLICIES := 20000
  const MAX_LIMIT := 1000
  const MAX_REQUESTS := 100000
  const REF_PREFIX := "sha256:"

  predicate IsRef(ref: string) {
    && |ref| == 71 && REF_PREFIX <= ref
    && forall i :: |REF_PREFIX| <= i < |ref| ==> '0' <= ref[i] <= '9' || 'a' <= ref[i] <= 'f'
  }

  /** Per-account limits (zero: unlimited), and the aliases of replaced credentials. */
  datatype Settings = Settings(accounts: map<string, int>, requireTurnState: bool, aliases: Aliases)

  // ----- Valid settings ---------------------------------------------------------------

  ghost predicate GoodAccounts(accounts: map<string, int>) {
    |accounts| <= MAX_POLICIES && forall ref :: ref in accounts ==> IsRef(ref) && 0 <= accounts[ref] <= MAX_LIMIT
  }

  ghost predicate GoodAliases(al: Aliases) {
    |al| <= MAX_POLICIES && (forall ref :: ref in al ==> IsRef(ref) && IsRef(al[ref])) && Acyclic(al)
  }

  ghost predicate ValidSettings(s: Settings) {
    GoodAccounts(s.accounts) && GoodAliases(s.aliases)
  }

  /** validateAccountRuntimeSettings. */
  method ValidateSettings(s: Settings) returns (trouble: Option<string>)
    ensures trouble.None? <==> ValidSettings(s)
  {
    hide IsRef, Acyclic;
    if |s.accounts| > MAX_POLICIES || |s.aliases| > MAX_POLICIES { return Some("Too many account policies"); }
    var fine := AllPoliciesFine(s.accounts);
    if !fine { return Some("Account concurrency requires a credential reference and a limit between 0 and 1000"); }
    fine := AllAliasesFine(s.aliases);
    if !fine { return Some("Invalid account credential alias"); }
    var flat := FlattenAliases(s.aliases);
    return if flat.Ok? then None else Some("Account credential aliases contain a cycle");
  }

  method AllPoliciesFine(accounts: map<string, int>) returns (fine: bool)
    ensures fine <==> forall ref :: ref in accounts ==> IsRef(ref) && 0 <= accounts[ref] <= MAX_LIMIT
  {
    hide IsRef;
    var pending := accounts.Keys;
    while pending != {}
      invariant pending <= accounts.Keys
      invariant forall ref :: ref in accounts && ref !in pending ==> IsRef(ref) && 0 <= accounts[ref] <= MAX_LIMIT
      decreases pending
    {
      var ref :| ref in pending;
      pending := pending - {ref};
      if !IsRef(ref) || accounts[ref] < 0 || accounts[ref] > MAX_LIMIT { return false; }
    }
    return true;
  }

  method AllAliasesFine(al: Aliases) returns (fine: bool)
    ensures fine <==> forall ref :: ref in al ==> IsRef(ref) && IsRef(al[ref])
  {
    hide IsRef;
    var pending := al.Keys;
    while pending != {}
      invariant pending <= al.Keys
      invariant forall ref :: ref in al && ref !in pending ==> IsRef(ref) && IsRef(al[ref])
      decreases pending
    {
      var ref :| ref in pending;
      pending := pending - {ref};
      if !IsRef(ref) || !IsRef(al[ref]) { return false; }
    }
    return true;
  }

  // ----- The strictest limit of a pool ------------------------------------------------

  function Stricter(a: int, b: int): (r: int) {
    if a == 0 then b else if b == 0 || a < b then a else b
  }

  /** limit is the smallest nonzero limit among those members of the root's pool, or zero if they ask for none. */
  ghost predicate Strictest(accounts: map<string, int>, al: Aliases, members: set<string>, root: string, limit: int)
    requires Acyclic(al) && members <= accounts.Keys
  {
    && (limit != 0 ==> exists ref :: ref in members && Root(al, ref) == root && accounts[ref] == limit)
    && (forall ref :: ref in members && Root(al, ref) == root ==> accounts[ref] == 0 || (limit != 0 && limit <= accounts[ref]))
  }

  lemma StrictestUnique(accounts: map<string, int>, al: Aliases, members: set<string>, root: string, a: int, b: int)
    requires Acyclic(al) && members <= accounts.Keys
    requires Strictest(accounts, al, members, root, a) && Strictest(accounts, al, members, root, b)
    ensures a == b
  {
    hide Acyclic, Root;
  }

  ghost predicate LimitsOf(accounts: map<string, int>, al: Aliases, members: set<string>, limits: map<string, int>)
    requires Acyclic(al) && members <= accounts.Keys
  {
    forall root :: Strictest(accounts, al, members, root, Get(limits, root))
  }

  lemma StrictestOneMore(accounts: map<string, int>, al: Aliases, members: set<string>, root: string, limit: int, ref: string)
    requires Acyclic(al) && members <= accounts.Keys && ref in accounts && ref !in members
    requires (forall r :: r in accounts ==> 0 <= accounts[r]) && 0 <= limit
    requires Strictest(accounts, al, members, root, limit)
    ensures Strictest(accounts, al, members + {ref}, root, if Root(al, ref) == root then Stricter(limit, accounts[ref]) else limit)
  {
    hide Rooted, Root;
    if limit != 0 {
      var x :| x in members && Root(al, x) == root && accounts[x] == limit;
      assert x in members + {ref};
    }
    assert ref in members + {ref};
  }

  lemma LimitsOneMore(accounts: map<string, int>, al: Aliases, members: set<string>, limits: map<string, int>, ref: string)
    requires Acyclic(al) && members <= accounts.Keys && ref in accounts && ref !in members
    requires (forall r :: r in accounts ==> 0 <= accounts[r]) && (forall r :: r in limits ==> 0 <= limits[r])
    requires LimitsOf(accounts, al, members, limits)
    ensures var root := Root(al, ref);
            LimitsOf(accounts, al, members + {ref}, limits[root := Stricter(Get(limits, root), accounts[ref])])
  {
    hide Rooted, Root, Strictest;
    var root := Root(al, ref);
    var next := limits[root := Stricter(Get(limits, root), accounts[ref])];
    forall r
      ensures Strictest(accounts, al, members + {ref}, r, Get(next, r))
    {
      assert Strictest(accounts, al, members, r, Get(limits, r));
      StrictestOneMore(accounts, al, members, r, Get(limits, r), ref);
    }
  }

  lemma NoLimitsYet(accounts: map<string, int>, al: Aliases)
    requires Acyclic(al)
    ensures LimitsOf(accounts, al, {}, map[])
  {
  }

  method PoolLimits(accounts: map<string, int>, al: Aliases) returns (limits: map<string, int>)
    requires Acyclic(al) && forall r :: r in accounts ==> 0 <= accounts[r]
    ensures LimitsOf(accounts, al, accounts.Keys, limits)
    ensures forall root :: root in limits <==> exists ref :: ref in accounts && Root(al, ref) == root
  {
    hide Rooted, Root, LimitsOf;
    limits := map[];
    NoLimitsYet(accounts, al);
    var pending := accounts.Keys;
    assert accounts.Keys - pending == {};
    while pending != {}
      invariant pending <= accounts.Keys && LimitsOf(accounts, al, accounts.Keys - pending, limits)
      invariant forall r :: r in limits ==> 0 <= limits[r]
      invariant forall root :: root in limits <==> exists ref :: ref in accounts && ref !in pending && Root(al, ref) == root
      decreases pending
    {
      var ref :| ref in pending;
      LimitsOneMore(accounts, al, accounts.Keys - pending, limits, ref);
      assert accounts.Keys - (pending - {ref}) == accounts.Keys - pending + {ref};
      pending := pending - {ref};
      var root := CanonicalRef(al, ref);
      limits := limits[root := Stricter(Get(limits, root), accounts[ref])];
    }
    assert accounts.Keys - {} == accounts.Keys;
  }

  method CanonicalRef(al: Aliases, ref: string) returns (root: string)
    requires Rooted(al, ref)
    ensures root == Root(al, ref)
  {
    hide Rooted, Root;
    var r := ResolveAlias(al, ref);
    return r.value;
  }

  // ----- Normalization ----------------------------------------------------------------

  /** t is s with aliases flattened and every member of a pool carrying the pool's strictest limit. */
  ghost predicate NormalForm(s: Settings, t: Settings)
    requires Acyclic(s.aliases)
  {
    && t.requireTurnState == s.requireTurnState && IsFlattened(s.aliases, t.aliases)
    && t.accounts.Keys == s.accounts.Keys + t.aliases.Keys + t.aliases.Values
    && forall ref :: ref in t.accounts ==> Strictest(s.accounts, s.aliases, s.accounts.Keys, Root(s.aliases, ref), t.accounts[ref])
  }

  /** normalizeAccountAliases; it can fail on valid settings only by growing past the policy cap. */
  method NormalizeSettings(s: Settings) returns (r: Result<Settings>)
    ensures r.Ok? ==> ValidSettings(s) && NormalForm(s, r.value) && ValidSettings(r.value)
    ensures r.Err? && ValidSettings(s) ==> |s.accounts.Keys + s.aliases.Keys + s.aliases.Values| > MAX_POLICIES
  {
    hide IsRef, Rooted, Root, Strictest;
    var trouble := ValidateSettings(s);
    if trouble.Some? { return Err(trouble.value); }
    var flattened := FlattenAliases(s.aliases);
    var flat := flattened.value;
    FlatKeepsRoots(s.aliases, flat);
    var limits := PoolLimits(s.accounts, flat);
    var accounts := SpreadLimits(s.accounts, flat, limits);
    r := Ok(s.(accounts := accounts, aliases := flat));
    NormalFormReached(s, limits, r.value);
    NormalFormIsValid(s, r.value);
    trouble := ValidateSettings(r.value);
    if trouble.Some? { return Err(trouble.value); }
  }

  /** Lists every alias and every root beside the accounts configured so far. */
  method ListMembers(start: map<string, int>, flat: Aliases, limits: map<string, int>) returns (accounts: map<string, int>)
    ensures accounts.Keys == start.Keys + flat.Keys + flat.Values
  {
    accounts := start;
    var pending := flat.Keys;
    while pending != {}
      invariant pending <= flat.Keys
      invariant forall ref :: ref in accounts <==> ref in start || (ref in flat && ref !in pending) ||
                                                   exists x :: x in flat && x !in pending && flat[x] == ref
      decreases pending
    {
      var ref :| ref in pending;
      pending := pending - {ref};
      accounts := accounts[ref := Get(limits, flat[ref])][flat[ref] := Get(limits, flat[ref])];
    }
  }

  /** Gives every member of every pool its pool's limit. */
  method SpreadLimits(start: map<string, int>, flat: Aliases, limits: map<string, int>) returns (accounts: map<string, int>)
    requires Acyclic(flat)
    ensures accounts.Keys == start.Keys + flat.Keys + flat.Values
    ensures forall ref :: ref in accounts ==> accounts[ref] == Get(limits, Root(flat, ref))
  {
    hide Rooted, Root;
    accounts := ListMembers(start, flat, limits);
    ghost var all := accounts.Keys;
    var pending := accounts.Keys;
    while pending != {}
      invariant pending <= accounts.Keys == all
      invariant forall ref :: ref in accounts && ref !in pending ==> accounts[ref] == Get(limits, Root(flat, ref))
      decreases pending
    {
      var ref :| ref in pending;
      pending := pending - {ref};
      var root := CanonicalRef(flat, ref);
      accounts := accounts[ref := Get(limits, root)];
    }
  }

  lemma SubsetSize<T>(a: set<T>, b: set<T>)
    requires a <= b
    ensures |a| <= |b|
  {
    assert b == a + (b - a);
  }

  lemma RootsInside(al: Aliases, ref: string)
    requires Rooted(al, ref)
    ensures Root(al, ref) in al.Values + {ref}
  {
    var n: nat :| Walk(al, ref, n) !in al && Root(al, ref) == Walk(al, ref, n);
    WalkInside(al, ref, n);
  }

  lemma {:induction false} WalkInside(al: Aliases, ref: string, n: nat)
    ensures Walk(al, ref, n) in al.Values + {ref}
    decreases n
  {
    if n > 0 && ref in al { WalkInside(al, al[ref], n - 1); }
  }

  lemma NormalFormReached(s: Settings, limits: map<string, int>, t: Settings)
    requires Acyclic(s.aliases) && IsFlattened(s.aliases, t.aliases) && Acyclic(t.aliases) && t.requireTurnState == s.requireTurnState
    requires forall ref :: Root(t.aliases, ref) == Root(s.aliases, ref)
    requires LimitsOf(s.accounts, t.aliases, s.accounts.Keys, limits)
    requires t.accounts.Keys == s.accounts.Keys + t.aliases.Keys + t.aliases.Values
    requires forall ref :: ref in t.accounts ==> t.accounts[ref] == Get(limits, Root(t.aliases, ref))
    ensures NormalForm(s, t)
  {
    hide Rooted, Root, IsFlattened;
    forall ref | ref in t.accounts
      ensures Strictest(s.accounts, s.aliases, s.accounts.Keys, Root(s.aliases, ref), t.accounts[ref])
    {
      StrictestSameRoots(s.accounts, s.aliases, t.aliases, Root(t.aliases, ref), Get(limits, Root(t.aliases, ref)));
    }
  }

  lemma StrictestSameRoots(accounts: map<string, int>, a: Aliases, b: Aliases, root: string, limit: int)
    requires Acyclic(a) && Acyclic(b) && forall ref :: Root(b, ref) == Root(a, ref)
    ensures Strictest(accounts, a, accounts.Keys, root, limit) <==> Strictest(accounts, b, accounts.Keys, root, limit)
  {
    hide Rooted, Root;
  }

  /** The strictest limit of a pool is one of its members' limits, or zero. */
  lemma StrictestInRange(accounts: map<string, int>, al: Aliases, root: string, limit: int)
    requires Acyclic(al) && Strictest(accounts, al, accounts.Keys, root, limit)
    requires forall ref :: ref in accounts ==> 0 <= accounts[ref] <= MAX_LIMIT
    ensures 0 <= limit <= MAX_LIMIT
  {
    hide Rooted, Root;
  }

  lemma FlatRefs(al: Aliases, flat: Aliases, ref: string)
    requires Acyclic(al) && IsFlattened(al, flat) && ref in flat
    ensures flat[ref] in al.Values
  {
    hide Rooted, Root;
    RootStep(al, ref);
    RootsInside(al, al[ref]);
  }

  lemma FlatIsGood(al: Aliases, flat: Aliases)
    requires GoodAliases(al) && IsFlattened(al, flat)
    ensures GoodAliases(flat) && flat.Values <= al.Values
  {
    hide IsRef, Rooted, Root, Resolves;
    FlatKeepsRoots(al, flat);
    forall ref | ref in flat
      ensures flat[ref] in al.Values
    {
      FlatRefs(al, flat, ref);
    }
    assert |flat| == |flat.Keys| && |al| == |al.Keys|;
  }

  lemma NormalAccountsAreGood(s: Settings, t: Settings)
    requires ValidSettings(s) && NormalForm(s, t)
    ensures forall ref :: ref in t.accounts ==> IsRef(ref) && 0 <= t.accounts[ref] <= MAX_LIMIT
    ensures |t.accounts| <= |s.accounts.Keys + s.aliases.Keys + s.aliases.Values|
  {
    hide IsRef, Rooted, Root, Strictest, Resolves;
    FlatIsGood(s.aliases, t.aliases);
    forall ref | ref in t.accounts
      ensures 0 <= t.accounts[ref] <= MAX_LIMIT
    {
      StrictestInRange(s.accounts, s.aliases, Root(s.aliases, ref), t.accounts[ref]);
    }
    SubsetSize(t.accounts.Keys, s.accounts.Keys + s.aliases.Keys + s.aliases.Values);
    assert |t.accounts| == |t.accounts.Keys|;
  }

  /** A normal form is valid as long as it is not too big. */
  lemma NormalFormIsValid(s: Settings, t: Settings)
    requires ValidSettings(s) && NormalForm(s, t)
    ensures !ValidSettings(t) ==> |s.accounts.Keys + s.aliases.Keys + s.aliases.Values| > MAX_POLICIES
  {
    hide GoodAliases;
    NormalAccountsAreGood(s, t);
    NormalAliasesAreGood(s, t);
  }

  lemma NormalAliasesAreGood(s: Settings, t: Settings)
    requires ValidSettings(s) && NormalForm(s, t)
    ensures GoodAliases(t.aliases)
  {
    hide IsRef;
    FlatIsGood(s.aliases, t.aliases);
  }

  lemma FlatIsUnique(al: Aliases, a: Aliases, b: Aliases)
    requires Acyclic(al) && IsFlattened(al, a) && IsFlattened(al, b)
    ensures a == b
  {
    hide Rooted, Root;
  }

  /** Normalizing determines its result, whatever order the maps are visited in. */
  lemma NormalFormUnique(s: Settings, t: Settings, u: Settings)
    requires Acyclic(s.aliases) && NormalForm(s, t) && NormalForm(s, u)
    ensures t == u
  {
    hide Rooted, Root, Strictest, IsFlattened;
    FlatIsUnique(s.aliases, t.aliases, u.aliases);
    assert t.accounts.Keys == u.accounts.Keys;
    forall ref | ref in t.accounts
      ensures t.accounts[ref] == u.accounts[ref]
    {
      StrictestUnique(s.accounts, s.aliases, s.accounts.Keys, Root(s.aliases, ref), t.accounts[ref], u.accounts[ref]);
    }
  }

  /** Normalizing twice changes nothing more. */
  lemma NormalizingIsIdempotent(s: Settings, t: Settings)
    requires Acyclic(s.aliases) && NormalForm(s, t)
    ensures Acyclic(t.aliases) && NormalForm(t, t)
  {
    hide Rooted, Root, Strictest, Resolves;
    FlatKeepsRoots(s.aliases, t.aliases);
    forall ref | ref in t.accounts
      ensures Strictest(t.accounts, t.aliases, t.accounts.Keys, Root(t.aliases, ref), t.accounts[ref])
    {
      forall x | x in t.accounts && Root(t.aliases, x) == Root(t.aliases, ref)
        ensures t.accounts[x] == t.accounts[ref]
      {
        StrictestUnique(s.accounts, s.aliases, s.accounts.Keys, Root(s.aliases, ref), t.accounts[x], t.accounts[ref]);
      }
      StrictestOfUniform(t.accounts, t.aliases, ref);
    }
    assert t.accounts.Keys == t.accounts.Keys + t.aliases.Keys + t.aliases.Values;
  }

  lemma StrictestOfUniform(accounts: map<string, int>, al: Aliases, ref: string)
    requires Acyclic(al) && ref in accounts
    requires forall x :: x in accounts && Root(al, x) == Root(al, ref) ==> accounts[x] == accounts[ref]
    ensures Strictest(accounts, al, accounts.Keys, Root(al, ref), accounts[ref])
  {
    hide Rooted, Root;
  }

  // ----- Replacing credentials --------------------------------------------------------

  /** Every reference an edit can involve. */
  ghost function Involved(s: Settings, mapping: Aliases): set<string> {
    s.accounts.Keys + s.aliases.Keys + s.aliases.Values + mapping.Keys + mapping.Values
  }

  ghost predicate InsideOf(al: Aliases, universe: set<string>) {
    al.Keys <= universe && al.Values <= universe
  }

  lemma LinkStaysInside(al: Aliases, from: string, to: string, universe: set<string>)
    requires Acyclic(al) && InsideOf(al, universe) && from in universe && to in universe
    ensures InsideOf(Linked(al, from, to), universe)
  {
    hide Rooted, Root;
    RootsInside(al, from);
    RootsInside(al, to);
  }

  /** Drops replacements of a reference by itself. */
  function Proper(mapping: Aliases): (r: Aliases)
    ensures forall ref :: ref in r <==> ref in mapping && mapping[ref] != ref
    ensures forall ref :: ref in r ==> r[ref] == mapping[ref]
  {
    map ref | ref in mapping && mapping[ref] != ref :: mapping[ref]
  }

  method Listed(refs: set<string>) returns (list: seq<string>)
    ensures forall ref :: ref in list <==> ref in refs
  {
    list := [];
    var pending := refs;
    while pending != {}
      invariant pending <= refs && forall ref :: ref in list <==> ref in refs && ref !in pending
      decreases pending
    {
      var ref :| ref in pending;
      pending := pending - {ref};
      list := list + [ref];
    }
  }

  /** Links every listed pair in key order. */
  method LinkAll(al: Aliases, mapping: Aliases, ghost universe: set<string>) returns (next: Aliases)
    requires Acyclic(al) && InsideOf(al, universe) && InsideOf(mapping, universe)
    ensures Acyclic(next) && InsideOf(next, universe) && LeastJoin(al, mapping, mapping.Keys, next)
    ensures AlreadyJoined(al, mapping) ==> next == al
  {
    hide Rooted, Root, LeastJoin, InsideOf, Linked, AlreadyJoined;
    var refs := Listed(mapping.Keys);
    var keys := SortIds(refs);
    next := al;
    ghost var joined: set<string> := {};
    NothingJoined(al, mapping);
    for i := 0 to |keys|
      invariant Acyclic(next) && InsideOf(next, universe)
      invariant joined <= mapping.Keys && forall ref :: ref in joined <==> ref in keys[..i]
      invariant LeastJoin(al, mapping, joined, next)
      invariant AlreadyJoined(al, mapping) ==> next == al
    {
      var from := keys[i];
      if AlreadyJoined(al, mapping) { JoinedAlready(al, mapping, from); }
      assert keys[..i + 1] == keys[..i] + [from] && from in keys;
      JoinOneMore(al, mapping, joined, next, from);
      MemberInside(mapping, universe, from);
      LinkStaysInside(next, from, mapping[from], universe);
      next := Link(next, from, mapping[from]);
      joined := joined + {from};
    }
    assert keys[..|keys|] == keys;
    assert joined == mapping.Keys;
  }

  /** Flat aliases that join every listed pair. */
  ghost predicate AlreadyJoined(al: Aliases, mapping: Aliases)
    requires Acyclic(al)
  {
    IsFlattened(al, al) && forall from :: from in mapping ==> SamePool(al, from, mapping[from])
  }

  /** Linking what is joined already, and flat, changes nothing. */
  lemma JoinedAlready(al: Aliases, mapping: Aliases, from: string)
    requires Acyclic(al) && AlreadyJoined(al, mapping) && from in mapping
    ensures Linked(al, from, mapping[from]) == al
  {
    hide Root, Rooted;
    if from in al { RootStep(al, from); } else { RootIs(al, from, 0); }
  }

  lemma MemberInside(mapping: Aliases, universe: set<string>, from: string)
    requires InsideOf(mapping, universe) && from in mapping
    ensures from in universe && mapping[from] in universe
  {
  }

  method Link(al: Aliases, from: string, to: string) returns (next: Aliases)
    requires Rooted(al, from) && Rooted(al, to)
    ensures next == Linked(al, from, to)
  {
    hide Rooted, Root;
    var oldRoot := CanonicalRef(al, from);
    var newRoot := CanonicalRef(al, to);
    next := al;
    if oldRoot != newRoot {
      next := next[oldRoot := newRoot];
    }
    if from != newRoot {
      next := next[from := newRoot];
    }
  }

  /** after has the pairs joined, no more, and the strictest limit of before for each pool. */
  ghost predicate Joins(before: Settings, mapping: Aliases, after: Settings) {
    && Acyclic(before.aliases) && Acyclic(after.aliases)
    && LeastJoin(before.aliases, Proper(mapping), Proper(mapping).Keys, after.aliases)
    && AlreadyJoined(after.aliases, Proper(mapping))
    && forall ref :: ref in after.accounts ==>
         Strictest(before.accounts, after.aliases, before.accounts.Keys, Root(after.aliases, ref), after.accounts[ref])
  }

  lemma NowJoined(before: Settings, mapping: Aliases, after: Settings)
    requires Acyclic(before.aliases) && Acyclic(after.aliases) && NormalForm(after, after)
    requires LeastJoin(before.aliases, Proper(mapping), Proper(mapping).Keys, after.aliases)
    requires forall ref :: ref in after.accounts ==>
               Strictest(before.accounts, after.aliases, before.accounts.Keys, Root(after.aliases, ref), after.accounts[ref])
    ensures Joins(before, mapping, after)
  {
    hide Root, Rooted, Strictest, IsFlattened, Proper;
  }

  lemma JoinsItself(s: Settings, mapping: Aliases)
    requires ValidSettings(s) && NormalForm(s, s) && AlreadyJoined(s.aliases, Proper(mapping))
    ensures Joins(s, mapping, s)
  {
    hide Rooted, Root, Strictest, GoodAccounts, IsFlattened, Proper, Respects;
    var al, proper := s.aliases, Proper(mapping);
    assert forall from :: from in proper ==> SamePool(al, from, proper[from]);
    assert LeastJoin(al, proper, proper.Keys, al);
  }

  lemma NothingToJoin(s: Settings, mapping: Aliases)
    requires ValidSettings(s) && NormalForm(s, s) && Proper(mapping) == map[]
    ensures Joins(s, mapping, s) && AlreadyJoined(s.aliases, Proper(mapping))
  {
    hide Joins, Rooted, Root, Strictest;
    JoinsItself(s, mapping);
  }

  // ----- The runtime ------------------------------------------------------------------

  const DEFAULT_SETTINGS := Settings(map[], true, map[])

  class AccountRuntime {
    var settings: Settings
    var active: map<string, int>
    var requests: map<string, string>

    /** Settings are in normal form; every request is mapped to a root; the counts are exact. */
    ghost predicate Valid()
      reads this
    {
      ValidSettings(settings) && NormalForm(settings, settings) && Tracked()
    }

    ghost predicate Tracked()
      reads this
    {
      && Counted(active, requests)
      && forall id :: id in requests ==> id != "" && requests[id] != "" && requests[id] !in settings.aliases
    }

    ghost function Pool(ref: string): string
      requires Acyclic(settings.aliases)
      reads this
    {
      Root(settings.aliases, ref)
    }

    constructor ()
      ensures Valid() && settings == DEFAULT_SETTINGS && requests == map[]
    {
      settings, active, requests := DEFAULT_SETTINGS, map[], map[];
      new;
      NobodyServed();
      DefaultsAreNormal();
    }

    /** A restarted process: the settings it saved, already in normal form, and no requests. */
    constructor Load(saved: Settings)
      requires ValidSettings(saved) && NormalForm(saved, saved)
      ensures Valid() && settings == saved && requests == map[]
    {
      hide ValidSettings, NormalForm;
      settings, active, requests := saved, map[], map[];
      new;
      NobodyServed();
    }

    /** What stays mapped when a request arrives for a pool: itself elsewhere is given up first. */
    ghost function Kept(id: string, root: string): map<string, string>
      reads this
    {
      if id in requests && requests[id] != root then requests - {id} else requests
    }

    /**
      There is room for the request: it holds this pool's slot, or the pool has no limit or
      serves fewer requests than it allows, not counting this one, and the table is not full.
      Without an ID only an unlimited pool can serve it.
     */
    ghost predicate HasRoom(ref: string, id: string)
      requires Acyclic(settings.aliases)
      reads this
    {
      var root, limit, others := Pool(ref), Get(settings.accounts, Pool(ref)), requests - {id};
      if id == "" then limit == 0
      else (id in requests && requests[id] == root) || ((limit == 0 || Serving(others, root) < limit) && |others| < 100000)
    }

    /** Gives up a slot the request holds in another pool. */
    method Vacate(id: string, root: string)
      requires Valid()
      modifies this`active, this`requests
      ensures Valid() && requests == old(Kept(id, root))
    {
      hide NormalForm, ValidSettings, Counted;
      var previous := if id in requests then requests[id] else "";
      if previous != root && previous != "" {
        CountedFewer(active, requests, id);
        active := active[previous := Get(active, previous) - 1];
        requests := requests - {id};
      }
    }

    method Enter(id: string, root: string)
      requires Valid() && id != "" && id !in requests && root != "" && root !in settings.aliases
      modifies this`active, this`requests
      ensures Valid() && requests == old(requests)[id := root]
    {
      hide NormalForm, ValidSettings, Counted;
      CountedMore(active, requests, id, root);
      requests := requests[id := root];
      active := active[root := Get(active, root) + 1];
    }

    /**
      A request holds at most one pool's slot: switching pools frees the old one, even when
      the new pool is full. A limited pool never admits past its limit.
     */
    method Acquire(ref: string, id: string) returns (ok: bool)
      requires Valid() && IsRef(ref)
      modifies this`active, this`requests
      ensures Valid() && old(Acyclic(settings.aliases))
      ensures var root, limit, kept := Pool(ref), Get(settings.accounts, Pool(ref)), old(Kept(id, Pool(ref)));
              && (ok <==> old(HasRoom(ref, id)))
              && requests == (if ok && id != "" then kept[id := root] else kept)
              && (ok && limit > 0 && id !in kept ==> id != "" && Serving(requests, root) <= limit)
    {
      hide NormalForm, ValidSettings, IsRef, Rooted, Root, Serving;
      SettingsAreRooted(settings);
      RootIsNamed(settings, ref);
      assert id !in requests ==> requests - {id} == requests;
      var root := CanonicalRef(settings.aliases, ref);
      if id in requests && requests[id] == root { return true; }
      Vacate(id, root);
      var limit := Get(settings.accounts, root);
      if id == "" { return limit == 0; }
      if limit > 0 && Get(active, root) >= limit { return false; }
      if |requests| >= MAX_REQUESTS { return false; }
      ServingMore(requests, id, root);
      Enter(id, root);
      return true;
    }

    method Release(id: string)
      requires Valid()
      modifies this`active, this`requests
      ensures Valid() && requests == old(requests) - {id}
      ensures id in old(requests) ==> (old(requests)[id] in active <==> Serving(requests, old(requests)[id]) > 0)
    {
      hide NormalForm, ValidSettings, Serving;
      if id in requests && requests[id] != "" {
        var ref := requests[id];
        ServingFewer(requests, id);
        active := active[ref := Get(active, ref) - 1];
        if active[ref] <= 0 {
          active := active - {ref};
        }
        requests := requests - {id};
      }
    }

    /**
      Joins exactly the listed pools, moves every running request to its pool's new root, and
      gives each pool the strictest limit its members had. A failed write changes nothing.
     */
    method MigrateCredentialRefs(mapping: Aliases, fails: bool) returns (ok: bool)
      requires Valid()
      modifies this
      ensures Valid()
      ensures ok ==> Proper(mapping) == map[] || (GoodAliases(Proper(mapping)) && !fails)
      ensures !ok ==> fails || !GoodAliases(Proper(mapping)) || |Involved(old(settings), Proper(mapping))| > MAX_POLICIES
      ensures !ok || Proper(mapping) == map[] ==> settings == old(settings) && requests == old(requests)
      ensures ok ==> Joins(old(settings), mapping, settings)
      ensures ok && AlreadyJoined(old(settings).aliases, Proper(mapping)) ==> settings == old(settings)
      ensures ok ==> requests.Keys == old(requests).Keys && forall id :: id in requests ==> requests[id] == Pool(old(requests)[id])
      ensures settings.requireTurnState == old(settings).requireTurnState
    {
      hide Rooted, Root, LeastJoin, Strictest, Counted, GoodAliases, GoodAccounts, Involved, AlreadyJoined, Joins;
      SettingsAreRooted(settings);
      var proper := Proper(mapping);
      if proper == map[] {
        NothingToJoin(settings, mapping);
        UnmovedRequests();
        return true;
      }
      var next := Rejoined(settings, proper);
      if next.Err? || fails { return false; }
      SettingsAreRooted(next.value);
      NowJoined(settings, mapping, next.value);
      var moved, counts := Recount(requests, next.value.aliases);
      RootsAreNamed(next.value, requests);
      settings, active, requests := next.value, counts, moved;
      return true;
    }

    /**
      A user's edit sets the limit of every pool it names, by the strictest limit it asks of
      that pool, for all members alike, and leaves every other pool and every alias alone.
     */
    method SetLimits(patch: map<string, int>, requireTurnState: bool, fails: bool) returns (ok: bool)
      requires Valid()
      modifies this`settings
      ensures Valid() && Acyclic(settings.aliases)
      ensures ok <==> GoodAccounts(old(settings).accounts + patch) && !fails
      ensures !ok ==> settings == old(settings)
      ensures ok ==> settings.requireTurnState == requireTurnState && settings.aliases == old(settings).aliases
      ensures ok ==> settings.accounts.Keys == old(settings).accounts.Keys + patch.Keys
      ensures ok ==> PatchTaken(old(settings), patch, settings.accounts)
    {
      hide Rooted, Root, Strictest, Counted, IsRef, GoodAliases, PatchTaken;
      SettingsAreRooted(settings);
      var next := Patched(settings, patch, requireTurnState);
      if next.Err? || fails { return false; }
      settings := next.value;
      return true;
    }

    lemma UnmovedRequests()
      requires Valid() && Acyclic(settings.aliases)
      ensures forall id :: id in requests ==> requests[id] == Pool(requests[id])
    {
      forall id | id in requests
        ensures requests[id] == Pool(requests[id])
      {
        RootOfRoot(settings.aliases, requests[id]);
      }
    }
  }

  lemma SettingsAreRooted(s: Settings)
    requires ValidSettings(s)
    ensures Acyclic(s.aliases)
  {
  }

  lemma RootIsNamed(s: Settings, ref: string)
    requires ValidSettings(s) && IsRef(ref)
    ensures Rooted(s.aliases, ref) && Root(s.aliases, ref) != "" && Root(s.aliases, ref) !in s.aliases
    ensures 0 <= Get(s.accounts, Root(s.aliases, ref))
  {
    RootsInside(s.aliases, ref);
  }

  lemma NoAccountsAreGood()
    ensures GoodAccounts(map[])
  {
  }

  lemma InvolvedIsInside(s: Settings, mapping: Aliases)
    ensures InsideOf(s.aliases, Involved(s, mapping)) && InsideOf(mapping, Involved(s, mapping))
  {
  }

  /** Linked settings can only be refused for their size. */
  lemma LinkedFits(s: Settings, mapping: Aliases, linked: Aliases)
    requires ValidSettings(s) && GoodAliases(mapping) && Acyclic(linked) && InsideOf(linked, Involved(s, mapping))
    requires ValidSettings(s.(aliases := linked)) ==>
               |s.accounts.Keys + linked.Keys + linked.Values| > MAX_POLICIES
    ensures |Involved(s, mapping)| > MAX_POLICIES
  {
    hide IsRef, Rooted;
    var all := Involved(s, mapping);
    SubsetSize(linked.Keys, all);
    assert |linked| == |linked.Keys|;
    if ValidSettings(s.(aliases := linked)) {
      SubsetSize(s.accounts.Keys + linked.Keys + linked.Values, all);
    } else if |all| <= MAX_POLICIES {
      InvolvedAreRefs(s, mapping);
      forall ref | ref in linked
        ensures IsRef(ref) && IsRef(linked[ref])
      {
        assert linked[ref] in linked.Values;
      }
      assert false;
    }
  }

  lemma InvolvedAreRefs(s: Settings, mapping: Aliases)
    requires ValidSettings(s) && GoodAliases(mapping)
    ensures forall ref :: ref in Involved(s, mapping) ==> IsRef(ref)
  {
    hide IsRef, Rooted;
  }

  lemma PoolsKeepStrictest(s: Settings, linked: Aliases, next: Settings)
    requires Acyclic(linked) && NormalForm(s.(aliases := linked), next)
    ensures Acyclic(next.aliases)
    ensures forall ref :: ref in next.accounts ==>
              Strictest(s.accounts, next.aliases, s.accounts.Keys, Root(next.aliases, ref), next.accounts[ref])
  {
    hide Rooted, Root, Strictest;
    FlatKeepsRoots(linked, next.aliases);
    forall ref | ref in next.accounts
      ensures Strictest(s.accounts, next.aliases, s.accounts.Keys, Root(next.aliases, ref), next.accounts[ref])
    {
      StrictestSameRoots(s.accounts, linked, next.aliases, Root(linked, ref), next.accounts[ref]);
    }
  }

  /** The settings once the listed pools are joined and normalized. */
  method Rejoined(s: Settings, proper: Aliases) returns (r: Result<Settings>)
    requires ValidSettings(s) && NormalForm(s, s)
    ensures r.Err? ==> !GoodAliases(proper) || |Involved(s, proper)| > MAX_POLICIES
    ensures r.Ok? ==>
              && GoodAliases(proper) && ValidSettings(r.value) && NormalForm(r.value, r.value)
              && r.value.requireTurnState == s.requireTurnState
              && LeastJoin(s.aliases, proper, proper.Keys, r.value.aliases)
              && forall ref :: ref in r.value.accounts ==>
                   Strictest(s.accounts, r.value.aliases, s.accounts.Keys, Root(r.value.aliases, ref), r.value.accounts[ref])
    ensures r.Ok? && AlreadyJoined(s.aliases, proper) ==> r.value == s
  {
    hide IsRef, Rooted, Root, LeastJoin, Strictest, GoodAccounts, InsideOf, Involved, AlreadyJoined;
    var trouble := ValidateSettings(Settings(map[], false, proper));
    NoAccountsAreGood();
    if trouble.Some? { return Err(trouble.value); }
    ghost var universe := Involved(s, proper);
    InvolvedIsInside(s, proper);
    var linked := LinkAll(s.aliases, proper, universe);
    r := NormalizeSettings(s.(aliases := linked));
    if r.Err? {
      LinkedFits(s, proper, linked);
      return;
    }
    FlatKeepsRoots(linked, r.value.aliases);
    FlatKeepsJoin(s.aliases, proper, proper.Keys, linked, r.value.aliases);
    NormalizingIsIdempotent(s.(aliases := linked), r.value);
    PoolsKeepStrictest(s, linked, r.value);
    if AlreadyJoined(s.aliases, proper) { NormalFormUnique(s, r.value, s); }
  }

  /** The edit names some member of the pool. */
  ghost predicate NamesPool(patch: map<string, int>, al: Aliases, root: string)
    requires Acyclic(al)
  {
    exists ref :: ref in patch && Root(al, ref) == root
  }

  /** Every pool the patch names has the strictest limit asked of it; the others are as they were. */
  ghost predicate PatchTaken(s: Settings, patch: map<string, int>, accounts: map<string, int>)
    requires Acyclic(s.aliases)
  {
    forall ref :: ref in accounts ==>
                    if NamesPool(patch, s.aliases, Root(s.aliases, ref)) then
                      Strictest(patch, s.aliases, patch.Keys, Root(s.aliases, ref), accounts[ref])
                    else ref in s.accounts && accounts[ref] == s.accounts[ref]
  }

  /** The edited settings: the patch overlaid, spread over every pool it names, and normalized. */
  method Patched(s: Settings, patch: map<string, int>, requireTurnState: bool) returns (r: Result<Settings>)
    requires ValidSettings(s) && NormalForm(s, s)
    ensures r.Ok? <==> GoodAccounts(s.accounts + patch)
    ensures r.Ok? ==>
              && ValidSettings(r.value) && NormalForm(r.value, r.value)
              && r.value.requireTurnState == requireTurnState && r.value.aliases == s.aliases
              && r.value.accounts.Keys == s.accounts.Keys + patch.Keys
              && PatchTaken(s, patch, r.value.accounts)
  {
    hide IsRef, Rooted, Root, Strictest, PatchTaken, GoodAliases, Uniform, LimitsOf;
    SettingsAreRooted(s);
    var next := s.(accounts := s.accounts + patch, requireTurnState := requireTurnState);
    var trouble := ValidateSettings(next);
    if trouble.Some? { return Err(trouble.value); }
    var updates := PoolLimits(patch, s.aliases);
    var accounts := SpreadPatch(next.accounts, s.aliases, updates);
    next := next.(accounts := accounts);
    PatchedEach(s, patch, updates, accounts);
    PatchedIsUniform(s, patch, accounts);
    PatchedIsValid(s, patch, next);
    r := NormalizeSettings(next);
    UniformIsNormal(next, r);
  }

  /** Overwrites the limit of every member of every pool with an update. */
  method SpreadPatch(start: map<string, int>, al: Aliases, updates: map<string, int>) returns (accounts: map<string, int>)
    requires Acyclic(al) && IsFlattened(al, al) && al.Keys + al.Values <= start.Keys
    ensures accounts.Keys == start.Keys
    ensures forall ref :: ref in accounts ==>
              accounts[ref] == if Root(al, ref) in updates then updates[Root(al, ref)] else start[ref]
  {
    hide Rooted, Root;
    accounts := start;
    var pending := start.Keys;
    while pending != {}
      invariant pending <= start.Keys == accounts.Keys
      invariant forall ref :: ref in accounts && ref in pending ==> accounts[ref] == start[ref]
      invariant forall ref :: ref in accounts && ref !in pending ==>
                                accounts[ref] == if Root(al, ref) in updates then updates[Root(al, ref)] else start[ref]
      decreases pending
    {
      var ref :| ref in pending;
      pending := pending - {ref};
      var root := CanonicalRef(al, ref);
      if root in updates {
        accounts := accounts[ref := updates[root]];
      }
    }
    accounts := SpreadToAliases(accounts, al, updates);
  }

  method SpreadToAliases(start: map<string, int>, al: Aliases, updates: map<string, int>) returns (accounts: map<string, int>)
    requires Acyclic(al) && IsFlattened(al, al) && al.Keys + al.Values <= start.Keys
    requires forall ref :: ref in start && Root(al, ref) in updates ==> start[ref] == updates[Root(al, ref)]
    ensures accounts == start
  {
    hide Rooted, Root;
    accounts := start;
    var pending := al.Keys;
    while pending != {}
      invariant pending <= al.Keys && accounts == start
      decreases pending
    {
      var ref :| ref in pending;
      pending := pending - {ref};
      if al[ref] in updates {
        RootOfRoot(al, Root(al, ref));
        assert ref in start && al[ref] in start;
        accounts := accounts[ref := updates[al[ref]]][al[ref] := updates[al[ref]]];
      }
    }
  }

  lemma PatchedEach(s: Settings, patch: map<string, int>, updates: map<string, int>, accounts: map<string, int>)
    requires Acyclic(s.aliases) && LimitsOf(patch, s.aliases, patch.Keys, updates)
    requires forall root :: root in updates <==> exists ref :: ref in patch && Root(s.aliases, ref) == root
    requires accounts.Keys == s.accounts.Keys + patch.Keys
    requires forall ref :: ref in accounts ==>
               accounts[ref] == if Root(s.aliases, ref) in updates then updates[Root(s.aliases, ref)] else (s.accounts + patch)[ref]
    ensures PatchTaken(s, patch, accounts)
  {
    hide Rooted, Root, Strictest;
    forall ref | ref in accounts && NamesPool(patch, s.aliases, Root(s.aliases, ref))
      ensures Strictest(patch, s.aliases, patch.Keys, Root(s.aliases, ref), accounts[ref])
    {
      assert Strictest(patch, s.aliases, patch.Keys, Root(s.aliases, ref), Get(updates, Root(s.aliases, ref)));
    }
    forall ref | ref in accounts && !NamesPool(patch, s.aliases, Root(s.aliases, ref))
      ensures ref in s.accounts && accounts[ref] == s.accounts[ref]
    {
      assert ref !in patch;
    }
  }

  ghost predicate Uniform(accounts: map<string, int>, al: Aliases)
    requires Acyclic(al)
  {
    forall a, b :: a in accounts && b in accounts && Root(al, a) == Root(al, b) ==> accounts[a] == accounts[b]
  }

  lemma PatchedIsUniform(s: Settings, patch: map<string, int>, accounts: map<string, int>)
    requires Acyclic(s.aliases) && NormalForm(s, s) && PatchTaken(s, patch, accounts)
    ensures Uniform(accounts, s.aliases)
  {
    hide Rooted, Root, Strictest, NamesPool;
    forall a, b | a in accounts && b in accounts && Root(s.aliases, a) == Root(s.aliases, b)
      ensures accounts[a] == accounts[b]
    {
      var root := Root(s.aliases, a);
      if NamesPool(patch, s.aliases, root) {
        StrictestUnique(patch, s.aliases, patch.Keys, root, accounts[a], accounts[b]);
      } else {
        StrictestUnique(s.accounts, s.aliases, s.accounts.Keys, root, s.accounts[a], s.accounts[b]);
      }
    }
  }

  lemma PatchedIsValid(s: Settings, patch: map<string, int>, next: Settings)
    requires ValidSettings(s) && GoodAccounts(s.accounts + patch) && next.aliases == s.aliases
    requires next.accounts.Keys == s.accounts.Keys + patch.Keys
    requires PatchTaken(s, patch, next.accounts)
    ensures ValidSettings(next)
  {
    hide Rooted, Root, Strictest, IsRef, NamesPool, GoodAliases;
    SettingsAreRooted(s);
    assert next.accounts.Keys == (s.accounts + patch).Keys;
    assert |next.accounts| == |next.accounts.Keys| && |s.accounts + patch| == |(s.accounts + patch).Keys|;
    forall ref | ref in next.accounts
      ensures IsRef(ref) && 0 <= next.accounts[ref] <= MAX_LIMIT
    {
      assert ref in s.accounts + patch;
      if NamesPool(patch, s.aliases, Root(s.aliases, ref)) {
        StrictestInRange(patch, s.aliases, Root(s.aliases, ref), next.accounts[ref]);
      }
    }
  }

  /** Settings that are flat and uniform already are their own normal form. */
  lemma UniformIsNormal(s: Settings, r: Result<Settings>)
    requires ValidSettings(s) && IsFlattened(s.aliases, s.aliases) && s.aliases.Keys + s.aliases.Values <= s.accounts.Keys
    requires Uniform(s.accounts, s.aliases)
    requires r.Ok? ==> NormalForm(s, r.value)
    requires r.Err? ==> |s.accounts.Keys + s.aliases.Keys + s.aliases.Values| > MAX_POLICIES
    ensures r == Ok(s) && NormalForm(s, s)
  {
    hide Rooted, Root, Strictest, IsRef, NormalForm, Uniform, IsFlattened;
    UniformNormalForm(s);
    assert s.accounts.Keys == s.accounts.Keys + s.aliases.Keys + s.aliases.Values;
    assert |s.accounts| == |s.accounts.Keys|;
    if r.Ok? { NormalFormUnique(s, s, r.value); }
  }

  lemma UniformNormalForm(s: Settings)
    requires Acyclic(s.aliases) && IsFlattened(s.aliases, s.aliases) && s.aliases.Keys + s.aliases.Values <= s.accounts.Keys
    requires Uniform(s.accounts, s.aliases)
    ensures NormalForm(s, s)
  {
    hide Rooted, Root, Strictest, IsFlattened;
    forall ref | ref in s.accounts
      ensures Strictest(s.accounts, s.aliases, s.accounts.Keys, Root(s.aliases, ref), s.accounts[ref])
    {
      StrictestOfUniform(s.accounts, s.aliases, ref);
    }
    assert s.accounts.Keys == s.accounts.Keys + s.aliases.Keys + s.aliases.Values;
  }

  method Recount(requests: map<string, string>, al: Aliases) returns (moved: map<string, string>, active: map<string, int>)
    requires Acyclic(al)
    ensures moved.Keys == requests.Keys && (forall id :: id in moved ==> moved[id] == Root(al, requests[id]))
    ensures Counted(active, moved)
  {
    hide Rooted, Root, Counted;
    moved, active := map[], map[];
    NobodyServed();
    var pending := requests.Keys;
    while pending != {}
      invariant pending <= requests.Keys && moved.Keys == requests.Keys - pending
      invariant forall id :: id in moved ==> moved[id] == Root(al, requests[id])
      invariant Counted(active, moved)
      decreases pending
    {
      var id :| id in pending;
      var root := CanonicalRef(al, requests[id]);
      CountedMore(active, moved, id, root);
      moved := moved[id := root];
      active := active[root := Get(active, root) + 1];
      pending := pending - {id};
    }
  }

  /** A running request's root is never the empty name. */
  lemma RootsAreNamed(next: Settings, requests: map<string, string>)
    requires ValidSettings(next) && forall id :: id in requests ==> requests[id] != ""
    ensures forall id :: id in requests ==> Root(next.aliases, requests[id]) != ""
  {
    hide Rooted, Root;
    forall id | id in requests
      ensures Root(next.aliases, requests[id]) != ""
    {
      RootsInside(next.aliases, requests[id]);
    }
  }

  lemma DefaultsAreNormal()
    ensures ValidSettings(DEFAULT_SETTINGS) && NormalForm(DEFAULT_SETTINGS, DEFAULT_SETTINGS)
  {
    forall ref
      ensures Rooted(DEFAULT_SETTINGS.aliases, ref)
    {
      RootOfRoot(DEFAULT_SETTINGS.aliases, ref);
    }
  }
}
