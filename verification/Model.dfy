/**
  The working set of internal/billing/state.go: plans, keys, routes, groups, access control
  and configured credentials. Keys are heap cells in the live store and plain records in
  snapshots and on disk, so State is generic in what it holds per key.
 */
module Model {
  import opened Text

  /** Nanoseconds since the Unix epoch. */
  type Time = int

  const SECOND: int := 1_000_000_000

  /** Go's zero time, the first instant of year 1: "not set" wherever a time is optional. */
  const ZERO_TIME: Time := -62_135_596_800 * SECOND

  /** How long names, and identifiers and models, may be. */
  const MAX_NAME_BYTES := 128
  const MAX_VALUE_BYTES := 512

  // ----- Routing ----------------------------------------------------------------------

  datatype Selector = Selector(source: string, provider: string)

  datatype RouteRule = RouteRule(
    models: seq<string>,
    ids: seq<string>,
    providers: seq<Selector>,
    deniedModels: seq<string>,
    deniedIds: seq<string>,
    deniedProviders: seq<Selector>)
  {
    predicate Empty() {
      models == [] && ids == [] && providers == [] && deniedModels == [] && deniedIds == [] && deniedProviders == []
    }
  }

  const EMPTY_RULE := RouteRule([], [], [], [], [], [])

  datatype Bindings = Bindings(routeIDs: seq<string>, configured: bool, rule: RouteRule)

  datatype Route = Route(id: string, name: string, rule: RouteRule)

  datatype Group = Group(id: string, name: string, disabled: bool, mode: string, routeIDs: seq<string>, rule: RouteRule)

  datatype AccessControl = AccessControl(enabled: bool, denyUngrouped: bool)

  datatype ConfigCredential = ConfigCredential(provider: string, preview: string, disabled: bool)

  // ----- Quotas -----------------------------------------------------------------------

  datatype QuotaScope = QuotaScope(models: seq<string>, providers: seq<string>)

  /** Zero limits disable a dimension; an absent anchor starts cycles on admission. */
  datatype Window = Window(
    id: string, name: string, period: int,
    amount: real, tokenLimit: int, requestLimit: int,
    anchor: Time, scope: QuotaScope)

  datatype Plan = Plan(id: string, name: string, windows: seq<Window>)

  datatype Cycle = Cycle(
    planID: string, startAt: Time, endAt: Time, usageSince: Time,
    spent: real, tokens: int, requests: int)

  // ----- Keys and the working set -----------------------------------------------------

  /** listed: an earlier synchronization saw the key in the host's list. */
  datatype Key = Key(
    preview: string,
    listed: bool,
    deletedAt: Time,
    planID: string,
    concurrencyLimit: int,
    bindings: Bindings,
    groupIDs: seq<string>,
    cycles: map<string, Cycle>)
  {
    predicate Live() {
      deletedAt == ZERO_TIME
    }
  }

  /** The live record of one key, shared by reference and updated in place. */
  class KeyState {
    var key: Key

    constructor (key: Key)
      ensures this.key == key
    {
      this.key := key;
    }
  }

  datatype State<K> = State(
    plans: seq<Plan>,
    keys: map<string, K>,
    routes: seq<Route>,
    groups: seq<Group>,
    access: AccessControl,
    credentials: map<string, ConfigCredential>)

  type Snapshot = State<Key>

  predicate LiveKey(s: Snapshot, scope: string) {
    scope in s.keys && s.keys[scope].Live()
  }

  // ----- Naming keys --------------------------------------------------------------------

  function NormalizeScopeName(scope: string): string {
    Lower(Trim(scope))
  }

  /** normalizeScopes: trimmed, lower-cased, without blanks or repeats. */
  function NormalizeScopes(scopes: seq<string>): (r: seq<string>)
    ensures forall x :: x in r ==> x != ""
  {
    if scopes == [] then [] else
    var front, name := NormalizeScopes(scopes[..|scopes| - 1]), NormalizeScopeName(scopes[|scopes| - 1]);
    if name == "" || name in front then front else front + [name]
  }

  // ----- Live records -------------------------------------------------------------------

  /** No two scopes share a record. */
  ghost predicate Separate(keys: map<string, KeyState>) {
    forall a, b :: a in keys && b in keys && a != b ==> keys[a] != keys[b]
  }

  function Cells(keys: map<string, KeyState>): set<KeyState> {
    set scope | scope in keys :: keys[scope]
  }

  function KeysOf(keys: map<string, KeyState>): (r: map<string, Key>)
    reads Cells(keys)
    ensures r.Keys == keys.Keys
  {
    map scope | scope in keys :: keys[scope].key
  }

  function SnapshotOf(state: State<KeyState>): Snapshot
    reads Cells(state.keys)
  {
    State(state.plans, KeysOf(state.keys), state.routes, state.groups, state.access, state.credentials)
  }
}
