/**
  Access resolution of internal/billing/routing.go and access_control.go: which groups take
  part, how their rules merge into one decision, and what that decision allows.
 */
module Routing {
  import opened Text
  import opened Model

  const ORDINARY := "ordinary"
  const EXCLUSIVE := "exclusive"
  const COMMON := "common"

  // ----- Decisions --------------------------------------------------------------------

  datatype Decision = Decision(
    rule: RouteRule,
    model: string,
    configurationError: Option<string>,
    accessDenied: Option<string>,
    requireAllowlist: bool,
    constraint: Option<RouteRule>,
    open: Option<RouteRule>,
    paired: seq<string>)
  {
    /** A model that only an unlisted grant covers may use only that grant's credentials. */
    function NarrowToModel(): Decision {
      if open == None || model == "" || Contains(paired, model) then this
      else this.(rule := rule.(ids := open.value.ids, providers := open.value.providers))
    }

    function For(model: string): Decision {
      this.(model := model).NarrowToModel()
    }

    predicate Refuses() {
      configurationError.Some? || accessDenied.Some?
    }

    predicate AllowsModel() {
      if Refuses() then false
      else if model == "" then true
      else !Contains(rule.deniedModels, model) && (rule.models == [] || Contains(rule.models, model))
    }

    predicate AllowsCredential(ref: string, source: string, provider: string) {
      if constraint.Some? && !RuleAllows(constraint.value, true, ref, source, provider) then false
      else if Refuses() then false
      else RuleAllows(rule, requireAllowlist, ref, source, provider)
    }
  }

  const NOTHING_DECIDED := Decision(EMPTY_RULE, "", None, None, false, None, None, [])

  predicate Contains(values: seq<string>, value: string) {
    exists i :: 0 <= i < |values| && EqualFold(values[i], value)
  }

  function Described(source: string, provider: string): Selector {
    Selector(Lower(Trim(source)), Lower(Trim(provider)))
  }

  /** Incomplete host metadata cannot prove a candidate is outside a deny selector. */
  predicate MayMatch(candidate: Selector, denied: Selector) {
    && (candidate.source == "" || candidate.source == denied.source)
    && (candidate.provider == "" || candidate.provider == denied.provider)
  }

  predicate RuleAllows(rule: RouteRule, requireAllowlist: bool, ref: string, source: string, provider: string) {
    var candidate := Described(source, provider);
    && !Contains(rule.deniedIds, ref)
    && !(exists i :: 0 <= i < |rule.deniedProviders| && MayMatch(candidate, rule.deniedProviders[i]))
    && (|| (!requireAllowlist && rule.ids == [] && rule.providers == [])
        || Contains(rule.ids, ref)
        || candidate in rule.providers)
  }

  // ----- Lookup -----------------------------------------------------------------------

  function FindRoute(routes: seq<Route>, id: string): (r: Option<Route>)
    ensures r.Some? ==> r.value in routes && r.value.id == Trim(id)
    ensures r.None? <==> forall route :: route in routes ==> route.id != Trim(id)
  {
    if routes == [] then None
    else if routes[0].id == Trim(id) then Some(routes[0])
    else FindRoute(routes[1..], id)
  }

  function FindGroup(groups: seq<Group>, id: string): (r: Option<Group>)
    ensures r.Some? ==> r.value in groups && r.value.id == id
    ensures r.None? <==> forall group :: group in groups ==> group.id != id
  {
    if groups == [] then None
    else if groups[0].id == id then Some(groups[0])
    else FindGroup(groups[1..], id)
  }

  // ----- Participating groups ---------------------------------------------------------

  function NormalizeMode(mode: string): Result<string> {
    var mode := Trim(mode);
    if mode == "" then Ok(ORDINARY)
    else if mode == ORDINARY || mode == EXCLUSIVE || mode == COMMON then Ok(mode)
    else Err("Group routing mode must be ordinary, exclusive, or common")
  }

  predicate GrantsAccess(group: Group) {
    group.routeIDs != [] || !group.rule.Empty()
  }

  /** The groups gathered so far, and the exclusive one among them, if any. */
  datatype Gathered = Gathered(groups: seq<Group>, exclusiveID: string)

  /** What the gathering loop holds after the first n bound group IDs. */
  function GatherTo(all: seq<Group>, ids: seq<string>, n: nat): Result<Gathered>
    requires n <= |ids|
  {
    if n == 0 then Ok(Gathered([], "")) else
    match GatherTo(all, ids, n - 1)
    case Err(reason) => Err(reason)
    case Ok(sofar) => if ids[n - 1] in ids[..n - 1] then Ok(sofar) else GatherOne(all, sofar, ids[n - 1])
  }

  function GatherOne(all: seq<Group>, sofar: Gathered, id: string): Result<Gathered> {
    match FindGroup(all, id)
    case None => Err("Group no longer exists")
    case Some(group) =>
      if group.disabled then Ok(sofar) else
      match NormalizeMode(group.mode)
      case Err(reason) => Err(reason)
      case Ok(mode) =>
        if mode == EXCLUSIVE && sofar.exclusiveID != "" then
          Err("An API key can belong to only one enabled exclusive group")
        else
          Ok(Gathered(sofar.groups + [group.(mode := mode)], if mode == EXCLUSIVE then id else sofar.exclusiveID))
  }

  function WithoutOrdinary(groups: seq<Group>): (r: seq<Group>)
    ensures forall g :: g in r <==> g in groups && g.mode != ORDINARY
  {
    if groups == [] then [] else
    var last := groups[|groups| - 1];
    var front := WithoutOrdinary(groups[..|groups| - 1]);
    if last.mode == ORDINARY then front else front + [last]
  }

  function EffectiveGroups(all: seq<Group>, ids: seq<string>): Result<seq<Group>> {
    match GatherTo(all, ids, |ids|)
    case Err(reason) => Err(reason)
    case Ok(g) => Ok(if g.exclusiveID != "" then WithoutOrdinary(g.groups) else g.groups)
  }

  /** effectiveKeyGroups. */
  method EffectiveKeyGroups(all: seq<Group>, ids: seq<string>) returns (r: Result<seq<Group>>)
    ensures r == EffectiveGroups(all, ids)
  {
    var sofar := Gathered([], "");
    var seen: set<string> := {};
    for i := 0 to |ids|
      invariant forall id :: id in seen <==> id in ids[..i]
      invariant GatherTo(all, ids, i) == Ok(sofar)
    {
      if ids[i] in seen { continue; }
      seen := seen + {ids[i]};
      var next := GatherOne(all, sofar, ids[i]);
      if next.Err? {
        GatherStaysFailed(all, ids, i + 1);
        return Err(next.reason);
      }
      sofar := next.value;
    }
    var groups := sofar.groups;
    if sofar.exclusiveID != "" {
      groups := WithoutOrdinary(groups);
    }
    return Ok(groups);
  }

  lemma {:induction false} GatherStaysFailed(all: seq<Group>, ids: seq<string>, n: nat)
    requires n <= |ids| && GatherTo(all, ids, n).Err?
    ensures GatherTo(all, ids, |ids|) == Err(GatherTo(all, ids, n).reason)
    decreases |ids| - n
  {
    if n < |ids| { GatherStaysFailed(all, ids, n + 1); }
  }

  // ----- Contents of rules, as sets ---------------------------------------------------

  /** What a rule, or several merged ones, lists in each dimension. */
  datatype Contents = Contents(
    models: set<string>, ids: set<string>, providers: set<Selector>,
    deniedModels: set<string>, deniedIds: set<string>, deniedProviders: set<Selector>)
  {
    function Plus(other: Contents): Contents {
      Contents(models + other.models, ids + other.ids, providers + other.providers,
               deniedModels + other.deniedModels, deniedIds + other.deniedIds, deniedProviders + other.deniedProviders)
    }

    predicate GrantsCredentials() {
      ids != {} || providers != {}
    }
  }

  const NO_CONTENTS := Contents({}, {}, {}, {}, {}, {})

  function ContentsOf(rule: RouteRule): Contents {
    Contents(SetOf(rule.models), SetOf(rule.ids), SetOf(rule.providers),
             SetOf(rule.deniedModels), SetOf(rule.deniedIds), SetOf(rule.deniedProviders))
  }

  /** A grant: a group's or a key's own rule together with the routes bound to it. */
  datatype Grant = Grant(routeIDs: seq<string>, rule: RouteRule)

  function GrantOf(group: Group): Grant {
    Grant(group.routeIDs, group.rule)
  }

  function RouteContents(routes: seq<Route>, id: string): Contents {
    match FindRoute(routes, id)
    case None => NO_CONTENTS
    case Some(route) => ContentsOf(route.rule)
  }

  function RoutesTo(routes: seq<Route>, ids: seq<string>, n: nat): Contents
    requires n <= |ids|
  {
    if n == 0 then NO_CONTENTS else RoutesTo(routes, ids, n - 1).Plus(RouteContents(routes, ids[n - 1]))
  }

  function GrantContents(routes: seq<Route>, grant: Grant): Contents {
    ContentsOf(grant.rule).Plus(RoutesTo(routes, grant.routeIDs, |grant.routeIDs|))
  }

  predicate RoutesExist(routes: seq<Route>, ids: seq<string>) {
    forall i :: 0 <= i < |ids| ==> FindRoute(routes, ids[i]).Some?
  }

  // ----- The declared meaning ---------------------------------------------------------

  /**
    What is to be decided for a key, free of order, spelling variants and repeats:
    - Unmanaged: nothing restricts the key;
    - Refused: the key is denied access;
    - Broken: a reference is dangling or two exclusive groups conflict;
    - Managed: the grants that take part, what the key itself lists, whether an exclusive
      group turns the latter into a limit on models, whether it is also a required
      credential allowlist, and whether credentials need an allowlist at all.
   */
  datatype Standing =
    | Unmanaged
    | Refused
    | Broken
    | Managed(grants: seq<Contents>, own: Contents, exclusive: bool, constrained: bool, requireAllowlist: bool)

  ghost predicate Has(values: set<string>, value: string) {
    exists x :: x in values && EqualFold(x, value)
  }

  /** Everything the first n grants list. */
  ghost function TotalTo(grants: seq<Contents>, n: nat): Contents
    requires n <= |grants|
  {
    if n == 0 then NO_CONTENTS else TotalTo(grants, n - 1).Plus(grants[n - 1])
  }

  ghost function Total(grants: seq<Contents>): Contents {
    TotalTo(grants, |grants|)
  }

  /** Some grants list models, none of those lacks credentials, and others grant credentials without listing models. */
  ghost predicate Opens(grants: seq<Contents>) {
    && (forall g :: g in grants && g.models != {} ==> g.GrantsCredentials())
    && (exists g :: g in grants && g.models != {})
    && (exists g :: g in grants && g.models == {} && g.GrantsCredentials())
  }

  ghost predicate OpenId(grants: seq<Contents>, ref: string) {
    exists g :: g in grants && g.models == {} && Has(g.ids, ref)
  }

  ghost predicate OpenProvider(grants: seq<Contents>, candidate: Selector) {
    exists g :: g in grants && g.models == {} && candidate in g.providers
  }

  /** The key's own model list bounds an exclusive pool. */
  ghost predicate WithinOwnModels(s: Standing, model: string)
    requires s.Managed?
  {
    s.exclusive && s.own.models != {} ==> Has(s.own.models, model)
  }

  /** An exclusive pool and the key's own list have no model in common. */
  ghost predicate NothingInCommon(s: Standing)
    requires s.Managed?
  {
    var listed := Total(s.grants).models;
    && s.exclusive && s.own.models != {} && listed != {} && !Opens(s.grants)
    && forall m :: m in listed ==> !Has(s.own.models, m)
  }

  ghost predicate Closed(s: Standing) {
    s.Refused? || s.Broken? || (s.Managed? && NothingInCommon(s))
  }

  ghost predicate ModelPermitted(s: Standing, model: string) {
    if Closed(s) then false
    else if s.Unmanaged? || model == "" then true
    else
      var total := Total(s.grants);
      && !Has(total.deniedModels + s.own.deniedModels, model)
      && (Opens(s.grants) || total.models == {} || Has(total.models, model))
      && WithinOwnModels(s, model)
  }

  /** The model is covered only by grants that list no models. */
  ghost predicate OnlyOpen(s: Standing, model: string)
    requires s.Managed?
  {
    && Opens(s.grants) && model != ""
    && !(Has(Total(s.grants).models, model) && WithinOwnModels(s, model))
  }

  ghost predicate Denied(s: Standing, ref: string, candidate: Selector)
    requires s.Managed?
  {
    var total := Total(s.grants);
    || Has(total.deniedIds + s.own.deniedIds, ref)
    || exists d :: d in total.deniedProviders + s.own.deniedProviders && MayMatch(candidate, d)
  }

  /** Some participating grant that may serve this model gives the credential. */
  ghost predicate Granted(s: Standing, model: string, ref: string, candidate: Selector)
    requires s.Managed?
  {
    var total := Total(s.grants);
    if OnlyOpen(s, model) then
      OpenId(s.grants, ref) || OpenProvider(s.grants, candidate)
    else
      || (!s.requireAllowlist && total.ids == {} && total.providers == {})
      || Has(total.ids, ref)
      || candidate in total.providers
  }

  ghost predicate CredentialPermitted(s: Standing, model: string, ref: string, source: string, provider: string) {
    if Closed(s) then false
    else if s.Unmanaged? then true
    else
      var candidate := Described(source, provider);
      && !Denied(s, ref, candidate)
      && (s.constrained ==> Has(s.own.ids, ref) || candidate in s.own.providers)
      && Granted(s, model, ref, candidate)
  }

  // ----- A key's standing -------------------------------------------------------------

  function OwnGrant(key: Key): Grant {
    Grant(key.bindings.routeIDs, key.bindings.rule)
  }

  function GrantsOfGroups(routes: seq<Route>, groups: seq<Group>): (r: seq<Contents>)
    ensures |r| == |groups|
    ensures forall i :: 0 <= i < |groups| ==> r[i] == GrantContents(routes, GrantOf(groups[i]))
  {
    seq(|groups|, i requires 0 <= i < |groups| => GrantContents(routes, GrantOf(groups[i])))
  }

  predicate GroupRoutesExist(routes: seq<Route>, groups: seq<Group>) {
    forall i :: 0 <= i < |groups| ==> RoutesExist(routes, groups[i].routeIDs)
  }

  predicate HasExclusive(groups: seq<Group>) {
    exists i :: 0 <= i < |groups| && groups[i].mode == EXCLUSIVE
  }

  predicate AnyGrantsAccess(groups: seq<Group>) {
    exists i :: 0 <= i < |groups| && GrantsAccess(groups[i])
  }

  /** A key rule left completely empty inherits its groups; any other configured rule limits them. */
  predicate Constrained(routes: seq<Route>, key: Key) {
    var own := GrantContents(routes, OwnGrant(key));
    var cleared := key.bindings.routeIDs == [] && key.bindings.rule.Empty();
    (key.bindings.configured && !cleared) || own.ids != {} || own.providers != {}
  }

  function GroupedStanding(routes: seq<Route>, groups: seq<Group>, key: Key): Standing {
    if key.groupIDs != [] && !AnyGrantsAccess(groups) then Refused
    else if !GroupRoutesExist(routes, groups) || !RoutesExist(routes, key.bindings.routeIDs) then Broken
    else
      var exclusive := HasExclusive(groups);
      var own := GrantContents(routes, OwnGrant(key));
      Managed(
        GrantsOfGroups(routes, groups) + (if exclusive then [] else [own]), own, exclusive,
        exclusive && Constrained(routes, key),
        key.bindings.configured || key.groupIDs != [] || key.bindings.routeIDs != [] || !key.bindings.rule.Empty())
  }

  function StandingOf<K>(state: State<K>, key: Option<Key>): Standing {
    if !state.access.enabled then Unmanaged
    else if state.access.denyUngrouped && (key.None? || key.value.groupIDs == []) then Refused
    else if key.None? then Unmanaged
    else
      match EffectiveGroups(state.groups, key.value.groupIDs)
      case Err(_) => Broken
      case Ok(groups) => GroupedStanding(state.routes, groups, key.value)
  }
}
