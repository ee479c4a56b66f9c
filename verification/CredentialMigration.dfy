/**
  MigrateCredentialRefs of internal/billing/credential_migration.go: replacing host
  credentials in every route, group and key rule and in the configured inventory. Preparing
  keeps both identities; completing retires the old ones.
 */
module CredentialMigration {
  import opened Text
  import opened Model
  import opened ChangeSets
  import opened Stores

  type Mapping = map<string, string>

  const FINGERPRINT_PREFIX := "sha256:"
  const FINGERPRINT_LENGTH := 71
  const MAX_REPLACEMENTS := 32

  predicate HexDigit(c: char) {
    '0' <= c <= '9' || 'a' <= c <= 'f' || 'A' <= c <= 'F'
  }

  predicate ValidFingerprint(ref: string) {
    && |ref| == FINGERPRINT_LENGTH && FINGERPRINT_PREFIX <= ref
    && forall i :: |FINGERPRINT_PREFIX| <= i < |ref| ==> HexDigit(ref[i])
  }

  /** One replacement the migration accepts: two distinct lower-case fingerprints, not part of a chain. */
  predicate GoodPair(mapping: Mapping, old': string)
    requires old' in mapping
  {
    var next := mapping[old'];
    && ValidFingerprint(old') && ValidFingerprint(next) && old' == Lower(old') && next == Lower(next)
    && old' != next && next !in mapping
  }

  predicate Acceptable(mapping: Mapping) {
    |mapping| <= MAX_REPLACEMENTS && forall o :: o in mapping ==> GoodPair(mapping, o)
  }

  method Validate(mapping: Mapping) returns (trouble: Option<string>)
    ensures trouble.None? <==> Acceptable(mapping)
  {
    if |mapping| > MAX_REPLACEMENTS { return Some("Too many credential replacements"); }
    var pending := mapping.Keys;
    while pending != {}
      invariant pending <= mapping.Keys
      invariant forall o :: o in mapping && o !in pending ==> GoodPair(mapping, o)
      decreases pending
    {
      var o :| o in pending;
      pending := pending - {o};
      var next := mapping[o];
      if !ValidFingerprint(o) || !ValidFingerprint(next) || o != Lower(o) || next != Lower(next) || o == next {
        return Some("Invalid credential replacement");
      }
      if next in mapping {
        return Some("Credential replacements must not contain chains or cycles");
      }
    }
    return None;
  }

  // ----- Lists of references ----------------------------------------------------------

  /** The list with a replacement appended for each of its first n entries that has one. */
  function AddedTo(mapping: Mapping, values: seq<string>, n: nat): (out: seq<string>)
    requires n <= |values|
  {
    if n == 0 then values else
    var out := AddedTo(mapping, values, n - 1);
    if values[n - 1] in mapping && mapping[values[n - 1]] !in out then out + [mapping[values[n - 1]]] else out
  }

  function Without(mapping: Mapping, values: seq<string>): (out: seq<string>)
    ensures forall x :: x in out <==> x in values && x !in mapping
  {
    if values == [] then [] else
    var front, last := Without(mapping, values[..|values| - 1]), values[|values| - 1];
    assert values == values[..|values| - 1] + [last];
    if last in mapping then front else front + [last]
  }

  function Migrated(mapping: Mapping, complete: bool, values: seq<string>): seq<string> {
    var out := AddedTo(mapping, values, |values|);
    if complete then Without(mapping, out) else out
  }

  method MigrateRefs(mapping: Mapping, complete: bool, values: seq<string>) returns (out: seq<string>, changed: bool)
    ensures out == Migrated(mapping, complete, values) && changed == (out != values)
  {
    out := values;
    for i := 0 to |values|
      invariant out == AddedTo(mapping, values, i)
    {
      if values[i] in mapping && mapping[values[i]] !in out {
        out := out + [mapping[values[i]]];
      }
    }
    if complete {
      out := Without(mapping, out);
    }
    return out, out != values;
  }

  /** Some listed reference is to be replaced by x. */
  ghost predicate Brings(mapping: Mapping, values: seq<string>, n: nat, x: string)
    requires n <= |values|
  {
    exists i :: 0 <= i < n && values[i] in mapping && mapping[values[i]] == x
  }

  lemma {:induction false} AddedMembers(mapping: Mapping, values: seq<string>, n: nat)
    requires n <= |values|
    ensures forall x :: x in AddedTo(mapping, values, n) <==> x in values || Brings(mapping, values, n, x)
  {
    if n > 0 {
      AddedMembers(mapping, values, n - 1);
    }
  }

  /** What a set of references becomes. */
  ghost function Moved(mapping: Mapping, complete: bool, refs: set<string>): (r: set<string>)
    ensures forall x :: x in r <==> (x in refs || exists o :: o in refs && o in mapping && mapping[o] == x) && !(complete && x in mapping)
  {
    var all := refs + set o | o in refs && o in mapping :: mapping[o];
    if complete then all - mapping.Keys else all
  }

  lemma MigratedElements(mapping: Mapping, complete: bool, values: seq<string>)
    ensures forall x :: x in Migrated(mapping, complete, values) <==> x in Moved(mapping, complete, set v | v in values)
  {
    hide AddedTo;
    AddedMembers(mapping, values, |values|);
    var refs := set v | v in values;
    forall x
      ensures Brings(mapping, values, |values|, x) <==> exists o :: o in refs && o in mapping && mapping[o] == x
    {
      if o :| o in refs && o in mapping && mapping[o] == x {
        var i :| 0 <= i < |values| && values[i] == o;
      }
    }
  }

  ghost predicate NoChains(mapping: Mapping) {
    forall o :: o in mapping ==> mapping[o] !in mapping
  }

  /** A list that already holds every replacement it calls for gains nothing. */
  lemma {:induction false} NothingToAdd(mapping: Mapping, values: seq<string>, n: nat)
    requires n <= |values| && forall v :: v in values && v in mapping ==> mapping[v] in values
    ensures AddedTo(mapping, values, n) == values
  {
    if n > 0 {
      NothingToAdd(mapping, values, n - 1);
      assert values[n - 1] in values;
    }
  }

  lemma {:induction false} NothingToDrop(mapping: Mapping, values: seq<string>)
    requires forall v :: v in values ==> v !in mapping
    ensures Without(mapping, values) == values
  {
    if values != [] {
      assert forall v :: v in values[..|values| - 1] ==> v in values;
      NothingToDrop(mapping, values[..|values| - 1]);
    }
  }

  /** Preparing first, preparing twice or completing twice ends in the very list one completion gives. */
  lemma RepeatsChangeNothing(mapping: Mapping, first: bool, second: bool, values: seq<string>)
    requires NoChains(mapping)
    ensures Migrated(mapping, second, Migrated(mapping, first, values)) == Migrated(mapping, first || second, values)
  {
    hide AddedTo, Without;
    AddedMembers(mapping, values, |values|);
    var added := AddedTo(mapping, values, |values|);
    forall v | v in added && v in mapping
      ensures mapping[v] in added
    {
      if v in values {
        var i :| 0 <= i < |values| && values[i] == v;
        assert Brings(mapping, values, |values|, mapping[v]);
      }
    }
    if first {
      var done := Without(mapping, added);
      NothingToAdd(mapping, done, |done|);
      NothingToDrop(mapping, done);
    } else {
      NothingToAdd(mapping, added, |added|);
    }
  }

  /** No list loses all its entries, so no rule turns from restricting to unrestricted. */
  lemma NeverEmptied(mapping: Mapping, complete: bool, values: seq<string>)
    requires NoChains(mapping)
    ensures Migrated(mapping, complete, values) == [] <==> values == []
  {
    hide AddedTo;
    AddedMembers(mapping, values, |values|);
    if values == [] {
      NothingToAdd(mapping, values, 0);
    } else {
      var x := if values[0] in mapping then mapping[values[0]] else values[0];
      assert values[0] in values && x !in mapping;
      assert values[0] in mapping ==> Brings(mapping, values, |values|, x);
      assert x in Migrated(mapping, complete, values);
    }
  }

  // ----- Rules, routes, groups and keys -----------------------------------------------

  function MigratedRule(mapping: Mapping, complete: bool, rule: RouteRule): RouteRule {
    rule.(ids := Migrated(mapping, complete, rule.ids), deniedIds := Migrated(mapping, complete, rule.deniedIds))
  }

  function MigratedRoute(mapping: Mapping, complete: bool, route: Route): Route {
    route.(rule := MigratedRule(mapping, complete, route.rule))
  }

  function MigratedGroup(mapping: Mapping, complete: bool, group: Group): Group {
    group.(rule := MigratedRule(mapping, complete, group.rule))
  }

  function MigratedKey(mapping: Mapping, complete: bool, key: Key): Key {
    key.(bindings := key.bindings.(rule := MigratedRule(mapping, complete, key.bindings.rule)))
  }

  function MigratedRoutes(mapping: Mapping, complete: bool, routes: seq<Route>): (r: seq<Route>)
    ensures |r| == |routes| && forall i :: 0 <= i < |r| ==> r[i] == MigratedRoute(mapping, complete, routes[i])
  {
    seq(|routes|, i requires 0 <= i < |routes| => MigratedRoute(mapping, complete, routes[i]))
  }

  function MigratedGroups(mapping: Mapping, complete: bool, groups: seq<Group>): (r: seq<Group>)
    ensures |r| == |groups| && forall i :: 0 <= i < |r| ==> r[i] == MigratedGroup(mapping, complete, groups[i])
  {
    seq(|groups|, i requires 0 <= i < |groups| => MigratedGroup(mapping, complete, groups[i]))
  }

  function MigratedKeys(mapping: Mapping, complete: bool, keys: map<string, Key>): map<string, Key> {
    map scope | scope in keys :: MigratedKey(mapping, complete, keys[scope])
  }

  method MigrateRule(mapping: Mapping, complete: bool, rule: RouteRule) returns (out: RouteRule, changed: bool)
    ensures out == MigratedRule(mapping, complete, rule) && changed == (out != rule)
  {
    var ids, changedAllow := MigrateRefs(mapping, complete, rule.ids);
    var deniedIds, changedDeny := MigrateRefs(mapping, complete, rule.deniedIds);
    return rule.(ids := ids, deniedIds := deniedIds), changedAllow || changedDeny;
  }

  method MigrateRoutes(mapping: Mapping, complete: bool, routes: seq<Route>) returns (out: seq<Route>, changed: bool)
    ensures out == MigratedRoutes(mapping, complete, routes) && changed == (out != routes)
  {
    hide Migrated;
    out, changed := routes, false;
    for i := 0 to |routes|
      invariant |out| == |routes|
      invariant forall j :: 0 <= j < i ==> out[j] == MigratedRoute(mapping, complete, routes[j])
      invariant forall j :: i <= j < |routes| ==> out[j] == routes[j]
      invariant changed <==> exists j :: 0 <= j < i && out[j] != routes[j]
    {
      var rule, touched := MigrateRule(mapping, complete, routes[i].rule);
      out := out[i := routes[i].(rule := rule)];
      changed := touched || changed;
    }
  }

  method MigrateGroups(mapping: Mapping, complete: bool, groups: seq<Group>) returns (out: seq<Group>, changed: bool)
    ensures out == MigratedGroups(mapping, complete, groups) && changed == (out != groups)
  {
    hide Migrated;
    out, changed := groups, false;
    for i := 0 to |groups|
      invariant |out| == |groups|
      invariant forall j :: 0 <= j < i ==> out[j] == MigratedGroup(mapping, complete, groups[j])
      invariant forall j :: i <= j < |groups| ==> out[j] == groups[j]
      invariant changed <==> exists j :: 0 <= j < i && out[j] != groups[j]
    {
      var rule, touched := MigrateRule(mapping, complete, groups[i].rule);
      out := out[i := groups[i].(rule := rule)];
      changed := touched || changed;
    }
  }

  method MigrateKey(mapping: Mapping, complete: bool, key: Key) returns (out: Key, changed: bool)
    ensures out == MigratedKey(mapping, complete, key) && changed == (out != key)
  {
    var rule, touched := MigrateRule(mapping, complete, key.bindings.rule);
    return key.(bindings := key.bindings.(rule := rule)), touched;
  }

  /** Exactly the scopes whose record changes are listed, but for those still pending. */
  ghost predicate Reports(changed: seq<string>, was: map<string, Key>, now: map<string, Key>, pending: set<string>) {
    && was.Keys == now.Keys
    && forall scope :: scope in changed <==> scope in now && scope !in pending && now[scope] != was[scope]
  }

  lemma NothingReported(was: map<string, Key>, now: map<string, Key>)
    requires was.Keys == now.Keys
    ensures Reports([], was, now, now.Keys)
  {
  }

  lemma ReportNext(changed: seq<string>, was: map<string, Key>, now: map<string, Key>, pending: set<string>, scope: string)
    requires Reports(changed, was, now, pending) && scope in pending && scope in now
    ensures Reports(if now[scope] != was[scope] then changed + [scope] else changed, was, now, pending - {scope})
  {
  }

  /** Rewrites the key records in place and reports which ones changed. */
  method MigrateKeys(mapping: Mapping, complete: bool, keys: map<string, KeyState>) returns (changed: seq<string>)
    requires Separate(keys)
    modifies Cells(keys)
    ensures KeysOf(keys) == MigratedKeys(mapping, complete, old(KeysOf(keys)))
    ensures Reports(changed, old(KeysOf(keys)), KeysOf(keys), {})
  {
    hide MigratedKey, MigratedKeys, KeysOf, Reports;
    changed := [];
    ghost var was := KeysOf(keys);
    ghost var target := MigratedKeys(mapping, complete, was);
    RecordsHold(keys, was);
    MigratedEach(mapping, complete, was);
    NothingReported(was, target);
    var pending := keys.Keys;
    while pending != {}
      invariant pending <= keys.Keys
      invariant forall scope :: scope in keys ==> keys[scope].key == if scope in pending then was[scope] else target[scope]
      invariant Reports(changed, was, target, pending)
      decreases pending
    {
      var scope :| scope in pending;
      var key, touched := MigrateKey(mapping, complete, keys[scope].key);
      keys[scope].key := key;
      ReportNext(changed, was, target, pending, scope);
      pending := pending - {scope};
      if touched {
        changed := changed + [scope];
      }
    }
    RecordsHold(keys, target);
  }

  lemma RecordsHold(keys: map<string, KeyState>, target: map<string, Key>)
    requires keys.Keys == target.Keys
    ensures (forall scope :: scope in keys ==> keys[scope].key == target[scope]) <==> KeysOf(keys) == target
  {
    if KeysOf(keys) == target {
      assert forall scope :: scope in keys ==> KeysOf(keys)[scope] == target[scope];
    }
  }

  lemma MigratedEach(mapping: Mapping, complete: bool, was: map<string, Key>)
    ensures var target := MigratedKeys(mapping, complete, was);
            target.Keys == was.Keys && forall scope :: scope in was ==> target[scope] == MigratedKey(mapping, complete, was[scope])
  {
    hide MigratedKey;
  }

  // ----- Configured credentials -------------------------------------------------------

  type Inventory = map<string, ConfigCredential>

  function MoveOne(mapping: Mapping, complete: bool, held: Inventory, o: string): Inventory
    requires o in mapping
  {
    if o !in held then held else
    var added := if mapping[o] in held then held else held[mapping[o] := held[o]];
    if complete then added - {o} else added
  }

  /** The inventory after the replacements order[..n], in that order. */
  function MoveTo(mapping: Mapping, complete: bool, held: Inventory, order: seq<string>, n: nat): Inventory
    requires n <= |order| && forall o :: o in order ==> o in mapping
  {
    if n == 0 then held else MoveOne(mapping, complete, MoveTo(mapping, complete, held, order, n - 1), order[n - 1])
  }

  /** An order in which a loop over the mapping may run: every replacement once. */
  ghost predicate Enumerates(order: seq<string>, mapping: Mapping) {
    && (forall i, j :: 0 <= i < j < |order| ==> order[i] != order[j])
    && (forall o :: o in order <==> o in mapping)
  }

  ghost function MoveAll(mapping: Mapping, complete: bool, held: Inventory, order: seq<string>): Inventory
    requires Enumerates(order, mapping)
  {
    MoveTo(mapping, complete, held, order, |order|)
  }

  /** Replacing o does something: it is configured, and is retired or has something to hand over. */
  ghost predicate Matters(mapping: Mapping, complete: bool, held: Inventory, o: string)
    requires o in mapping
  {
    o in held && (complete || mapping[o] !in held)
  }

  method MigrateInventory(mapping: Mapping, complete: bool, held: Inventory)
    returns (out: Inventory, changed: bool, ghost order: seq<string>)
    requires NoChains(mapping)
    ensures Enumerates(order, mapping) && out == MoveAll(mapping, complete, held, order)
    ensures changed <==> out != held
  {
    hide MoveTo, Matters, EntryAfter, NoChains;
    out, changed, order := held, false, [];
    var pending := mapping.Keys;
    NothingMovedYet(mapping, complete, held);
    while pending != {}
      invariant pending <= mapping.Keys && forall o :: o in order <==> o in mapping && o !in pending
      invariant forall i, j :: 0 <= i < j < |order| ==> order[i] != order[j]
      invariant out == MoveTo(mapping, complete, held, order, |order|)
      invariant changed <==> exists o :: o in order && Matters(mapping, complete, held, o)
      decreases pending
    {
      var o :| o in pending;
      pending := pending - {o};
      NextMove(mapping, complete, held, order, o);
      order := order + [o];
      if o in out {
        if mapping[o] !in out {
          out := out[mapping[o] := out[o]];
          changed := true;
        }
        if complete {
          out := out - {o};
          changed := true;
        }
      }
    }
    MovesMatter(mapping, complete, held, order);
  }

  lemma NothingMovedYet(mapping: Mapping, complete: bool, held: Inventory)
    ensures MoveTo(mapping, complete, held, [], 0) == held
  {
  }

  lemma NextMove(mapping: Mapping, complete: bool, held: Inventory, order: seq<string>, o: string)
    requires NoChains(mapping) && o in mapping && o !in order
    requires forall x :: x in order ==> x in mapping
    requires forall i, j :: 0 <= i < j < |order| ==> order[i] != order[j]
    ensures forall x :: x in order + [o] <==> x in order || x == o
    ensures var before := MoveTo(mapping, complete, held, order, |order|);
            && MoveTo(mapping, complete, held, order + [o], |order + [o]|) == MoveOne(mapping, complete, before, o)
            && (Matters(mapping, complete, held, o) ==> o in before && (complete || mapping[o] !in before ||
                                                        exists x :: x in order && Matters(mapping, complete, held, x)))
            && (o in before && (complete || mapping[o] !in before) ==> Matters(mapping, complete, held, o))
  {
    hide MoveOne;
    MovePrefix(mapping, complete, held, order, o, |order|);
    MovedSoFar(mapping, complete, held, order, |order|, o);
    MovedSoFar(mapping, complete, held, order, |order|, mapping[o]);
  }

  lemma MovesMatter(mapping: Mapping, complete: bool, held: Inventory, order: seq<string>)
    requires NoChains(mapping) && Enumerates(order, mapping)
    ensures MoveAll(mapping, complete, held, order) != held <==> exists o :: o in order && Matters(mapping, complete, held, o)
  {
    hide MoveTo;
    var r := MoveTo(mapping, complete, held, order, |order|);
    if o :| o in order && Matters(mapping, complete, held, o) {
      MovedSoFar(mapping, complete, held, order, |order|, o);
      MovedSoFar(mapping, complete, held, order, |order|, mapping[o]);
      GiverExists(mapping, held, order, |order|, mapping[o]);
      assert (o in r) != (o in held) || (mapping[o] in r) != (mapping[o] in held);
    } else {
      forall x
        ensures (x in r <==> x in held) && (x in r ==> r[x] == held[x])
      {
        MovedSoFar(mapping, complete, held, order, |order|, x);
        var giver := Giver(mapping, held, order, |order|, x);
        assert giver.Some? ==> !Matters(mapping, complete, held, giver.value);
        assert x in order ==> !Matters(mapping, complete, held, x);
      }
    }
  }

  lemma {:induction false} MovePrefix(mapping: Mapping, complete: bool, held: Inventory, order: seq<string>, o: string, n: nat)
    requires n <= |order| && o in mapping && forall x :: x in order ==> x in mapping
    ensures forall x :: x in order + [o] ==> x in mapping
    ensures MoveTo(mapping, complete, held, order + [o], n) == MoveTo(mapping, complete, held, order, n)
  {
    if n > 0 { MovePrefix(mapping, complete, held, order, o, n - 1); }
  }

  /** The first replacement in the order that has a configured credential to hand over to next. */
  function Giver(mapping: Mapping, held: Inventory, order: seq<string>, n: nat, next: string): (r: Option<string>)
    requires n <= |order| && forall o :: o in order ==> o in mapping
    ensures r.Some? ==> r.value in order && r.value in mapping && mapping[r.value] == next && r.value in held
  {
    if n == 0 then None else
    var sofar := Giver(mapping, held, order, n - 1, next);
    if sofar.Some? then sofar
    else if order[n - 1] in held && mapping[order[n - 1]] == next then Some(order[n - 1])
    else None
  }

  lemma {:induction false} GiverExists(mapping: Mapping, held: Inventory, order: seq<string>, n: nat, next: string)
    requires n <= |order| && forall o :: o in order ==> o in mapping
    ensures Giver(mapping, held, order, n, next).None? ==>
              forall i :: 0 <= i < n ==> !(order[i] in held && mapping[order[i]] == next)
  {
    if n > 0 { GiverExists(mapping, held, order, n - 1, next); }
  }

  /** What the inventory holds after n replacements, entry by entry. */
  function EntryAfter(mapping: Mapping, complete: bool, held: Inventory, order: seq<string>, n: nat, x: string): Option<ConfigCredential>
    requires n <= |order| && forall o :: o in order ==> o in mapping
  {
    if complete && x in order[..n] then None
    else if x in held then Some(held[x])
    else
      match Giver(mapping, held, order, n, x)
      case None => None
      case Some(o) => Some(held[o])
  }

  /** The inventory agrees with what the first n replacements leave at x. */
  ghost predicate HoldsAt(mapping: Mapping, complete: bool, held: Inventory, order: seq<string>, n: nat, x: string, r: Inventory)
    requires n <= |order| && forall o :: o in order ==> o in mapping
  {
    var e := EntryAfter(mapping, complete, held, order, n, x);
    (x in r <==> e.Some?) && (x in r ==> r[x] == e.value)
  }

  lemma {:induction false} MovedSoFar(mapping: Mapping, complete: bool, held: Inventory, order: seq<string>, n: nat, x: string)
    requires n <= |order| && NoChains(mapping)
    requires forall o :: o in order ==> o in mapping
    requires forall i, j :: 0 <= i < j < |order| ==> order[i] != order[j]
    ensures HoldsAt(mapping, complete, held, order, n, x, MoveTo(mapping, complete, held, order, n))
  {
    hide EntryAfter, MoveOne, HoldsAt;
    if n > 0 {
      MovedSoFar(mapping, complete, held, order, n - 1, x);
      MovedSoFar(mapping, complete, held, order, n - 1, order[n - 1]);
      EntryStep(mapping, complete, held, order, n, x, MoveTo(mapping, complete, held, order, n - 1));
    } else {
      NothingMoved(mapping, complete, held, order, x);
    }
  }

  lemma NothingMoved(mapping: Mapping, complete: bool, held: Inventory, order: seq<string>, x: string)
    requires forall o :: o in order ==> o in mapping
    ensures HoldsAt(mapping, complete, held, order, 0, x, held)
  {
  }

  lemma EntryStep(mapping: Mapping, complete: bool, held: Inventory, order: seq<string>, n: nat, x: string, before: Inventory)
    requires 0 < n <= |order| && NoChains(mapping) && forall o :: o in order ==> o in mapping
    requires order[n - 1] !in order[..n - 1]
    requires HoldsAt(mapping, complete, held, order, n - 1, x, before)
    requires HoldsAt(mapping, complete, held, order, n - 1, order[n - 1], before)
    ensures HoldsAt(mapping, complete, held, order, n, x, MoveOne(mapping, complete, before, order[n - 1]))
  {
    assert order[..n] == order[..n - 1] + [order[n - 1]];
    assert mapping[order[n - 1]] !in order[..n];
  }

  /** Credentials that compete for the same unconfigured replacement are the same anyway. */
  ghost predicate NoConflicts(mapping: Mapping, held: Inventory) {
    forall a, b :: a in mapping && b in mapping && mapping[a] == mapping[b] && mapping[a] !in held && a in held && b in held ==>
                     held[a] == held[b]
  }

  ghost predicate OrderIrrelevant(mapping: Mapping, complete: bool, held: Inventory) {
    forall p, q :: Enumerates(p, mapping) && Enumerates(q, mapping) ==> MoveAll(mapping, complete, held, p) == MoveAll(mapping, complete, held, q)
  }

  /** Go ranges over a map in no fixed order: the inventory is still determined exactly when no two credentials compete. */
  lemma InventoryIsDetermined(mapping: Mapping, complete: bool, held: Inventory)
    requires NoChains(mapping)
    ensures OrderIrrelevant(mapping, complete, held) <==> NoConflicts(mapping, held)
  {
    hide MoveAll, MoveTo;
    if NoConflicts(mapping, held) {
      forall p, q | Enumerates(p, mapping) && Enumerates(q, mapping)
        ensures MoveAll(mapping, complete, held, p) == MoveAll(mapping, complete, held, q)
      {
        SameInventory(mapping, complete, held, p, q);
      }
    } else {
      var a, b :| a in mapping && b in mapping && mapping[a] == mapping[b] && mapping[a] !in held && a in held && b in held &&
                  held[a] != held[b];
      var p, q := Starting(mapping, a), Starting(mapping, b);
      FirstGives(mapping, complete, held, p);
      FirstGives(mapping, complete, held, q);
    }
  }

  ghost function Listed(refs: set<string>): (r: seq<string>)
    ensures forall x :: x in r <==> x in refs
    ensures forall i, j :: 0 <= i < j < |r| ==> r[i] != r[j]
  {
    if refs == {} then [] else
    var x :| x in refs;
    [x] + Listed(refs - {x})
  }

  ghost function Starting(mapping: Mapping, o: string): (r: seq<string>)
    requires o in mapping
    ensures Enumerates(r, mapping) && r[0] == o
  {
    [o] + Listed(mapping.Keys - {o})
  }

  lemma {:induction false} GiverStays(mapping: Mapping, held: Inventory, order: seq<string>, n: nat)
    requires 0 < n <= |order| && (forall o :: o in order ==> o in mapping) && order[0] in held
    ensures Giver(mapping, held, order, n, mapping[order[0]]) == Some(order[0])
  {
    if n > 1 {
      GiverStays(mapping, held, order, n - 1);
    } else {
      assert Giver(mapping, held, order, 0, mapping[order[0]]) == None;
    }
  }

  lemma FirstGives(mapping: Mapping, complete: bool, held: Inventory, order: seq<string>)
    requires NoChains(mapping) && Enumerates(order, mapping) && order != []
    requires order[0] in held && mapping[order[0]] !in held
    ensures var r := MoveAll(mapping, complete, held, order); mapping[order[0]] in r && r[mapping[order[0]]] == held[order[0]]
  {
    hide MoveTo;
    MovedSoFar(mapping, complete, held, order, |order|, mapping[order[0]]);
    GiverStays(mapping, held, order, |order|);
    var next := mapping[order[0]];
    assert next !in order[..|order|];
  }

  lemma SameInventory(mapping: Mapping, complete: bool, held: Inventory, p: seq<string>, q: seq<string>)
    requires NoChains(mapping) && NoConflicts(mapping, held) && Enumerates(p, mapping) && Enumerates(q, mapping)
    ensures MoveAll(mapping, complete, held, p) == MoveAll(mapping, complete, held, q)
  {
    hide MoveTo, Giver;
    assert p[..|p|] == p && q[..|q|] == q;
    var a, b := MoveAll(mapping, complete, held, p), MoveAll(mapping, complete, held, q);
    forall x
      ensures (x in a <==> x in b) && (x in a ==> a[x] == b[x])
    {
      if x !in held { SameEntry(mapping, held, p, q, x); }
      MovedSoFar(mapping, complete, held, p, |p|, x);
      MovedSoFar(mapping, complete, held, q, |q|, x);
    }
  }

  lemma SameEntry(mapping: Mapping, held: Inventory, p: seq<string>, q: seq<string>, x: string)
    requires NoConflicts(mapping, held) && Enumerates(p, mapping) && Enumerates(q, mapping) && x !in held
    ensures var a, b := Giver(mapping, held, p, |p|, x), Giver(mapping, held, q, |q|, x);
            (a.Some? <==> b.Some?) && (a.Some? ==> held[a.value] == held[b.value])
  {
    hide Giver;
    GiverExists(mapping, held, p, |p|, x);
    GiverExists(mapping, held, q, |q|, x);
  }

  // ----- The edit ---------------------------------------------------------------------

  /** The working set after a migration that visits the configured credentials in the given order. */
  ghost function Replaced(mapping: Mapping, complete: bool, order: seq<string>, s: Snapshot): Snapshot
    requires Enumerates(order, mapping)
  {
    State(s.plans, MigratedKeys(mapping, complete, s.keys), MigratedRoutes(mapping, complete, s.routes),
          MigratedGroups(mapping, complete, s.groups), s.access, MoveAll(mapping, complete, s.credentials, order))
  }

  /**
    Everything moves in one transaction or nothing does: a refused mapping and a failed save
    leave memory, dirty set and disk as they were.
   */
  method MigrateCredentialRefs(store: Store, mapping: Mapping, complete: bool, fails: bool)
    returns (ok: bool, ghost order: seq<string>)
    requires store.Valid()
    modifies store`state, store`dirty, store`unsavedNormal, store`unsavedErrors, store.repo
    ensures store.Valid()
    ensures store.Kept(old(store.Held()), ok)
    ensures ok ==> Acceptable(mapping) && Enumerates(order, mapping)
    ensures ok ==> store.Memory() == Replaced(mapping, complete, order, old(store.Memory())) && store.dirty == NO_CHANGES
    ensures Acceptable(mapping) && !fails ==> ok
    ensures Acceptable(mapping) && fails ==>
              Enumerates(order, mapping) &&
              (ok <==> old(store.dirty) == NO_CHANGES && Replaced(mapping, complete, order, old(store.Memory())) == old(store.Memory()))
    ensures !ok ==> store.Memory() == old(store.Memory()) && store.Held() == old(store.Held())
  {
    hide Flushed, Quiet, Acceptable, NoChains, Enumerates, Replaced, KeysOf, Separate, Agrees, Covers, Merge, Changes.Empty;
    order := [];
    ghost var was := store.Memory();
    assert forall c :: c in Cells(store.state.keys) ==> c as object != store.repo;
    var trouble := Validate(mapping);
    assert store.Memory() == was;
    if trouble.Some? { return false, order; }
    AcceptableHasNoChains(mapping);
    var next, changes, order' := EditedCopy(store, mapping, complete);
    order := order';
    assert store.Memory() == was;
    MergeIsEmpty(store.dirty, changes);
    ok := store.Publish(next, changes, fails);
  }

  /** The edit itself: the working copy, rewritten, and the announcement of what changed. */
  method EditedCopy(store: Store, mapping: Mapping, complete: bool) returns (next: State<KeyState>, changes: Changes, ghost order: seq<string>)
    requires NoChains(mapping)
    ensures Enumerates(order, mapping) && SnapshotOf(next) == Replaced(mapping, complete, order, store.Memory())
    ensures Separate(next.keys) && forall scope :: scope in next.keys ==> fresh(next.keys[scope])
    ensures Covers(store.Memory(), SnapshotOf(next), changes)
    ensures Quiet(changes) && (changes == NO_CHANGES <==> SnapshotOf(next) == store.Memory())
  {
    hide Acceptable, NoChains, Enumerates, MigratedKeys, MigratedRoutes, MigratedGroups, MoveAll, Reports, KeysOf, Separate, Covers;
    ghost var was := store.Memory();
    next := store.CopyForEdit();
    var routes, changedRoutes := MigrateRoutes(mapping, complete, next.routes);
    var groups, changedGroups := MigrateGroups(mapping, complete, next.groups);
    var keys := MigrateKeys(mapping, complete, next.keys);
    var credentials, changedCredentials, order' := MigrateInventory(mapping, complete, next.credentials);
    order := order';
    changes := NO_CHANGES.(keys := keys, routes := changedRoutes, groups := changedGroups, credentials := changedCredentials);
    next := next.(routes := routes, groups := groups, credentials := credentials);
    assert store.Memory() == was;
    ghost var now := SnapshotOf(next);
    assert now == Replaced(mapping, complete, order, was);
    EditIsCovered(was, now, changes);
  }

  lemma AcceptableHasNoChains(mapping: Mapping)
    requires Acceptable(mapping)
    ensures NoChains(mapping)
  {
    hide ValidFingerprint, Lower;
    assert forall o :: o in mapping ==> GoodPair(mapping, o);
  }

  /** The announcement names exactly what the migration changed. */
  lemma EditIsCovered(was: Snapshot, now: Snapshot, c: Changes)
    requires now.plans == was.plans && now.access == was.access
    requires c == NO_CHANGES.(keys := c.keys, routes := now.routes != was.routes, groups := now.groups != was.groups,
                              credentials := now.credentials != was.credentials)
    requires Reports(c.keys, was.keys, now.keys, {})
    ensures Covers(was, now, c)
    ensures c == NO_CHANGES <==> was == now
  {
    if c.keys == [] {
      assert was.keys == now.keys;
    } else {
      assert c.keys[0] in c.keys;
    }
  }
}
