/**
  Normalizing what operators enter, internal/billing/routing.go: models, credential
  references and categories of a rule, its allow and deny sides apart.
 */
module AccessRules {
  import opened Text
  import opened Model
  import opened Routing
  import opened CredentialMigration

  const AUTH_FILES := "auth-files"
  const AI_PROVIDERS := "ai-providers"

  // ----- Lists of names ---------------------------------------------------------------

  predicate Usable(value: string) {
    value != "" && |value| <= MAX_VALUE_BYTES
  }

  /** The first n entries trimmed, without repeats in any spelling. */
  function NamesTo(values: seq<string>, n: nat): Result<seq<string>>
    requires n <= |values|
  {
    if n == 0 then Ok([]) else
    match NamesTo(values, n - 1)
    case Err(reason) => Err(reason)
    case Ok(out) =>
      var value := Trim(values[n - 1]);
      if !Usable(value) then Err("Invalid routing option")
      else if Contains(out, value) then Ok(out)
      else Ok(out + [value])
  }

  function Names(values: seq<string>): Result<seq<string>> {
    NamesTo(values, |values|)
  }

  /** normalizeRouteStrings. */
  method NormalizeNames(values: seq<string>) returns (r: Result<seq<string>>)
    ensures r == Names(values)
  {
    hide Trim, Lower;
    var out, seen := [], {};
    for i := 0 to |values|
      invariant NamesTo(values, i) == Ok(out)
      invariant forall value :: Lower(value) in seen <==> Contains(out, value)
    {
      var value := Trim(values[i]);
      if !Usable(value) {
        NamesStayFailed(values, i + 1);
        return Err("Invalid routing option");
      }
      if Lower(value) in seen { continue; }
      SpellingsSeen(out, value);
      seen := seen + {Lower(value)};
      out := out + [value];
    }
    return Ok(out);
  }

  lemma {:induction false} NamesStayFailed(values: seq<string>, n: nat)
    requires n <= |values| && NamesTo(values, n).Err?
    ensures Names(values) == Err("Invalid routing option")
    decreases |values| - n
  {
    if n < |values| { NamesStayFailed(values, n + 1); } else { FailureIsInvalid(values, n); }
  }

  lemma {:induction false} FailureIsInvalid(values: seq<string>, n: nat)
    requires n <= |values| && NamesTo(values, n).Err?
    ensures NamesTo(values, n) == Err("Invalid routing option")
  {
    if n > 0 && NamesTo(values, n - 1).Err? { FailureIsInvalid(values, n - 1); }
  }

  lemma SpellingsSeen(out: seq<string>, value: string)
    ensures forall v :: Contains(out + [value], v) <==> Contains(out, v) || EqualFold(value, v)
  {
    hide Lower;
    var more := out + [value];
    forall v
      ensures Contains(more, v) <==> Contains(out, v) || EqualFold(value, v)
    {
      assert more[|out|] == value && forall i :: 0 <= i < |out| ==> more[i] == out[i];
    }
  }

  /** Trimmed, usable, and no name twice in any spelling. */
  ghost predicate NormalNames(values: seq<string>) {
    && (forall i :: 0 <= i < |values| ==> Usable(values[i]) && Trim(values[i]) == values[i])
    && forall i, j :: 0 <= i < j < |values| ==> !EqualFold(values[i], values[j])
  }

  ghost predicate Mentions(values: seq<string>, n: nat, value: string)
    requires n <= |values|
  {
    exists i :: 0 <= i < n && EqualFold(Trim(values[i]), value)
  }

  /** Nothing is lost or made up: the list matches exactly the names that were entered. */
  lemma {:induction false} NamesMean(values: seq<string>, n: nat)
    requires n <= |values|
    ensures NamesTo(values, n).Err? <==> exists i :: 0 <= i < n && !Usable(Trim(values[i]))
    ensures NamesTo(values, n).Ok? ==>
              NormalNames(NamesTo(values, n).value) && forall v :: Contains(NamesTo(values, n).value, v) <==> Mentions(values, n, v)
  {
    hide Trim, Lower;
    if n > 0 {
      NamesMean(values, n - 1);
      if NamesTo(values, n).Ok? {
        var out, value := NamesTo(values, n - 1).value, Trim(values[n - 1]);
        TrimIdempotent(values[n - 1]);
        SpellingsSeen(out, value);
        assert forall v :: Mentions(values, n, v) <==> Mentions(values, n - 1, v) || EqualFold(value, v);
      }
    }
  }

  /** Normalizing again changes nothing. */
  lemma {:induction false} NormalNamesStay(values: seq<string>, n: nat)
    requires NormalNames(values) && n <= |values|
    ensures NamesTo(values, n) == Ok(values[..n])
  {
    hide Trim, Lower;
    if n > 0 {
      NormalNamesStay(values, n - 1);
      assert values[..n] == values[..n - 1] + [values[n - 1]];
      assert !Contains(values[..n - 1], values[n - 1]);
    }
  }

  // ----- Credential references --------------------------------------------------------

  function LowerAll(values: seq<string>): (r: seq<string>)
    ensures |r| == |values| && forall i :: 0 <= i < |r| ==> r[i] == Lower(values[i])
  {
    seq(|values|, i requires 0 <= i < |values| => Lower(values[i]))
  }

  predicate AllFingerprints(values: seq<string>) {
    forall i :: 0 <= i < |values| ==> ValidFingerprint(values[i])
  }

  function References(values: seq<string>): Result<seq<string>> {
    match Names(values)
    case Err(reason) => Err(reason)
    case Ok(names) => if AllFingerprints(names) then Ok(LowerAll(names)) else Err("Invalid upstream credential reference")
  }

  ghost predicate NormalReferences(values: seq<string>) {
    && NormalNames(values)
    && forall i :: 0 <= i < |values| ==> ValidFingerprint(values[i]) && Lower(values[i]) == values[i]
  }

  lemma LowerFingerprint(value: string)
    requires ValidFingerprint(value)
    ensures ValidFingerprint(Lower(value)) && Usable(Lower(value)) && Trim(Lower(value)) == Lower(value)
  {
    var low := Lower(value);
    assert forall i :: 0 <= i < |FINGERPRINT_PREFIX| ==> FINGERPRINT_PREFIX[i] == value[i];
    assert forall i :: 0 <= i < |FINGERPRINT_PREFIX| ==> low[i] == FINGERPRINT_PREFIX[i];
    assert HexDigit(value[|value| - 1]) && low[0] == 's';
    TrimTrimmed(low);
  }

  lemma ReferencesMean(values: seq<string>)
    ensures References(values).Ok? ==> NormalReferences(References(values).value)
    ensures References(values).Ok? ==> forall v :: Contains(References(values).value, v) <==> Mentions(values, |values|, v)
    ensures NormalReferences(values) ==> References(values) == Ok(values)
  {
    hide Trim, Lower, ValidFingerprint;
    NamesMean(values, |values|);
    if References(values).Ok? {
      var names := Names(values).value;
      forall i | 0 <= i < |names|
        ensures ValidFingerprint(Lower(names[i])) && Usable(Lower(names[i])) && Trim(Lower(names[i])) == Lower(names[i])
        ensures Lower(Lower(names[i])) == Lower(names[i])
      {
        LowerFingerprint(names[i]);
        LowerIdempotent(names[i]);
      }
    }
    if NormalReferences(values) {
      NormalNamesStay(values, |values|);
      assert values[..|values|] == values && LowerAll(values) == values;
    }
  }

  // ----- Credential categories --------------------------------------------------------

  predicate ForbiddenInProvider(c: char) {
    c == '*' || c == '[' || c == ']' || c == '\0'
  }

  predicate GoodCategory(item: Selector) {
    && (item.source == AUTH_FILES || item.source == AI_PROVIDERS)
    && Usable(item.provider) && forall i :: 0 <= i < |item.provider| ==> !ForbiddenInProvider(item.provider[i])
  }

  function CategoriesTo(values: seq<Selector>, n: nat): Result<seq<Selector>>
    requires n <= |values|
  {
    if n == 0 then Ok([]) else
    match CategoriesTo(values, n - 1)
    case Err(reason) => Err(reason)
    case Ok(out) =>
      var item := Described(values[n - 1].source, values[n - 1].provider);
      if !GoodCategory(item) then Err("Invalid credential category")
      else if item in out then Ok(out)
      else Ok(out + [item])
  }

  ghost predicate NormalCategories(values: seq<Selector>) {
    && (forall i :: 0 <= i < |values| ==> GoodCategory(values[i]) && Described(values[i].source, values[i].provider) == values[i])
    && forall i, j :: 0 <= i < j < |values| ==> values[i] != values[j]
  }

  lemma {:induction false} DescribedTwice(source: string, provider: string)
    ensures var d := Described(source, provider); Described(d.source, d.provider) == d
  {
    LowerTrimTwice(source);
    LowerTrimTwice(provider);
  }

  lemma LowerTrimTwice(s: string)
    ensures Lower(Trim(Lower(Trim(s)))) == Lower(Trim(s))
  {
    hide Trim;
    TrimIsTrimmed(s);
    TrimTrimmed(Lower(Trim(s)));
    LowerIdempotent(Trim(s));
  }

  lemma {:induction false} CategoriesMean(values: seq<Selector>, n: nat)
    requires n <= |values|
    ensures CategoriesTo(values, n).Ok? ==>
              && NormalCategories(CategoriesTo(values, n).value)
              && forall p :: p in CategoriesTo(values, n).value <==>
                             exists i :: 0 <= i < n && Described(values[i].source, values[i].provider) == p
  {
    hide Described, GoodCategory;
    if n > 0 {
      CategoriesMean(values, n - 1);
      DescribedTwice(values[n - 1].source, values[n - 1].provider);
    }
  }

  lemma {:induction false} NormalCategoriesStay(values: seq<Selector>, n: nat)
    requires n <= |values| && NormalCategories(values)
    ensures CategoriesTo(values, n) == Ok(values[..n])
  {
    hide Described, GoodCategory;
    if n > 0 {
      NormalCategoriesStay(values, n - 1);
      assert values[..n] == values[..n - 1] + [values[n - 1]];
    }
  }

  // ----- Rules ------------------------------------------------------------------------

  predicate Overlap(allow: seq<string>, deny: seq<string>) {
    exists i :: 0 <= i < |deny| && Contains(allow, deny[i])
  }

  predicate Share(allow: seq<Selector>, deny: seq<Selector>) {
    exists i :: 0 <= i < |deny| && deny[i] in allow
  }

  /** No item is both allowed and denied within one rule. */
  predicate OneStateEach(rule: RouteRule) {
    && !Overlap(rule.models, rule.deniedModels)
    && !Overlap(rule.ids, rule.deniedIds)
    && !Share(rule.providers, rule.deniedProviders)
  }

  function NormalizedRule(rule: RouteRule): Result<RouteRule> {
    var models, deniedModels := Names(rule.models), Names(rule.deniedModels);
    var ids, deniedIds := References(rule.ids), References(rule.deniedIds);
    var providers, deniedProviders := CategoriesTo(rule.providers, |rule.providers|), CategoriesTo(rule.deniedProviders, |rule.deniedProviders|);
    if models.Err? || deniedModels.Err? || ids.Err? || deniedIds.Err? || providers.Err? || deniedProviders.Err? then
      Err("Invalid routing rule")
    else
      var made := RouteRule(models.value, ids.value, providers.value, deniedModels.value, deniedIds.value, deniedProviders.value);
      if OneStateEach(made) then Ok(made) else Err("An item cannot be both allowed and denied")
  }

  ghost predicate NormalRule(rule: RouteRule) {
    && NormalNames(rule.models) && NormalNames(rule.deniedModels)
    && NormalReferences(rule.ids) && NormalReferences(rule.deniedIds)
    && NormalCategories(rule.providers) && NormalCategories(rule.deniedProviders)
    && OneStateEach(rule)
  }

  /** The normal rules are exactly those normalizing accepts as they are, and it makes no others. */
  lemma NormalizingRules(rule: RouteRule)
    ensures NormalRule(rule) <==> NormalizedRule(rule) == Ok(rule)
    ensures NormalizedRule(rule).Ok? ==> NormalRule(NormalizedRule(rule).value)
  {
    hide NormalNames, NormalReferences, NormalCategories, References, CategoriesTo, NamesTo;
    NormalLists(rule.models, rule.ids, rule.providers);
    NormalLists(rule.deniedModels, rule.deniedIds, rule.deniedProviders);
  }

  lemma NormalLists(names: seq<string>, ids: seq<string>, providers: seq<Selector>)
    ensures Names(names).Ok? ==> NormalNames(Names(names).value)
    ensures NormalNames(names) ==> Names(names) == Ok(names)
    ensures References(ids).Ok? ==> NormalReferences(References(ids).value)
    ensures NormalReferences(ids) ==> References(ids) == Ok(ids)
    ensures var r := CategoriesTo(providers, |providers|);
            (r.Ok? ==> NormalCategories(r.value)) && (NormalCategories(providers) ==> r == Ok(providers))
  {
    hide NormalReferences, NormalCategories, References, CategoriesTo, NamesTo;
    NamesMean(names, |names|);
    if NormalNames(names) { NormalNamesStay(names, |names|); }
    ReferencesMean(ids);
    CategoriesMean(providers, |providers|);
    if NormalCategories(providers) { NormalCategoriesStay(providers, |providers|); }
    assert names[..|names|] == names && providers[..|providers|] == providers;
  }

  // ----- Normal rules under credential replacement ------------------------------------

  /** The credential that stands for a reference once a replacement is over. */
  function Destination(mapping: Mapping, ref: string): string {
    if ref in mapping then mapping[ref] else ref
  }

  /** An allowed and a denied credential with one destination: replaced alike, or one replaced by the other. */
  predicate Meets(mapping: Mapping, rule: RouteRule) {
    exists a, d :: a in rule.ids && d in rule.deniedIds && Destination(mapping, a) == Destination(mapping, d)
  }

  /** Preparing and completing alike bring an allowed and a denied reference together exactly when the rule has such a pair. */
  lemma MovedMeet(mapping: Mapping, complete: bool, rule: RouteRule)
    requires Acceptable(mapping)
    ensures !(Moved(mapping, complete, set v | v in rule.ids) !! Moved(mapping, complete, set v | v in rule.deniedIds)) <==>
            Meets(mapping, rule)
  {
    hide ValidFingerprint, Lower;
    var ids, denied := set v | v in rule.ids, set v | v in rule.deniedIds;
    var allow, deny := Moved(mapping, complete, ids), Moved(mapping, complete, denied);
    if a, d :| a in ids && d in denied && Destination(mapping, a) == Destination(mapping, d) {
      DestinationIsMoved(mapping, complete, ids, a);
      DestinationIsMoved(mapping, complete, denied, d);
      assert a in rule.ids && d in rule.deniedIds;
    }
    if x :| x in allow && x in deny {
      var a := MovedFrom(mapping, complete, ids, x);
      var d := MovedFrom(mapping, complete, denied, x);
      if x in mapping {
        assert x in ids && x in denied;
        assert x in rule.ids && x in rule.deniedIds;
      } else {
        assert a in rule.ids && d in rule.deniedIds;
      }
    }
  }

  lemma DestinationIsMoved(mapping: Mapping, complete: bool, refs: set<string>, ref: string)
    requires Acceptable(mapping) && ref in refs
    ensures Destination(mapping, ref) in Moved(mapping, complete, refs)
  {
    hide ValidFingerprint, Lower;
    assert ref in mapping ==> GoodPair(mapping, ref);
  }

  lemma MovedFrom(mapping: Mapping, complete: bool, refs: set<string>, x: string) returns (ref: string)
    requires Acceptable(mapping) && x in Moved(mapping, complete, refs)
    ensures ref in refs && (if x in mapping then ref == x else Destination(mapping, ref) == x)
  {
    hide ValidFingerprint, Lower;
    if x in refs {
      ref := x;
    } else {
      ref :| ref in refs && ref in mapping && mapping[ref] == x;
      assert GoodPair(mapping, ref);
    }
  }

  lemma {:induction false} AddedStaysDistinct(mapping: Mapping, values: seq<string>, n: nat)
    requires n <= |values| && Distinct(values)
    ensures Distinct(AddedTo(mapping, values, n))
  {
    if n > 0 { AddedStaysDistinct(mapping, values, n - 1); }
  }

  lemma {:induction false} WithoutStaysDistinct(mapping: Mapping, values: seq<string>)
    requires Distinct(values)
    ensures Distinct(Without(mapping, values))
  {
    if values != [] {
      WithoutStaysDistinct(mapping, values[..|values| - 1]);
      assert forall i :: 0 <= i < |values| - 1 ==> values[i] != values[|values| - 1];
    }
  }

  lemma LowerReferencesAreNormal(values: seq<string>)
    requires Distinct(values) && forall v :: v in values ==> ValidFingerprint(v) && Lower(v) == v
    ensures NormalReferences(values)
  {
    hide Lower, Trim, ValidFingerprint;
    forall i | 0 <= i < |values|
      ensures ValidFingerprint(values[i]) && Lower(values[i]) == values[i] && Usable(values[i]) && Trim(values[i]) == values[i]
    {
      assert values[i] in values;
      LowerFingerprint(values[i]);
    }
  }

  lemma MigratedStayNormal(mapping: Mapping, complete: bool, values: seq<string>)
    requires Acceptable(mapping) && NormalReferences(values)
    ensures NormalReferences(Migrated(mapping, complete, values))
  {
    hide Lower, Trim, ValidFingerprint, AddedTo, Without;
    MigratedElements(mapping, complete, values);
    var out := Migrated(mapping, complete, values);
    AddedStaysDistinct(mapping, values, |values|);
    WithoutStaysDistinct(mapping, AddedTo(mapping, values, |values|));
    forall v | v in out
      ensures ValidFingerprint(v) && Lower(v) == v
    {
      if v !in values {
        var o :| o in mapping && mapping[o] == v;
        assert GoodPair(mapping, o);
      }
    }
    LowerReferencesAreNormal(out);
  }

  lemma LowerContains(values: seq<string>, value: string)
    requires NormalReferences(values) && Lower(value) == value
    ensures Contains(values, value) <==> value in values
  {
    hide Lower, Trim, ValidFingerprint;
  }

  /** Within normal lists of references, overlapping is having an entry in common. */
  lemma OverlapIsCommon(allow: seq<string>, deny: seq<string>)
    requires NormalReferences(allow) && NormalReferences(deny)
    ensures Overlap(allow, deny) <==> exists x :: x in allow && x in deny
  {
    hide Contains, Lower, Trim, ValidFingerprint;
    forall i | 0 <= i < |deny|
      ensures Contains(allow, deny[i]) <==> deny[i] in allow
    {
      LowerContains(allow, deny[i]);
    }
    if x :| x in allow && x in deny {
      var i :| 0 <= i < |deny| && deny[i] == x;
    }
  }

  /** A replacement keeps a rule normal exactly when no allowed and denied credential have one destination. */
  lemma MigrationKeepsNormal(mapping: Mapping, complete: bool, rule: RouteRule)
    requires Acceptable(mapping) && NormalRule(rule)
    ensures NormalRule(MigratedRule(mapping, complete, rule)) <==> !Meets(mapping, rule)
  {
    hide Migrated, NormalNames, NormalReferences, NormalCategories, Acceptable, Overlap, Share, Meets;
    var done := MigratedRule(mapping, complete, rule);
    MigratedStayNormal(mapping, complete, rule.ids);
    MigratedStayNormal(mapping, complete, rule.deniedIds);
    MigratedElements(mapping, complete, rule.ids);
    MigratedElements(mapping, complete, rule.deniedIds);
    OverlapIsCommon(done.ids, done.deniedIds);
    var allow, deny := Moved(mapping, complete, set v | v in rule.ids), Moved(mapping, complete, set v | v in rule.deniedIds);
    assert forall x :: (x in done.ids <==> x in allow) && (x in done.deniedIds <==> x in deny);
    assert !(allow !! deny) <==> exists x :: x in allow && x in deny;
    MovedMeet(mapping, complete, rule);
  }

  /** It can: where one of two credentials with the same replacement is allowed and the other denied. */
  lemma MergingCanConflict(a: string, b: string, next: string, complete: bool)
    requires Acceptable(map[a := next, b := next]) && a != b
    ensures var rule := EMPTY_RULE.(ids := [a], deniedIds := [b]);
            NormalRule(rule) && NormalizedRule(MigratedRule(map[a := next, b := next], complete, rule)).Err?
  {
    hide Migrated, NormalReferences, Trim, Lower, ValidFingerprint;
    var mapping := map[a := next, b := next];
    var rule := EMPTY_RULE.(ids := [a], deniedIds := [b]);
    assert GoodPair(mapping, a) && GoodPair(mapping, b);
    LowerReferencesAreNormal([a]);
    LowerReferencesAreNormal([b]);
    LowerReferencesAreNormal([]);
    OverlapIsCommon([a], [b]);
    MigrationKeepsNormal(mapping, complete, rule);
    assert a in rule.ids && b in rule.deniedIds && Destination(mapping, a) == Destination(mapping, b);
    var done := MigratedRule(mapping, complete, rule);
    MigratedStayNormal(mapping, complete, rule.ids);
    MigratedStayNormal(mapping, complete, rule.deniedIds);
    NormalizingRules(done);
    ReferencesMean(done.ids);
    ReferencesMean(done.deniedIds);
  }
}
