/**
  What access rules mean, said of what operators enter and hosts report: which lists and
  rules internal/billing/routing.go accepts, what it stores of them, and which candidate of a
  request a rule lets pass.
 */
module RuleMeaning {
  import opened Text
  import opened Model
  import opened Routing
  import opened CredentialMigration
  import opened AccessRules

  // ----- Fingerprints -----------------------------------------------------------------

  const LOWER_HEX := "0123456789abcdef"
  const ANY_HEX := "0123456789abcdefABCDEF"

  function Fingerprint(hex: string): string {
    "sha256:" + hex
  }

  predicate Hex(hex: string, digits: string) {
    |hex| == 64 && forall i :: 0 <= i < |hex| ==> hex[i] in digits
  }

  /** The hash of a credential, written in digits of either case. */
  ghost predicate IsFingerprint(ref: string) {
    exists hex :: ref == Fingerprint(hex) && Hex(hex, ANY_HEX)
  }

  ghost predicate IsLowerFingerprint(ref: string) {
    exists hex :: ref == Fingerprint(hex) && Hex(hex, LOWER_HEX)
  }

  lemma HexMeans(c: char)
    ensures HexDigit(c) <==> c in ANY_HEX
    ensures c in LOWER_HEX <==> HexDigit(c) && LowerChar(c) == c
  {
    if '0' <= c <= '9' {
      assert LOWER_HEX[c as int - 48] == c && ANY_HEX[c as int - 48] == c;
    } else if 'a' <= c <= 'f' {
      assert LOWER_HEX[c as int - 87] == c && ANY_HEX[c as int - 87] == c;
    } else if 'A' <= c <= 'F' {
      assert ANY_HEX[c as int - 49] == c;
    }
  }

  lemma FingerprintMeans(ref: string)
    ensures ValidFingerprint(ref) <==> IsFingerprint(ref)
  {
    if ValidFingerprint(ref) {
      var hex := ref[7..];
      forall i | 0 <= i < |hex|
        ensures hex[i] in ANY_HEX
      {
        HexMeans(ref[7 + i]);
      }
      assert ref == Fingerprint(hex);
    }
    if hex :| ref == Fingerprint(hex) && Hex(hex, ANY_HEX) {
      forall i | 7 <= i < |ref|
        ensures HexDigit(ref[i])
      {
        assert ref[i] == hex[i - 7];
        HexMeans(hex[i - 7]);
      }
    }
  }

  lemma LowerFingerprintMeans(ref: string)
    ensures ValidFingerprint(ref) && Lower(ref) == ref <==> IsLowerFingerprint(ref)
  {
    FingerprintMeans(ref);
    if ValidFingerprint(ref) && Lower(ref) == ref {
      var hex :| ref == Fingerprint(hex) && Hex(hex, ANY_HEX);
      forall i | 0 <= i < |hex|
        ensures hex[i] in LOWER_HEX
      {
        HexMeans(hex[i]);
        assert ref[7 + i] == hex[i] && Lower(ref)[7 + i] == LowerChar(ref[7 + i]);
      }
      assert Hex(hex, LOWER_HEX);
    }
    if hex :| ref == Fingerprint(hex) && Hex(hex, LOWER_HEX) {
      forall i | 0 <= i < |hex|
        ensures hex[i] in ANY_HEX && LowerChar(hex[i]) == hex[i]
      {
        HexMeans(hex[i]);
      }
      assert Hex(hex, ANY_HEX);
      assert forall i :: 0 <= i < 7 ==> LowerChar(ref[i]) == ref[i];
      assert Lower(ref) == ref;
    }
  }

  /** A mapping of replacements is accepted exactly when it has at most 32, between different lower-case fingerprints, and none replaces a replacement. */
  lemma AcceptableMeans(mapping: Mapping)
    ensures Acceptable(mapping) <==>
            && |mapping| <= 32
            && forall o :: o in mapping ==>
                             && IsLowerFingerprint(o) && IsLowerFingerprint(mapping[o])
                             && o != mapping[o] && mapping[o] !in mapping
  {
    hide ValidFingerprint, Lower, IsLowerFingerprint;
    forall o | o in mapping
      ensures GoodPair(mapping, o) <==>
              IsLowerFingerprint(o) && IsLowerFingerprint(mapping[o]) && o != mapping[o] && mapping[o] !in mapping
    {
      LowerFingerprintMeans(o);
      LowerFingerprintMeans(mapping[o]);
    }
  }

  // ----- What operators may enter -----------------------------------------------------

  /** Not blank, and at most 512 characters once trimmed. */
  predicate Enterable(name: string) {
    Trim(name) != "" && |Trim(name)| <= 512
  }

  predicate Categorical(item: Selector) {
    && Lower(Trim(item.source)) in ["auth-files", "ai-providers"]
    && Enterable(item.provider) && forall i :: 0 <= i < |Trim(item.provider)| ==> Trim(item.provider)[i] !in "*[]\0"
  }

  /** The same name in any case, once the entry is trimmed. */
  predicate Names'(entry: string, name: string) {
    Lower(Trim(entry)) == Lower(name)
  }

  /** The same category in any case, once both of its parts are trimmed. */
  predicate Categorizes(entry: Selector, item: Selector) {
    Lower(Trim(entry.source)) == item.source && Lower(Trim(entry.provider)) == item.provider
  }

  lemma EnteredNames(values: seq<string>)
    ensures Names(values).Ok? <==> forall i :: 0 <= i < |values| ==> Enterable(values[i])
    ensures Names(values).Ok? ==>
              forall v :: Contains(Names(values).value, v) <==> exists i :: 0 <= i < |values| && Names'(values[i], v)
  {
    hide Trim, Lower, NamesTo, Contains;
    NamesMean(values, |values|);
    if Names(values).Ok? {
      forall v
        ensures Mentions(values, |values|, v) <==> exists i :: 0 <= i < |values| && Names'(values[i], v)
      {
        if i :| 0 <= i < |values| && Names'(values[i], v) { assert EqualFold(Trim(values[i]), v); }
      }
    }
  }

  /** No earlier entry is the same name in another spelling. */
  ghost predicate First(values: seq<string>, i: nat)
    requires i < |values|
  {
    forall j :: 0 <= j < i ==> !Names'(values[j], Trim(values[i]))
  }

  /** Of each name the first spelling is kept. */
  lemma {:induction false} FirstsAreKept(values: seq<string>, n: nat)
    requires n <= |values| && NamesTo(values, n).Ok?
    ensures forall v :: v in NamesTo(values, n).value <==> exists i :: 0 <= i < n && First(values, i) && Trim(values[i]) == v
  {
    hide Trim, Lower, Contains;
    if n > 0 {
      FirstsAreKept(values, n - 1);
      NamesMean(values, n - 1);
      var out, value := NamesTo(values, n - 1).value, Trim(values[n - 1]);
      assert First(values, n - 1) <==> !Contains(out, value) by {
        if !First(values, n - 1) {
          var j :| 0 <= j < n - 1 && Names'(values[j], value);
          assert EqualFold(Trim(values[j]), value);
        }
        if Contains(out, value) {
          assert Mentions(values, n - 1, value);
          var j :| 0 <= j < n - 1 && EqualFold(Trim(values[j]), value);
          assert Names'(values[j], value);
        }
      }
    }
  }

  /**
    A list of credentials is accepted exactly when every entry is a name and of each name the
    first spelling is a fingerprint; it then lists exactly what was entered.
   */
  lemma EnteredReferences(values: seq<string>)
    ensures References(values).Ok? <==>
            && (forall i :: 0 <= i < |values| ==> Enterable(values[i]))
            && forall i :: 0 <= i < |values| && First(values, i) ==> IsFingerprint(Trim(values[i]))
    ensures References(values).Ok? ==>
              forall v :: Contains(References(values).value, v) <==> exists i :: 0 <= i < |values| && Names'(values[i], v)
  {
    hide Trim, Lower, NamesTo, Contains, ValidFingerprint, First;
    EnteredNames(values);
    if Names(values).Ok? {
      var names := Names(values).value;
      FirstsAreKept(values, |values|);
      forall i | 0 <= i < |values|
        ensures IsFingerprint(Trim(values[i])) <==> ValidFingerprint(Trim(values[i]))
      {
        FingerprintMeans(Trim(values[i]));
      }
      KeptAreFingerprints(values, names);
    }
    if References(values).Ok? {
      ReferencesMean(values);
      forall v
        ensures Contains(References(values).value, v) <==> exists i :: 0 <= i < |values| && Names'(values[i], v)
      {
        MentionsNames(values, v);
      }
    }
  }

  lemma MentionsNames(values: seq<string>, v: string)
    ensures Mentions(values, |values|, v) <==> exists i :: 0 <= i < |values| && Names'(values[i], v)
  {
    hide Trim, Lower;
    if i :| 0 <= i < |values| && Names'(values[i], v) { assert EqualFold(Trim(values[i]), v); }
    if i :| 0 <= i < |values| && EqualFold(Trim(values[i]), v) { assert Names'(values[i], v); }
  }

  lemma KeptAreFingerprints(values: seq<string>, names: seq<string>)
    requires forall v :: v in names <==> exists i :: 0 <= i < |values| && First(values, i) && Trim(values[i]) == v
    ensures AllFingerprints(names) <==> forall i :: 0 <= i < |values| && First(values, i) ==> ValidFingerprint(Trim(values[i]))
  {
    hide Trim, ValidFingerprint, First;
    if AllFingerprints(names) {
      forall i | 0 <= i < |values| && First(values, i)
        ensures ValidFingerprint(Trim(values[i]))
      {
        assert Trim(values[i]) in names;
      }
    } else {
      var k :| 0 <= k < |names| && !ValidFingerprint(names[k]);
      assert names[k] in names;
    }
  }

  /**
    So the order of entries can decide: after its fingerprint, the same name with the scheme
    in capitals counts as a repetition; before it, the list is refused.
   */
  lemma CapitalsDependOnOrder(hex: string)
    requires Hex(hex, LOWER_HEX)
    ensures References([Fingerprint(hex), "SHA256:" + hex]) == Ok([Fingerprint(hex)])
    ensures References(["SHA256:" + hex, Fingerprint(hex)]).Err?
  {
    var f, g := Fingerprint(hex), "SHA256:" + hex;
    hide Lower, Trim, ValidFingerprint;
    assert IsLowerFingerprint(f);
    LowerFingerprintMeans(f);
    LowerFingerprint(f);
    CapitalsFold(hex);
    CapitalsAreRepeated(f, g);
  }

  lemma CapitalsFold(hex: string)
    requires Hex(hex, LOWER_HEX) && Lower(Fingerprint(hex)) == Fingerprint(hex)
    ensures var g := "SHA256:" + hex; Lower(g) == Fingerprint(hex) && Trim(g) == g && g[0] == 'S' && |g| == 71
  {
    var f, g := Fingerprint(hex), "SHA256:" + hex;
    assert forall i :: 7 <= i < 71 ==> g[i] == f[i] && LowerChar(f[i]) == Lower(f)[i] == f[i];
    assert LowerChar('S') == 's' && LowerChar('H') == 'h' && LowerChar('A') == 'a';
    HexMeans(hex[63]);
    assert g[70] == hex[63];
    TrimTrimmed(g);
  }

  lemma CapitalsAreRepeated(f: string, g: string)
    requires Lower(f) == f == Lower(g) && Trim(f) == f && Trim(g) == g && ValidFingerprint(f) && g[0] == 'S' && |g| == 71
    ensures References([f, g]) == Ok([f]) && References([g, f]).Err?
  {
    hide Trim, Lower;
    assert !ValidFingerprint(g) by { assert FINGERPRINT_PREFIX[0] == 's'; }
    KeptOnce(f, g);
    KeptOnce(g, f);
    assert LowerAll([f]) == [f] && [g][0] == g;
  }

  lemma KeptOnce(a: string, b: string)
    requires Trim(a) == a && Trim(b) == b && EqualFold(a, b) && |a| == |b| == 71
    ensures Names([a, b]) == Ok([a])
  {
    hide Trim, Lower;
    assert NamesTo([a, b], 0) == Ok([]);
    assert [a, b][0] == a && [a, b][1] == b && [] + [a] == [a];
    assert NamesTo([a, b], 1) == Ok([a]);
    assert EqualFold([a][0], b) && Contains([a], b);
  }

  // ----- Categories -------------------------------------------------------------------

  lemma CategoryMeans(item: Selector)
    ensures GoodCategory(Described(item.source, item.provider)) <==> Categorical(item)
  {
    hide Trim;
    var p := Trim(item.provider);
    assert Lower(p) == "" <==> p == "";
    forall i | 0 <= i < |p|
      ensures ForbiddenInProvider(Lower(p)[i]) <==> p[i] in "*[]\0"
    {
      ForbiddenMeans(p[i]);
    }
  }

  lemma ForbiddenMeans(c: char)
    ensures ForbiddenInProvider(LowerChar(c)) <==> c in "*[]\0"
  {
    var f := "*[]\0";
    assert f[0] == '*' && f[1] == '[' && f[2] == ']' && f[3] == '\0';
  }

  /** A list of categories is accepted exactly when each of them is one; it then lists exactly what was entered. */
  lemma {:induction false} EnteredCategories(values: seq<Selector>, n: nat)
    requires n <= |values|
    ensures CategoriesTo(values, n).Ok? <==> forall i :: 0 <= i < n ==> Categorical(values[i])
    ensures CategoriesTo(values, n).Ok? ==>
              forall p :: p in CategoriesTo(values, n).value <==> exists i :: 0 <= i < n && Categorizes(values[i], p)
  {
    hide Trim, Lower, Categorical, GoodCategory;
    if n > 0 {
      EnteredCategories(values, n - 1);
      CategoryMeans(values[n - 1]);
    }
  }

  // ----- Whole rules ------------------------------------------------------------------

  ghost predicate EnterableRule(rule: RouteRule) {
    && (forall i :: 0 <= i < |rule.models| ==> Enterable(rule.models[i]))
    && (forall i :: 0 <= i < |rule.deniedModels| ==> Enterable(rule.deniedModels[i]))
    && References(rule.ids).Ok? && References(rule.deniedIds).Ok?
    && (forall i :: 0 <= i < |rule.providers| ==> Categorical(rule.providers[i]))
    && (forall i :: 0 <= i < |rule.deniedProviders| ==> Categorical(rule.deniedProviders[i]))
  }

  /** Two lists of names have one in common, in whatever spelling. */
  ghost predicate NamedTwice(a: seq<string>, b: seq<string>) {
    exists i, j :: 0 <= i < |a| && 0 <= j < |b| && Lower(Trim(a[i])) == Lower(Trim(b[j]))
  }

  ghost predicate CategorizedTwice(a: seq<Selector>, b: seq<Selector>) {
    exists i, j :: 0 <= i < |a| && 0 <= j < |b| && Alike(a[i], b[j])
  }

  predicate Alike(a: Selector, b: Selector) {
    Lower(Trim(a.source)) == Lower(Trim(b.source)) && Lower(Trim(a.provider)) == Lower(Trim(b.provider))
  }

  /** The stored rule lists exactly what the entered one did, in each of its six lists. */
  ghost predicate ListsWhat(stored: RouteRule, entered: RouteRule) {
    && NamesWhat(stored.models, entered.models) && NamesWhat(stored.deniedModels, entered.deniedModels)
    && NamesWhat(stored.ids, entered.ids) && NamesWhat(stored.deniedIds, entered.deniedIds)
    && CategorizesWhat(stored.providers, entered.providers) && CategorizesWhat(stored.deniedProviders, entered.deniedProviders)
  }

  ghost predicate NamesWhat(stored: seq<string>, entered: seq<string>) {
    forall v :: Contains(stored, v) <==> exists i :: 0 <= i < |entered| && Names'(entered[i], v)
  }

  ghost predicate CategorizesWhat(stored: seq<Selector>, entered: seq<Selector>) {
    forall p :: p in stored <==> exists i :: 0 <= i < |entered| && Categorizes(entered[i], p)
  }

  /**
    A rule is accepted exactly when each of its lists is and nothing is both allowed and
    denied, however it is written; it is stored with the same models, credentials and
    categories on the same sides.
   */
  lemma RuleMeans(rule: RouteRule)
    ensures NormalizedRule(rule).Ok? <==>
            && EnterableRule(rule)
            && !NamedTwice(rule.models, rule.deniedModels) && !NamedTwice(rule.ids, rule.deniedIds)
            && !CategorizedTwice(rule.providers, rule.deniedProviders)
    ensures NormalizedRule(rule).Ok? ==> ListsWhat(NormalizedRule(rule).value, rule)
  {
    hide NamesTo, References, CategoriesTo, Enterable, Categorical, NamedTwice, CategorizedTwice, NamesWhat, CategorizesWhat, Overlap, Share;
    ListsMean(rule.models, rule.ids, rule.providers);
    ListsMean(rule.deniedModels, rule.deniedIds, rule.deniedProviders);
    if EnterableRule(rule) {
      OverlapMeans(Names(rule.models).value, rule.models, Names(rule.deniedModels).value, rule.deniedModels);
      OverlapMeans(References(rule.ids).value, rule.ids, References(rule.deniedIds).value, rule.deniedIds);
      ShareMeans(CategoriesTo(rule.providers, |rule.providers|).value, rule.providers,
                 CategoriesTo(rule.deniedProviders, |rule.deniedProviders|).value, rule.deniedProviders);
    }
  }

  lemma ListsMean(names: seq<string>, ids: seq<string>, providers: seq<Selector>)
    ensures Names(names).Ok? <==> forall i :: 0 <= i < |names| ==> Enterable(names[i])
    ensures Names(names).Ok? ==> NamesWhat(Names(names).value, names)
    ensures References(ids).Ok? ==> NamesWhat(References(ids).value, ids)
    ensures var r := CategoriesTo(providers, |providers|);
            && (r.Ok? <==> forall i :: 0 <= i < |providers| ==> Categorical(providers[i]))
            && (r.Ok? ==> CategorizesWhat(r.value, providers))
  {
    hide NamesTo, References, CategoriesTo, Enterable, Categorical, Contains, Names', Categorizes;
    EnteredNames(names);
    EnteredReferences(ids);
    EnteredCategories(providers, |providers|);
  }

  lemma OverlapMeans(allow: seq<string>, allowed: seq<string>, deny: seq<string>, denied: seq<string>)
    requires NamesWhat(allow, allowed) && NamesWhat(deny, denied)
    ensures Overlap(allow, deny) <==> NamedTwice(allowed, denied)
  {
    hide Trim, Lower;
    if Overlap(allow, deny) {
      var k :| 0 <= k < |deny| && Contains(allow, deny[k]);
      assert EqualFold(deny[k], deny[k]) && Contains(deny, deny[k]);
      var i :| 0 <= i < |allowed| && Names'(allowed[i], deny[k]);
      var j :| 0 <= j < |denied| && Names'(denied[j], deny[k]);
    }
    if i, j :| 0 <= i < |allowed| && 0 <= j < |denied| && Lower(Trim(allowed[i])) == Lower(Trim(denied[j])) {
      var v := Trim(denied[j]);
      assert Names'(denied[j], v) && Names'(allowed[i], v);
      assert Contains(deny, v) && Contains(allow, v);
      var k :| 0 <= k < |deny| && EqualFold(deny[k], v);
      FoldedContains(allow, v, deny[k]);
    }
  }

  lemma FoldedContains(values: seq<string>, a: string, b: string)
    requires EqualFold(a, b)
    ensures Contains(values, a) <==> Contains(values, b)
  {
    hide Lower;
  }

  lemma ShareMeans(allow: seq<Selector>, allowed: seq<Selector>, deny: seq<Selector>, denied: seq<Selector>)
    requires CategorizesWhat(allow, allowed) && CategorizesWhat(deny, denied)
    ensures Share(allow, deny) <==> CategorizedTwice(allowed, denied)
  {
    hide Trim, Lower;
    if k :| 0 <= k < |deny| && deny[k] in allow {
      assert deny[k] in deny;
      var i :| 0 <= i < |allowed| && Categorizes(allowed[i], deny[k]);
      var j :| 0 <= j < |denied| && Categorizes(denied[j], deny[k]);
      assert Alike(allowed[i], denied[j]);
    }
    if i, j :| 0 <= i < |allowed| && 0 <= j < |denied| && Alike(allowed[i], denied[j]) {
      var p := Selector(Lower(Trim(denied[j].source)), Lower(Trim(denied[j].provider)));
      assert Categorizes(denied[j], p) && Categorizes(allowed[i], p);
      assert p in deny && p in allow;
      var k :| 0 <= k < |deny| && deny[k] == p;
    }
  }

  // ----- What a rule lets pass --------------------------------------------------------

  /** Neither the credential nor, as far as the host tells, its category is denied. */
  ghost predicate Undenied(rule: RouteRule, ref: string, source: string, provider: string) {
    && (forall i :: 0 <= i < |rule.deniedIds| ==> Lower(rule.deniedIds[i]) != Lower(ref))
    && forall i :: 0 <= i < |rule.deniedProviders| ==>
                     || (!Spaces(source) && Lower(Trim(source)) != rule.deniedProviders[i].source)
                     || (!Spaces(provider) && Lower(Trim(provider)) != rule.deniedProviders[i].provider)
  }

  /** The credential or its category is listed. */
  ghost predicate Listed(rule: RouteRule, ref: string, source: string, provider: string) {
    || (exists i :: 0 <= i < |rule.ids| && Lower(rule.ids[i]) == Lower(ref))
    || exists i :: 0 <= i < |rule.providers| && Categorizes(Selector(source, provider), rule.providers[i])
  }

  ghost predicate Passes(rule: RouteRule, onlyListed: bool, ref: string, source: string, provider: string) {
    && Undenied(rule, ref, source, provider)
    && (Listed(rule, ref, source, provider) || (!onlyListed && rule.ids == [] && rule.providers == []))
  }

  /**
    A decision lets a candidate pass exactly when it does not refuse everything, its rule lets
    the candidate pass and so does the constraint, where there is one, which always lists. A
    source or provider the host leaves blank does not get a candidate past a denied category.
   */
  lemma AllowedExactly(d: Decision, ref: string, source: string, provider: string)
    ensures d.AllowsCredential(ref, source, provider) <==>
            && d.configurationError == None && d.accessDenied == None
            && Passes(d.rule, d.requireAllowlist, ref, source, provider)
            && (d.constraint.Some? ==> Passes(d.constraint.value, true, ref, source, provider))
  {
    hide RuleAllows, Passes;
    RuleAllowsExactly(d.rule, d.requireAllowlist, ref, source, provider);
    if d.constraint.Some? { RuleAllowsExactly(d.constraint.value, true, ref, source, provider); }
  }

  lemma RuleAllowsExactly(rule: RouteRule, onlyListed: bool, ref: string, source: string, provider: string)
    ensures RuleAllows(rule, onlyListed, ref, source, provider) <==> Passes(rule, onlyListed, ref, source, provider)
  {
    hide Trim;
    BlankTrimsAway(source);
    BlankTrimsAway(provider);
    assert Lower(Trim(source)) == "" <==> Trim(source) == "";
    assert Lower(Trim(provider)) == "" <==> Trim(provider) == "";
    DeniedExactly(rule, ref, source, provider);
    ListedExactly(rule, ref, source, provider);
  }

  lemma DeniedExactly(rule: RouteRule, ref: string, source: string, provider: string)
    requires Lower(Trim(source)) == "" <==> Spaces(source)
    requires Lower(Trim(provider)) == "" <==> Spaces(provider)
    ensures Undenied(rule, ref, source, provider) <==>
            && !Contains(rule.deniedIds, ref)
            && !exists i :: 0 <= i < |rule.deniedProviders| && MayMatch(Described(source, provider), rule.deniedProviders[i])
  {
    hide Trim, Lower, Spaces;
  }

  lemma ListedExactly(rule: RouteRule, ref: string, source: string, provider: string)
    ensures Listed(rule, ref, source, provider) <==> Contains(rule.ids, ref) || Described(source, provider) in rule.providers
  {
    hide Trim, Lower;
    if Described(source, provider) in rule.providers {
      var i :| 0 <= i < |rule.providers| && rule.providers[i] == Described(source, provider);
      assert Categorizes(Selector(source, provider), rule.providers[i]);
    }
  }

  /** A model passes exactly when the decision refuses nothing and either no model is named, or it is not denied and listed if any is. */
  lemma ModelAllowedExactly(d: Decision)
    ensures d.AllowsModel() <==>
            && d.configurationError == None && d.accessDenied == None
            && (d.model == "" ||
                (&& (forall i :: 0 <= i < |d.rule.deniedModels| ==> Lower(d.rule.deniedModels[i]) != Lower(d.model))
                 && (d.rule.models == [] || exists i :: 0 <= i < |d.rule.models| && Lower(d.rule.models[i]) == Lower(d.model))))
  {
    hide Lower;
  }
}
