/**
  Normalized quota scopes of internal/billing/quota_scope.go: sorted, without repeats, and
  one per set of models or families.
 */
module QuotaScopes {
  import opened Text
  import opened Model
  import opened ModelNames

  const MAX_SCOPE_MODELS := 1024
  const MAX_SCOPE_FAMILIES := 6

  predicate ForbiddenInModel(c: char) {
    c == '*' || c == '[' || c == ']' || c == '\0' || c == '\r' || c == '\n'
  }

  predicate GoodModelName(model: string) {
    model != "" && |model| <= MAX_VALUE_BYTES && forall i :: 0 <= i < |model| ==> !ForbiddenInModel(model[i])
  }

  predicate KnownFamily(family: string) {
    || family == "openai" || family == "claude" || family == "xai" || family == "gemini" || family == "deepseek"
    || family == "qwen"
  }

  function Names(values: seq<string>): (r: seq<string>)
    ensures |r| == |values| && forall i :: 0 <= i < |r| ==> r[i] == NormalizeModelID(values[i])
  {
    seq(|values|, i requires 0 <= i < |values| => NormalizeModelID(values[i]))
  }

  /** The normalized entries, sorted and without repeats. */
  function NameSet(values: seq<string>): (r: seq<string>)
    ensures forall x :: x in r <==> x in Names(values)
  {
    Compact(SortIds(Names(values)))
  }

  lemma {:induction false} CompactSorts(values: seq<string>)
    requires SortedIds(values)
    ensures SortedIds(Compact(values)) && Distinct(Compact(values))
    ensures values != [] ==> Compact(values) != [] && Compact(values)[|Compact(values)| - 1] == values[|values| - 1]
  {
    hide Less;
    if values != [] {
      var rest, last := values[..|values| - 1], values[|values| - 1];
      CompactSorts(rest);
      var front := Compact(rest);
      forall i | 0 <= i < |front|
        ensures !Less(last, front[i])
      {
        assert front[i] in rest;
      }
      if front != [] && front[|front| - 1] != last {
        forall i | 0 <= i < |front|
          ensures front[i] != last
        {
          if front[i] == last {
            LessTotal(last, front[|front| - 1]);
          }
        }
      }
    }
  }

  lemma NameSetSorts(values: seq<string>)
    ensures SortedIds(NameSet(values)) && Distinct(NameSet(values))
  {
    SortIdsSorts(Names(values));
    CompactSorts(SortIds(Names(values)));
  }

  /** One list per set of names: spelling, order and repeats leave no trace. */
  lemma NameSetCanonical(a: seq<string>, b: seq<string>)
    ensures NameSet(a) == NameSet(b) <==> forall x :: x in Names(a) <==> x in Names(b)
  {
    hide NameSet, SortedIds, Distinct;
    NameSetSorts(a);
    NameSetSorts(b);
    if forall x :: x in Names(a) <==> x in Names(b) {
      SortedUnique(NameSet(a), NameSet(b));
    } else {
      var x :| (x in Names(a)) != (x in Names(b));
      assert (x in NameSet(a)) != (x in NameSet(b));
    }
  }

  lemma NameSetIsStable(values: seq<string>)
    ensures NameSet(NameSet(values)) == NameSet(values) && Names(NameSet(values)) == NameSet(values)
  {
    hide NameSet, NormalizeModelID;
    var once := NameSet(values);
    forall i | 0 <= i < |once|
      ensures NormalizeModelID(once[i]) == once[i]
    {
      assert once[i] in Names(values);
      var j :| 0 <= j < |values| && Names(values)[j] == once[i];
      NormalizedTwice(values[j]);
    }
    assert Names(once) == once;
    NameSetCanonical(once, values);
  }

  lemma NormalizedTwice(id: string)
    ensures NormalizeModelID(NormalizeModelID(id)) == NormalizeModelID(id)
  {
    var t := Trim(id);
    TrimIsTrimmed(id);
    TrimTrimmed(Lower(t));
    LowerIdempotent(t);
  }

  function NormalizeScope(q: QuotaScope): Result<QuotaScope> {
    if |q.models| > MAX_SCOPE_MODELS || |q.providers| > MAX_SCOPE_FAMILIES then
      Err("A quota scope supports at most 1024 model IDs or 6 model families")
    else if q.models != [] && q.providers != [] then
      Err("A quota scope must select models or model families, not both")
    else if exists i :: 0 <= i < |q.models| && !GoodModelName(NormalizeModelID(q.models[i])) then
      Err("Quota scope models must be non-empty exact model identifiers")
    else if exists i :: 0 <= i < |q.providers| && !KnownFamily(NormalizeModelID(q.providers[i])) then
      Err("Unsupported quota model family")
    else
      Ok(QuotaScope(NameSet(q.models), NameSet(q.providers)))
  }

  const EVERYTHING := QuotaScope([], [])

  /** identity: a scope that does not normalize counts as the empty one. */
  function Identity(q: QuotaScope): QuotaScope {
    match NormalizeScope(q)
    case Ok(n) => n
    case Err(_) => EVERYTHING
  }

  /** A scope as stored: already in normal form. */
  predicate StoredScope(q: QuotaScope) {
    NormalizeScope(q) == Ok(q)
  }

  lemma {:induction false} CompactShrinks(values: seq<string>)
    ensures |Compact(values)| <= |values| && (Compact(values) == [] <==> values == [])
  {
    if values != [] { CompactShrinks(values[..|values| - 1]); }
  }

  lemma NameSetSize(values: seq<string>)
    ensures |NameSet(values)| <= |values| && (NameSet(values) == [] <==> values == [])
  {
    CompactShrinks(SortIds(Names(values)));
  }

  /** Normalizing a scope gives one that is stored as it is. */
  lemma NormalizingIsStable(q: QuotaScope, n: QuotaScope)
    requires NormalizeScope(q) == Ok(n)
    ensures StoredScope(n)
  {
    hide NameSet, GoodModelName, KnownFamily, NormalizeModelID;
    NameSetIsStable(q.models);
    NameSetIsStable(q.providers);
    NameSetSize(q.models);
    NameSetSize(q.providers);
    forall i | 0 <= i < |n.models|
      ensures GoodModelName(NormalizeModelID(n.models[i]))
    {
      EntryFrom(q.models, i);
      var j :| 0 <= j < |q.models| && NormalizeModelID(q.models[j]) == NormalizeModelID(n.models[i]);
    }
    forall i | 0 <= i < |n.providers|
      ensures KnownFamily(NormalizeModelID(n.providers[i]))
    {
      EntryFrom(q.providers, i);
      var j :| 0 <= j < |q.providers| && NormalizeModelID(q.providers[j]) == NormalizeModelID(n.providers[i]);
    }
  }

  lemma EntryFrom(values: seq<string>, i: nat)
    requires i < |NameSet(values)|
    ensures exists j :: 0 <= j < |values| && NormalizeModelID(values[j]) == NormalizeModelID(NameSet(values)[i])
  {
    hide NormalizeModelID;
    NameSetIsStable(values);
    var x := NameSet(values)[i];
    assert x in Names(values);
    var j :| 0 <= j < |values| && Names(values)[j] == x;
    assert NormalizeModelID(values[j]) == x == Names(NameSet(values))[i];
  }

  // ----- Requests without a model name ------------------------------------------------

  /** Whatever upstream an admitted request turns out to have used, it is charged to the windows that admitted it. */
  ghost predicate AlwaysAgree(prices: Prices, windows: seq<Window>, requested: string) {
    forall admitted, used :: !Unresolvable(windows, admitted, requested) ==>
      Matching(windows, ResolveBillingModel(prices, admitted, requested)) == Matching(windows, ResolveBillingModel(prices, used, requested))
  }

  /** A name no stored scope can list, of no family. */
  const UNLISTED: string := seq(MAX_VALUE_BYTES + 1, i => 'z')

  /** A model of each family. */
  function SampleOf(family: string): string {
    if family == "openai" then "gpt-"
    else if family == "claude" then "claude-"
    else if family == "xai" then "grok-"
    else if family == "gemini" then "gemini-"
    else if family == "deepseek" then "deepseek-"
    else "qwen-"
  }

  /** An upstream name that the scope matches; a request option hides whatever the listed name ends in. */
  function ListedIn(q: QuotaScope): string
    requires !Unscoped(q)
  {
    if q.models != [] then q.models[0] + "(x)" else SampleOf(q.providers[0])
  }

  lemma UnlistedIsPlain()
    ensures WithoutThinkingSuffix(UNLISTED) == UNLISTED && NormalizeModelID(UNLISTED) == UNLISTED
    ensures ModelFamily(UNLISTED) == "" && !IsAuto(UNLISTED)
  {
    assert Lower(UNLISTED) == UNLISTED;
    PlainName(UNLISTED);
    assert UNLISTED[0] == 'z';
    assert |UNLISTED| != |"auto"|;
  }

  /** A stored scope's entries are normalized and not too long. */
  lemma StoredEntries(q: QuotaScope)
    requires StoredScope(q)
    ensures forall i :: 0 <= i < |q.models| ==> NormalizeModelID(q.models[i]) == q.models[i] && GoodModelName(q.models[i])
    ensures forall i :: 0 <= i < |q.providers| ==> NormalizeModelID(q.providers[i]) == q.providers[i] && KnownFamily(q.providers[i])
  {
    hide NameSet, GoodModelName, KnownFamily, NormalizeModelID;
    NameSetIsStable(q.models);
    NameSetIsStable(q.providers);
    assert forall i :: 0 <= i < |q.models| ==> Names(q.models)[i] == NormalizeModelID(q.models[i]);
    assert forall i :: 0 <= i < |q.providers| ==> Names(q.providers)[i] == NormalizeModelID(q.providers[i]);
  }

  lemma UnlistedDoesNotMatch(q: QuotaScope)
    requires StoredScope(q) && !Unscoped(q)
    ensures !Matches(q, UNLISTED)
  {
    hide StoredScope, NormalizeModelID, ModelFamily;
    UnlistedIsPlain();
    StoredEntries(q);
  }

  lemma SampleIsPlain(family: string)
    ensures var s := SampleOf(family); Trimmed(s) && '(' !in s && '/' !in s && Lower(s) == s
  {
    var s := SampleOf(family);
    assert forall i :: 0 <= i < |s| ==> s[i] == '-' || 'a' <= s[i] <= 'z';
    assert Lower(s) == s;
  }

  /** The first two letters tell the prefixes of different families apart. */
  lemma PrefixByLetters(s: string, prefix: string)
    requires |s| > 1 && |prefix| > 1
    ensures HasPrefix(s, prefix) ==> s[0] == prefix[0] && s[1] == prefix[1]
    ensures s == prefix ==> HasPrefix(s, prefix)
  {
  }

  lemma SampleFamily(family: string)
    requires KnownFamily(family)
    ensures FamilyOf(SampleOf(family)) == family
  {
    hide ReasoningModelName, HasPrefix;
    var s := SampleOf(family);
    NotReasoning(s);
    PrefixByLetters(s, "gpt-");
    PrefixByLetters(s, "chatgpt-");
    PrefixByLetters(s, "codex-");
    PrefixByLetters(s, "claude-");
    PrefixByLetters(s, "grok-");
    PrefixByLetters(s, "gemini-");
    PrefixByLetters(s, "gemma-");
    PrefixByLetters(s, "deepseek-");
    PrefixByLetters(s, "qwen-");
  }

  lemma NotReasoning(s: string)
    requires s != "" && s[0] != 'o'
    ensures !ReasoningModelName(s)
  {
  }

  lemma ListedMatches(q: QuotaScope)
    requires StoredScope(q) && !Unscoped(q)
    ensures Matches(q, WithoutThinkingSuffix(ListedIn(q)))
  {
    hide StoredScope, ModelFamily, WithoutThinkingSuffix;
    StoredEntries(q);
    if q.models != [] {
      var m := q.models[0];
      NormalizedIsTrimmed(m);
      OptionHides(m);
    } else {
      var family := q.providers[0];
      SampleFamily(family);
      SampleIsPlain(family);
      PlainName(SampleOf(family));
    }
  }

  lemma NormalizedIsTrimmed(m: string)
    requires NormalizeModelID(m) == m
    ensures Trimmed(m)
  {
    TrimIsTrimmed(m);
  }

  /**
    Admission and usage agree for a request exactly when it names a model or no window depends
    on one: a blank name follows the upstream, and any scoped window tells some upstreams apart.
   */
  lemma AgreementIsExact(prices: Prices, windows: seq<Window>, requested: string)
    requires forall w :: w in windows ==> StoredScope(w.scope)
    ensures AlwaysAgree(prices, windows, requested) <==> Trim(requested) != "" || forall w :: w in windows ==> Unscoped(w.scope)
  {
    hide Matches, StoredScope, Unresolvable, ResolveBillingModel, Matching;
    if Trim(requested) != "" {
      forall admitted, used | !Unresolvable(windows, admitted, requested)
        ensures Matching(windows, ResolveBillingModel(prices, admitted, requested)) == Matching(windows, ResolveBillingModel(prices, used, requested))
      {
        UsageMeetsAdmission(prices, windows, requested, admitted, used);
      }
    } else if forall w :: w in windows ==> Unscoped(w.scope) {
      forall admitted, used
        ensures Matching(windows, ResolveBillingModel(prices, admitted, requested)) == Matching(windows, ResolveBillingModel(prices, used, requested))
      {
        UnscopedAgree(windows, ResolveBillingModel(prices, admitted, requested), ResolveBillingModel(prices, used, requested));
      }
    } else {
      var w :| w in windows && !Unscoped(w.scope);
      BlankNameDiffers(prices, windows, requested, w);
    }
  }

  lemma UnscopedAgree(windows: seq<Window>, a: string, b: string)
    requires forall w :: w in windows ==> Unscoped(w.scope)
    ensures Matching(windows, a) == Matching(windows, b)
  {
    forall w | w in windows
      ensures Matches(w.scope, a) <==> Matches(w.scope, b)
    {
      UnscopedMatchesAll(w.scope, a);
      UnscopedMatchesAll(w.scope, b);
    }
    MatchingBy(windows, a, b, |windows|);
  }

  /** A request without a name, admitted under an upstream the scope does not match and charged under one it does. */
  lemma BlankNameDiffers(prices: Prices, windows: seq<Window>, requested: string, w: Window)
    requires Trim(requested) == "" && w in windows && StoredScope(w.scope) && !Unscoped(w.scope)
    ensures !Unresolvable(windows, UNLISTED, requested)
    ensures Matching(windows, ResolveBillingModel(prices, UNLISTED, requested)) !=
            Matching(windows, ResolveBillingModel(prices, ListedIn(w.scope), requested))
  {
    hide Matches, StoredScope, WithoutThinkingSuffix, Trim, Lower;
    UnlistedIsPlain();
    UnlistedDoesNotMatch(w.scope);
    ListedMatches(w.scope);
  }
}
