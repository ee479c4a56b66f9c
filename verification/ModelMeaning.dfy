/**
  What the model names of internal/billing/prices.go and the quota scopes of quota_scope.go
  mean, said of the text a client sends: which part of it is a request option, which family
  it belongs to, what it is billed as, and which windows it counts against.
 */
module ModelMeaning {
  import opened Text
  import opened Model
  import opened ModelNames
  import opened QuotaScopes
  import P = PriceMatching

  // ----- The request option at the end ------------------------------------------------

  /** m is front, followed by an option in parentheses that contains none itself. */
  ghost predicate WithOption(m: string, front: string) {
    exists option: string :: m == Optioned(front, option) && '(' !in option
  }

  function Optioned(front: string, option: string): string {
    front + "(" + option + ")"
  }

  /** What is left of a trimmed name without its option. */
  ghost predicate BaseOf(m: string, base: string) {
    if exists front :: WithOption(m, front) then exists front :: WithOption(m, front) && Trim(front) == base else base == m
  }

  lemma {:induction false} LastIndexIs(s: string, c: char, i: nat)
    requires i < |s| && s[i] == c && forall j :: i < j < |s| ==> s[j] != c
    ensures LastIndex(s, c) == i
  {
  }

  lemma OptionIsCut(m: string, front: string)
    requires WithOption(m, front)
    ensures LastIndex(m, '(') == |front| && m[|m| - 1] == ')' && m[..|front|] == front
  {
    var option: string :| m == Optioned(front, option) && '(' !in option;
    assert m[|front|] == '(' && m[|m| - 1] == ')';
    forall j | |front| < j < |m|
      ensures m[j] != '('
    {
      assert j < |m| - 1 ==> m[j] == option[j - |front| - 1];
    }
    LastIndexIs(m, '(', |front|);
  }

  lemma Reassembled(m: string, open: nat)
    requires open + 1 < |m| && m[open] == '(' && m[|m| - 1] == ')'
    ensures m == Optioned(m[..open], m[open + 1..|m| - 1])
  {
    assert m == m[..open] + m[open..open + 1] + m[open + 1..|m| - 1] + m[|m| - 1..];
    assert m[open..open + 1] == "(" && m[|m| - 1..] == ")";
  }

  lemma OptionIsFound(m: string)
    requires LastIndex(m, '(') >= 0 && m[|m| - 1] == ')'
    ensures WithOption(m, m[..LastIndex(m, '(')])
  {
    var open := LastIndex(m, '(');
    var option := m[open + 1..|m| - 1];
    Reassembled(m, open);
    forall j | 0 <= j < |option|
      ensures option[j] != '('
    {
      assert option[j] == m[open + 1 + j];
    }
  }

  /** The suffix taken off is exactly the last option, with what is blank before it; every name has one base. */
  lemma BaseMeans(model: string, base: string)
    ensures WithoutThinkingSuffix(model) == base <==> BaseOf(Trim(model), base)
  {
    hide Trim, LastIndex;
    var m := Trim(model);
    if front :| WithOption(m, front) {
      OptionIsCut(m, front);
      forall other | WithOption(m, other)
        ensures other == front
      {
        OptionIsCut(m, other);
      }
    } else if m != "" && LastIndex(m, '(') >= 0 && m[|m| - 1] == ')' {
      OptionIsFound(m);
    }
  }

  // ----- Families ---------------------------------------------------------------------

  const DIGITS := "0123456789"

  const FAMILY_PREFIXES: seq<(string, string)> :=
    [("gpt-", "openai"), ("chatgpt-", "openai"), ("codex-", "openai"), ("claude-", "claude"), ("grok-", "xai"),
     ("gemini-", "gemini"), ("gemma-", "gemini"), ("deepseek-", "deepseek"), ("qwen-", "qwen"), ("qwen2", "qwen"), ("qwen3", "qwen")]

  /** An o and a number, and nothing more or a dash. */
  ghost predicate Reasoning(name: string) {
    exists number, rest :: name == Numbered(number, rest) && Number(number) && (rest == "" || rest[0] == '-')
  }

  function Numbered(number: string, rest: string): string {
    "o" + number + rest
  }

  predicate Number(s: string) {
    s != "" && forall i :: 0 <= i < |s| ==> s[i] in DIGITS
  }

  ghost predicate Belongs(name: string, family: string) {
    || (family == "openai" && Reasoning(name))
    || exists i :: 0 <= i < |FAMILY_PREFIXES| && FAMILY_PREFIXES[i].0 <= name && FAMILY_PREFIXES[i].1 == family
  }

  lemma DigitIsInDigits(c: char)
    ensures Digit(c) <==> c in DIGITS
  {
    assert DIGITS[0] == '0' && DIGITS[1] == '1' && DIGITS[2] == '2' && DIGITS[3] == '3' && DIGITS[4] == '4';
    assert DIGITS[5] == '5' && DIGITS[6] == '6' && DIGITS[7] == '7' && DIGITS[8] == '8' && DIGITS[9] == '9';
  }

  lemma {:induction false} NumberThenDash(number: string, rest: string)
    requires (number == "" || Number(number)) && (rest == "" || rest[0] == '-')
    ensures DigitsToDash(number + rest)
  {
    if number == "" {
      assert number + rest == rest;
    } else {
      DigitIsInDigits(number[0]);
      assert (number + rest)[1..] == number[1..] + rest;
      assert number[1..] == "" || Number(number[1..]);
      NumberThenDash(number[1..], rest);
    }
  }

  lemma {:induction false} DashEndsNumber(s: string) returns (number: string, rest: string)
    requires DigitsToDash(s)
    ensures s == number + rest && (number == "" || Number(number)) && (rest == "" || rest[0] == '-')
  {
    if s == "" || s[0] == '-' {
      number, rest := "", s;
    } else {
      DigitIsInDigits(s[0]);
      var front;
      front, rest := DashEndsNumber(s[1..]);
      number := [s[0]] + front;
      assert s == [s[0]] + s[1..];
    }
  }

  lemma ReasoningMeans(name: string)
    ensures ReasoningModelName(name) <==> Reasoning(name)
  {
    if ReasoningModelName(name) {
      var front, rest := DashEndsNumber(name[2..]);
      DigitIsInDigits(name[1]);
      assert Number([name[1]] + front);
      assert name == Numbered([name[1]] + front, rest);
    }
    if number, rest :| name == Numbered(number, rest) && Number(number) && (rest == "" || rest[0] == '-') {
      DigitIsInDigits(number[0]);
      assert name[2..] == number[1..] + rest;
      assert number[1..] == "" || Number(number[1..]);
      NumberThenDash(number[1..], rest);
    }
  }

  /** No name begins with prefixes of two families, nor looks like a reasoning model besides. */
  lemma PrefixesDiffer(name: string, i: nat, j: nat)
    requires i < |FAMILY_PREFIXES| && j < |FAMILY_PREFIXES| && FAMILY_PREFIXES[i].0 <= name && FAMILY_PREFIXES[j].0 <= name
    ensures FAMILY_PREFIXES[i].1 == FAMILY_PREFIXES[j].1 && !ReasoningModelName(name)
  {
    var a, b := FAMILY_PREFIXES[i].0, FAMILY_PREFIXES[j].0;
    assert name[0] == a[0] == b[0] && name[1] == a[1] == b[1];
  }

  lemma FamilyIsBelonging(name: string, family: string)
    requires family != ""
    ensures FamilyOf(name) == family <==> Belongs(name, family)
  {
    hide ReasoningModelName, Reasoning;
    ReasoningMeans(name);
    if Belongs(name, family) {
      if i :| 0 <= i < |FAMILY_PREFIXES| && FAMILY_PREFIXES[i].0 <= name && FAMILY_PREFIXES[i].1 == family {
        FamilyOfPrefix(name, i);
      }
    }
    if FamilyOf(name) == family { FamilyHasPrefix(name); }
  }

  lemma FamilyOfPrefix(name: string, i: nat)
    requires i < |FAMILY_PREFIXES| && FAMILY_PREFIXES[i].0 <= name
    ensures FamilyOf(name) == FAMILY_PREFIXES[i].1
  {
    hide ReasoningModelName;
    PrefixesDiffer(name, i, i);
    forall j | 0 <= j < |FAMILY_PREFIXES| && FAMILY_PREFIXES[j].0 <= name
      ensures FAMILY_PREFIXES[i].1 == FAMILY_PREFIXES[j].1
    {
      PrefixesDiffer(name, i, j);
    }
    FamilyHasPrefix(name);
    if !ReasoningModelName(name) && FamilyOf(name) == "" {
      NoPrefix(name, i);
    }
  }

  lemma NoPrefix(name: string, i: nat)
    requires i < |FAMILY_PREFIXES| && FamilyOf(name) == ""
    ensures !(FAMILY_PREFIXES[i].0 <= name)
  {
    hide ReasoningModelName;
  }

  lemma FamilyHasPrefix(name: string)
    ensures FamilyOf(name) == "" || (ReasoningModelName(name) && FamilyOf(name) == "openai") ||
            exists i :: 0 <= i < |FAMILY_PREFIXES| && FAMILY_PREFIXES[i].0 <= name && FAMILY_PREFIXES[i].1 == FamilyOf(name)
  {
    hide ReasoningModelName;
    var t := FAMILY_PREFIXES;
    assert t[0] == ("gpt-", "openai") && t[1] == ("chatgpt-", "openai") && t[2] == ("codex-", "openai") && t[3] == ("claude-", "claude");
    assert t[4] == ("grok-", "xai") && t[5] == ("gemini-", "gemini") && t[6] == ("gemma-", "gemini") && t[7] == ("deepseek-", "deepseek");
    assert t[8] == ("qwen-", "qwen") && t[9] == ("qwen2", "qwen") && t[10] == ("qwen3", "qwen");
  }

  // ----- Which windows a model counts against -----------------------------------------

  function Routed(prefix: string, name: string): string {
    prefix + "/" + name
  }

  /** name is what follows the last slash of m. */
  ghost predicate LastSegment(m: string, name: string) {
    '/' !in name && (m == name || exists prefix :: m == Routed(prefix, name))
  }

  lemma SegmentIs(m: string, name: string)
    ensures m[LastIndex(m, '/') + 1..] == name <==> LastSegment(m, name)
  {
    hide LastIndex;
    if LastSegment(m, name) { SegmentIsCut(m, name); }
    if m[LastIndex(m, '/') + 1..] == name { CutIsSegment(m, name); }
  }

  lemma SegmentIsCut(m: string, name: string)
    requires LastSegment(m, name)
    ensures m[LastIndex(m, '/') + 1..] == name
  {
    if m == name {
      NoSuchIndex(m, '/');
      assert m[0..] == m;
    } else {
      var prefix :| m == Routed(prefix, name);
      assert forall j :: |prefix| < j < |m| ==> m[j] == name[j - |prefix| - 1];
      LastIndexIs(m, '/', |prefix|);
    }
  }

  lemma CutIsSegment(m: string, name: string)
    requires m[LastIndex(m, '/') + 1..] == name
    ensures LastSegment(m, name)
  {
    hide LastIndex;
    var slash := LastIndex(m, '/');
    assert forall j :: 0 <= j < |name| ==> name[j] == m[slash + 1 + j];
    if slash == -1 {
      assert m[0..] == m;
    } else {
      assert m == m[..slash] + m[slash..slash + 1] + m[slash + 1..] && m[slash..slash + 1] == "/";
      assert m == Routed(m[..slash], name);
    }
  }

  /** The model of a normalized name, without option and route prefix. */
  ghost predicate Plainly(m: string, name: string) {
    exists base :: BaseOf(m, base) && LastSegment(Lower(base), name)
  }

  lemma FamilyMeans(m: string, name: string, family: string)
    requires Trimmed(m) && Plainly(m, name) && family != ""
    ensures ModelFamily(m) == family <==> Belongs(name, family)
  {
    hide Trim, Lower, FamilyOf, Belongs, LastSegment, BaseOf, WithoutThinkingSuffix, LastIndex;
    assert ModelFamily(m) == FamilyOf(name) by {
      var base :| BaseOf(m, base) && LastSegment(Lower(base), name);
      BaseIs(m, base);
      SegmentIs(Lower(base), name);
    }
    FamilyIsBelonging(name, family);
  }

  lemma BaseIs(m: string, base: string)
    requires Trimmed(m) && BaseOf(m, base)
    ensures NormalizeModelID(WithoutThinkingSuffix(m)) == Lower(base)
  {
    hide Trim, Lower, BaseOf, WithoutThinkingSuffix;
    TrimTrimmed(m);
    BaseMeans(m, base);
    SuffixIsTrimmed(m);
    TrimTrimmed(base);
  }

  /**
    A window counts a model exactly when its scope is empty, lists the very model, in any
    spelling, or lists the family whose names the model's own begins like; request options
    and route prefixes do not matter for the family.
   */
  lemma MatchesMeans(q: QuotaScope, model: string, name: string)
    requires Plainly(Lower(Trim(model)), name)
    ensures Matches(q, model) <==>
            || (q.models == [] && q.providers == [])
            || (exists i :: 0 <= i < |q.models| && Lower(Trim(q.models[i])) == Lower(Trim(model)))
            || (exists i :: 0 <= i < |q.providers| && q.providers[i] != "" && Belongs(name, q.providers[i]))
  {
    hide Lower, Trim, ModelFamily, Belongs, Plainly;
    var m := NormalizeModelID(model);
    TrimIsTrimmed(model);
    LowerStaysTrimmed(Trim(model));
    forall i | 0 <= i < |q.providers| && q.providers[i] != ""
      ensures ModelFamily(m) == q.providers[i] <==> Belongs(name, q.providers[i])
    {
      FamilyMeans(m, name, q.providers[i]);
    }
  }

  lemma LowerStaysTrimmed(s: string)
    requires Trimmed(s)
    ensures Trimmed(Lower(s))
  {
  }

  /** Every name has its plain form, so the meaning covers every request. */
  lemma EveryModelIsPlainly(m: string) returns (name: string)
    requires Trimmed(m)
    ensures Plainly(m, name)
  {
    hide Trim, Lower, LastSegment, BaseOf, WithoutThinkingSuffix;
    TrimTrimmed(m);
    var base := WithoutThinkingSuffix(m);
    BaseMeans(m, base);
    name := Lower(base)[LastIndex(Lower(base), '/') + 1..];
    SegmentIs(Lower(base), name);
  }

  // ----- What a request is billed as --------------------------------------------------

  /** The client leaves the choice of the model to the host. */
  ghost predicate LeftOpen(model: string) {
    exists base :: BaseOf(Trim(model), base) && Lower(base) == "auto"
  }

  lemma OpenMeans(model: string)
    ensures IsAuto(model) <==> LeftOpen(model)
  {
    hide Trim, BaseOf, WithoutThinkingSuffix;
    assert Lower("auto") == "auto";
    var base := WithoutThinkingSuffix(model);
    BaseMeans(model, base);
    if LeftOpen(model) {
      var other :| BaseOf(Trim(model), other) && Lower(other) == "auto";
      BaseMeans(model, other);
    }
  }

  /**
    A request is billed as the upstream model when the client names none or leaves it open;
    otherwise as the custom price of the full name, else as that of the name without its
    option, each in its stored spelling; and without a custom price as the name itself, in the
    upstream's spelling where that differs in case only.
   */
  lemma BillingMeans(prices: Prices, upstream: string, route: string, up: string, base: string)
    requires BaseOf(Trim(upstream), up) && BaseOf(Trim(Trim(route)), base)
    ensures var r, full, short := ResolveBillingModel(prices, upstream, route), Lower(Trim(Trim(route))), Lower(Trim(base));
            && (Trim(route) == "" || LeftOpen(Trim(route)) ==> r == up)
            && (Trim(route) != "" && !LeftOpen(Trim(route)) ==>
                  && (full in prices ==> r == prices[full])
                  && (full !in prices && short in prices ==> r == prices[short])
                  && (full !in prices && short !in prices ==> r in {base, up} && Lower(r) == Lower(base) && (Lower(up) == Lower(base) ==> r == up)))
  {
    hide Trim, Lower, BaseOf, LeftOpen, WithoutThinkingSuffix;
    BaseMeans(upstream, up);
    BaseMeans(Trim(route), base);
    OpenMeans(Trim(route));
  }

  /** Admission refuses to guess exactly when the named model, or the upstream for want of a name, is left open and some window depends on it. */
  lemma UnresolvableMeans(windows: seq<Window>, upstream: string, requested: string)
    ensures Unresolvable(windows, upstream, requested) <==>
            && LeftOpen(if Spaces(requested) then upstream else requested)
            && exists i :: 0 <= i < |windows| && (windows[i].scope.models != [] || windows[i].scope.providers != [])
  {
    hide Trim, LeftOpen, IsAuto;
    BlankTrimsAway(requested);
    OpenMeans(upstream);
    OpenMeans(requested);
  }

  /** The name under which a model's reference price is looked for: without option and route prefix, in lower case. */
  ghost predicate PricedUnder(model: string, name: string) {
    exists base :: BaseOf(Trim(model), base) && LastSegment(Lower(Trim(base)), name)
  }

  /** A request looks for its upstream model first, then for the model asked for unless that is left open or the same. */
  lemma RequestKeysMean(upstream: string, requested: string, up: string, req: string)
    requires PricedUnder(upstream, up) && PricedUnder(requested, req)
    ensures P.RequestKeys(upstream, requested) ==
            (if up == "" then [] else [up]) + (if LeftOpen(requested) || req == "" || req == up then [] else [req])
  {
    hide PricedUnder, P.KeyOf, IsAuto, LeftOpen;
    OpenMeans(requested);
    PricedUnderIs(upstream, up);
    PricedUnderIs(requested, req);
  }

  lemma PricedUnderIs(model: string, name: string)
    requires PricedUnder(model, name)
    ensures P.KeyOf(model) == name
  {
    hide Trim, Lower, LastSegment, BaseOf, WithoutThinkingSuffix, LastIndex;
    var base :| BaseOf(Trim(model), base) && LastSegment(Lower(Trim(base)), name);
    BaseMeans(model, base);
    SegmentIs(Lower(Trim(base)), name);
  }

  // ----- Which scopes are accepted ----------------------------------------------------

  const FAMILIES := ["openai", "claude", "xai", "gemini", "deepseek", "qwen"]

  /** A model a scope may list: not blank, at most 512 characters once trimmed, and without wildcards, NUL and line breaks. */
  predicate Listable(model: string) {
    && Trim(model) != "" && |Trim(model)| <= 512
    && forall i :: 0 <= i < |Trim(model)| ==> Trim(model)[i] !in "*[]\0\r\n"
  }

  /**
    A scope is accepted exactly when it lists up to 1024 models or up to six families, but not
    both, all of them listable models and known families; what is stored lists the same ones.
   */
  lemma ScopeMeans(q: QuotaScope)
    ensures NormalizeScope(q).Ok? <==>
            && |q.models| <= 1024 && |q.providers| <= 6 && (q.models == [] || q.providers == [])
            && (forall i :: 0 <= i < |q.models| ==> Listable(q.models[i]))
            && (forall i :: 0 <= i < |q.providers| ==> Lower(Trim(q.providers[i])) in FAMILIES)
    ensures NormalizeScope(q).Ok? ==>
              var n := NormalizeScope(q).value;
              && (forall x :: x in n.models <==> exists i :: 0 <= i < |q.models| && Lower(Trim(q.models[i])) == x)
              && (forall x :: x in n.providers <==> exists i :: 0 <= i < |q.providers| && Lower(Trim(q.providers[i])) == x)
  {
    hide Trim, Lower, NameSet, KnownFamily, GoodModelName, Listable;
    forall i | 0 <= i < |q.models|
      ensures GoodModelName(NormalizeModelID(q.models[i])) <==> Listable(q.models[i])
    {
      ListableMeans(q.models[i]);
    }
    forall i | 0 <= i < |q.providers|
      ensures KnownFamily(NormalizeModelID(q.providers[i])) <==> Lower(Trim(q.providers[i])) in FAMILIES
    {
      KnownFamilies(NormalizeModelID(q.providers[i]));
    }
    NamesAre(q.models);
    NamesAre(q.providers);
  }

  lemma NamesAre(values: seq<string>)
    ensures forall x :: x in NameSet(values) <==> exists i :: 0 <= i < |values| && Lower(Trim(values[i])) == x
  {
    hide NameSet, Trim, Lower;
    forall x
      ensures x in Names(values) <==> exists i :: 0 <= i < |values| && Lower(Trim(values[i])) == x
    {
      if i :| 0 <= i < |values| && Lower(Trim(values[i])) == x { assert Names(values)[i] == x; }
    }
  }

  lemma KnownFamilies(family: string)
    ensures KnownFamily(family) <==> family in FAMILIES
  {
    var f := FAMILIES;
    assert f[0] == "openai" && f[1] == "claude" && f[2] == "xai" && f[3] == "gemini" && f[4] == "deepseek" && f[5] == "qwen";
  }

  lemma ListableMeans(model: string)
    ensures GoodModelName(NormalizeModelID(model)) <==> Listable(model)
  {
    hide Trim;
    var t := Trim(model);
    assert Lower(t) == "" <==> t == "";
    forall i | 0 <= i < |t|
      ensures ForbiddenInModel(Lower(t)[i]) <==> t[i] in "*[]\0\r\n"
    {
      ForbiddenMeans(t[i]);
    }
  }

  lemma ForbiddenMeans(c: char)
    ensures ForbiddenInModel(LowerChar(c)) <==> c in "*[]\0\r\n"
  {
    var f := "*[]\0\r\n";
    assert f[0] == '*' && f[1] == '[' && f[2] == ']' && f[3] == '\0' && f[4] == '\r' && f[5] == '\n';
  }
}
