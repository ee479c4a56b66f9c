/**
  Billing model names of internal/billing/prices.go and the quota scopes of quota_scope.go
  that select windows by them.
 */
module ModelNames {
  import opened Text
  import opened Model

  function NormalizeModelID(id: string): (r: string) {
    Lower(Trim(id))
  }

  /** The last place a character occurs, or -1. */
  function LastIndex(s: string, c: char): (i: int)
    ensures -1 <= i < |s|
    ensures i >= 0 ==> s[i] == c
    ensures forall j :: i < j < |s| ==> s[j] != c
  {
    if s == "" then -1
    else if s[|s| - 1] == c then |s| - 1
    else LastIndex(s[..|s| - 1], c)
  }

  /** Removes a trailing request option in parentheses, keeping the spelling. */
  function WithoutThinkingSuffix(model: string): (r: string) {
    var m := Trim(model);
    var open := LastIndex(m, '(');
    if open >= 0 && m[|m| - 1] == ')' then Trim(m[..open]) else m
  }

  lemma SuffixIsTrimmed(model: string)
    ensures Trimmed(WithoutThinkingSuffix(model))
  {
    var m := Trim(model);
    TrimIsTrimmed(model);
    var open := LastIndex(m, '(');
    if open >= 0 { TrimIsTrimmed(m[..open]); }
  }

  predicate IsAuto(model: string) {
    EqualFold(WithoutThinkingSuffix(model), "auto")
  }

  /** Custom prices: the stored spelling of a model by its normalized name. */
  type Prices = map<string, string>

  function ResolveBillingModel(prices: Prices, upstream: string, route: string): (r: string) {
    var up := WithoutThinkingSuffix(upstream);
    var route := Trim(route);
    if route == "" then up else
    var base := WithoutThinkingSuffix(route);
    if EqualFold(base, "auto") then up
    else if NormalizeModelID(route) in prices then prices[NormalizeModelID(route)]
    else if NormalizeModelID(base) in prices then prices[NormalizeModelID(base)]
    else if EqualFold(base, up) then up
    else base
  }

  /** Once a client names a model, which upstream served it cannot change what it is billed as. */
  lemma BillingModelIsStable(prices: Prices, upA: string, upB: string, route: string)
    requires Trim(route) != "" && !IsAuto(Trim(route))
    ensures NormalizeModelID(ResolveBillingModel(prices, upA, route)) == NormalizeModelID(ResolveBillingModel(prices, upB, route))
  {
    hide WithoutThinkingSuffix, Lower, Trim;
    SuffixIsTrimmed(upA);
    SuffixIsTrimmed(upB);
    SuffixIsTrimmed(Trim(route));
    TrimTrimmed(WithoutThinkingSuffix(upA));
    TrimTrimmed(WithoutThinkingSuffix(upB));
    TrimTrimmed(WithoutThinkingSuffix(Trim(route)));
  }

  // ----- Families ---------------------------------------------------------------------

  predicate HasPrefix(s: string, prefix: string) {
    prefix <= s
  }

  predicate Digit(c: char) {
    '0' <= c <= '9'
  }

  /** Digits, up to a dash or the end. */
  predicate DigitsToDash(s: string) {
    s == "" || s[0] == '-' || (Digit(s[0]) && DigitsToDash(s[1..]))
  }

  predicate ReasoningModelName(model: string) {
    |model| >= 2 && model[0] == 'o' && Digit(model[1]) && DigitsToDash(model[2..])
  }

  function FamilyOf(name: string): string {
    if HasPrefix(name, "gpt-") || HasPrefix(name, "chatgpt-") || HasPrefix(name, "codex-") || ReasoningModelName(name) then "openai"
    else if HasPrefix(name, "claude-") then "claude"
    else if HasPrefix(name, "grok-") then "xai"
    else if HasPrefix(name, "gemini-") || HasPrefix(name, "gemma-") then "gemini"
    else if HasPrefix(name, "deepseek-") then "deepseek"
    else if HasPrefix(name, "qwen-") || HasPrefix(name, "qwen2") || HasPrefix(name, "qwen3") then "qwen"
    else ""
  }

  function ModelFamily(model: string): string {
    var m := NormalizeModelID(WithoutThinkingSuffix(model));
    FamilyOf(m[LastIndex(m, '/') + 1..])
  }

  lemma NoSuchIndex(s: string, c: char)
    requires c !in s
    ensures LastIndex(s, c) == -1
  {
  }

  lemma PlainName(s: string)
    requires Trimmed(s) && '(' !in s && '/' !in s && Lower(s) == s
    ensures WithoutThinkingSuffix(s) == s && NormalizeModelID(s) == s && ModelFamily(s) == FamilyOf(s)
  {
    TrimTrimmed(s);
    NoSuchIndex(s, '(');
    NoSuchIndex(s, '/');
    assert s[0..] == s;
  }

  /** With an option appended, any trimmed name is what remains. */
  lemma OptionHides(m: string)
    requires m != "" && Trimmed(m)
    ensures WithoutThinkingSuffix(m + "(x)") == m
  {
    var s := m + "(x)";
    assert s[0] == m[0] && s[|s| - 1] == ')';
    TrimTrimmed(s);
    assert s[|m|] == '(' && s[|m| + 1] == 'x' && s[..|m|] == m;
    assert LastIndex(s, '(') == |m|;
    TrimTrimmed(m);
  }

  // ----- Scopes -----------------------------------------------------------------------

  predicate Unscoped(q: QuotaScope) {
    q.models == [] && q.providers == []
  }

  predicate Matches(q: QuotaScope, model: string) {
    Unscoped(q) ||
    (var m := NormalizeModelID(model);
     || (exists i :: 0 <= i < |q.models| && NormalizeModelID(q.models[i]) == m)
     || (ModelFamily(m) != "" && ModelFamily(m) in q.providers))
  }

  /** The windows that apply to a model, in plan order. */
  function MatchingTo(windows: seq<Window>, model: string, n: nat): (r: seq<Window>)
    requires n <= |windows|
    ensures forall w :: w in r <==> w in windows[..n] && Matches(w.scope, model)
  {
    if n == 0 then [] else
    var front := MatchingTo(windows, model, n - 1);
    assert windows[..n] == windows[..n - 1] + [windows[n - 1]];
    if Matches(windows[n - 1].scope, model) then front + [windows[n - 1]] else front
  }

  function Matching(windows: seq<Window>, model: string): (r: seq<Window>)
    ensures forall w :: w in r <==> w in windows && Matches(w.scope, model)
  {
    assert windows[..|windows|] == windows;
    MatchingTo(windows, model, |windows|)
  }

  /** forModel. */
  method ForModel(windows: seq<Window>, model: string) returns (selected: seq<Window>)
    ensures selected == Matching(windows, model)
  {
    hide Matches;
    selected := [];
    for i := 0 to |windows|
      invariant selected == MatchingTo(windows, model, i)
    {
      if Matches(windows[i].scope, model) {
        selected := selected + [windows[i]];
      }
    }
  }

  lemma MatchesNormalized(q: QuotaScope, a: string, b: string)
    requires NormalizeModelID(a) == NormalizeModelID(b)
    ensures Matches(q, a) <==> Matches(q, b)
  {
  }

  lemma {:induction false} MatchingBy(windows: seq<Window>, a: string, b: string, n: nat)
    requires n <= |windows| && forall w :: w in windows ==> (Matches(w.scope, a) <==> Matches(w.scope, b))
    ensures MatchingTo(windows, a, n) == MatchingTo(windows, b, n)
  {
    hide Matches;
    if n > 0 { MatchingBy(windows, a, b, n - 1); }
  }

  /** What makes admission refuse to guess: the model stays open and some window depends on it. */
  predicate Unresolvable(windows: seq<Window>, upstream: string, requested: string) {
    && IsAuto(if Trim(requested) == "" then upstream else requested)
    && exists i :: 0 <= i < |windows| && !Unscoped(windows[i].scope)
  }

  /**
    Admission and usage agree on the windows. Whatever upstream model the host reports
    afterwards, a request admitted under a named model is charged to the very windows that
    admitted it; a name left open is refused as soon as any window depends on the model.
   */
  lemma UsageMeetsAdmission(prices: Prices, windows: seq<Window>, requested: string, admitted: string, used: string)
    requires Trim(requested) != "" && !Unresolvable(windows, admitted, requested)
    ensures Matching(windows, ResolveBillingModel(prices, admitted, requested)) ==
            Matching(windows, ResolveBillingModel(prices, used, requested))
  {
    hide Matches, ResolveBillingModel, NormalizeModelID, WithoutThinkingSuffix, Lower, Trim;
    var a, b := ResolveBillingModel(prices, admitted, requested), ResolveBillingModel(prices, used, requested);
    TrimIdempotent(requested);
    SuffixOfTrimmed(requested);
    if IsAuto(requested) {
      forall w | w in windows
        ensures Matches(w.scope, a) <==> Matches(w.scope, b)
      {
        UnscopedMatchesAll(w.scope, a);
        UnscopedMatchesAll(w.scope, b);
      }
    } else {
      BillingModelIsStable(prices, admitted, used, requested);
      forall w | w in windows
        ensures Matches(w.scope, a) <==> Matches(w.scope, b)
      {
        MatchesNormalized(w.scope, a, b);
      }
    }
    MatchingBy(windows, a, b, |windows|);
  }

  lemma SuffixOfTrimmed(model: string)
    ensures WithoutThinkingSuffix(Trim(model)) == WithoutThinkingSuffix(model)
  {
    TrimIdempotent(model);
  }

  lemma UnscopedMatchesAll(q: QuotaScope, model: string)
    ensures Unscoped(q) ==> Matches(q, model)
  {
  }
}
