/**
  Matching reference prices by model name, internal/billing/reference_prices.go: a canonical
  source decides alone, otherwise every provider has to agree.
 */
module PriceMatching {
  import opened Text
  import opened ModelNames

  datatype Tier = Tier(threshold: int, input: real, output: real, cacheRead: Option<real>, cacheWrite: Option<real>)

  datatype Rates = Rates(input: real, output: real, cacheRead: Option<real>, cacheWrite: Option<real>, longContext: Option<Tier>)

  /** One provider's entry; no rates when its cost is absent or cannot be represented. */
  datatype ReferencePrice = ReferencePrice(providerID: string, modelID: string, canonical: bool, rates: Option<Rates>)

  const NO_PRICE := ReferencePrice("", "", false, None)

  function ModelKey(modelID: string): string {
    var key := NormalizeModelID(modelID);
    key[LastIndex(key, '/') + 1..]
  }

  // ----- What a price set says about a name -------------------------------------------

  ghost predicate Speaks(prices: set<ReferencePrice>, key: string) {
    exists p :: p in prices && p.canonical && ModelKey(p.modelID) == key
  }

  /** The entries that decide: the canonical ones if there are any, else all of the name. */
  ghost predicate Decides(prices: set<ReferencePrice>, key: string, p: ReferencePrice) {
    p in prices && ModelKey(p.modelID) == key && (Speaks(prices, key) ==> p.canonical)
  }

  /** The name is priced at these rates: some entry decides, and all that do give exactly them. */
  ghost predicate PricedAt(prices: set<ReferencePrice>, key: string, rates: Rates) {
    && key != ""
    && (exists p :: Decides(prices, key, p))
    && forall p :: Decides(prices, key, p) ==> p.rates == Some(rates)
  }

  ghost predicate Lists(prices: set<ReferencePrice>, key: string) {
    exists p :: p in prices && ModelKey(p.modelID) == key
  }

  /** A request's names in order of precedence: the first one with any entry decides, conflicts included. */
  ghost predicate RequestPricedAt(prices: set<ReferencePrice>, keys: seq<string>, rates: Rates) {
    exists i :: 0 <= i < |keys| && Lists(prices, keys[i]) && (forall j :: 0 <= j < i ==> !Lists(prices, keys[j])) &&
                PricedAt(prices, keys[i], rates)
  }

  /** An answer is right when it finds a price exactly if the set has one, at its rates. */
  ghost predicate RightFor(prices: set<ReferencePrice>, key: string, found: bool, price: ReferencePrice) {
    && (found ==> price.rates.Some? && PricedAt(prices, key, price.rates.value))
    && (!found ==> forall rates :: !PricedAt(prices, key, rates))
  }

  ghost predicate Right(prices: set<ReferencePrice>, keys: seq<string>, found: bool, price: ReferencePrice) {
    && (found ==> price.rates.Some? && RequestPricedAt(prices, keys, price.rates.value))
    && (!found ==> forall rates :: !RequestPricedAt(prices, keys, rates))
  }

  // ----- The loops that find it -------------------------------------------------------

  /** matchReferencePriceKey: in whatever order the candidates come, the answer is the set's. */
  method MatchKey(key: string, candidates: seq<ReferencePrice>) returns (price: ReferencePrice, found: bool)
    ensures RightFor(SetOf(candidates), key, found, price)
    ensures if found then price in candidates else price == NO_PRICE
  {
    hide ModelKey;
    ghost var prices := SetOf(candidates);
    if key == "" { return NO_PRICE, false; }
    var canonical := AnyCanonical(key, candidates);
    price, found := NO_PRICE, false;
    for i := 0 to |candidates|
      invariant if found then price in candidates && Decides(prices, key, price) && price.rates.Some? else price == NO_PRICE
      invariant forall j :: 0 <= j < i && Decides(prices, key, candidates[j]) ==> found && candidates[j].rates == price.rates
    {
      var p := candidates[i];
      assert p in prices;
      if ModelKey(p.modelID) != key || (canonical && !p.canonical) { continue; }
      assert Decides(prices, key, p);
      if p.rates.None? {
        return NO_PRICE, false;
      }
      if found && price.rates != p.rates {
        assert Decides(prices, key, price);
        return NO_PRICE, false;
      }
      if !found {
        price, found := p, true;
      }
    }
    forall p | Decides(prices, key, p)
      ensures found && p.rates == price.rates
    {
      var j :| 0 <= j < |candidates| && candidates[j] == p;
    }
  }

  method AnyCanonical(key: string, candidates: seq<ReferencePrice>) returns (canonical: bool)
    ensures canonical <==> Speaks(SetOf(candidates), key)
  {
    hide ModelKey;
    for i := 0 to |candidates|
      invariant forall j :: 0 <= j < i ==> !(candidates[j].canonical && ModelKey(candidates[j].modelID) == key)
    {
      if candidates[i].canonical && ModelKey(candidates[i].modelID) == key {
        assert candidates[i] in SetOf(candidates);
        return true;
      }
    }
    return false;
  }

  method AnyListed(key: string, prices: seq<ReferencePrice>) returns (listed: bool)
    ensures listed <==> Lists(SetOf(prices), key)
  {
    hide ModelKey;
    for i := 0 to |prices|
      invariant forall j :: 0 <= j < i ==> ModelKey(prices[j].modelID) != key
    {
      if ModelKey(prices[i].modelID) == key {
        assert prices[i] in SetOf(prices);
        return true;
      }
    }
    return false;
  }

  /** matchReferencePriceKeys. */
  method MatchKeys(prices: seq<ReferencePrice>, keys: seq<string>) returns (price: ReferencePrice, found: bool)
    ensures Right(SetOf(prices), keys, found, price) && (found ==> price in prices)
  {
    hide PricedAt, Lists, ModelKey, SetOf;
    for i := 0 to |keys|
      invariant forall j :: 0 <= j < i ==> !Lists(SetOf(prices), keys[j])
    {
      var listed := AnyListed(keys[i], prices);
      if listed {
        price, found := MatchKey(keys[i], prices);
        return;
      }
    }
    return NO_PRICE, false;
  }

  // ----- Candidates stand for the whole set -------------------------------------------

  /** What the database returns for some names: all their entries, in any order. */
  ghost predicate Selected(prices: set<ReferencePrice>, keys: seq<string>, candidates: seq<ReferencePrice>) {
    forall p :: p in candidates <==> p in prices && ModelKey(p.modelID) in keys
  }

  lemma SelectedPrices(prices: set<ReferencePrice>, keys: seq<string>, candidates: seq<ReferencePrice>, key: string)
    requires Selected(prices, keys, candidates) && key in keys
    ensures Lists(SetOf(candidates), key) <==> Lists(prices, key)
    ensures forall rates :: PricedAt(SetOf(candidates), key, rates) <==> PricedAt(prices, key, rates)
  {
    hide ModelKey;
    forall p
      ensures Decides(SetOf(candidates), key, p) <==> Decides(prices, key, p)
    {
    }
  }

  /** Matching among the candidates of a request's names is matching among all prices. */
  lemma CandidatesSuffice(prices: set<ReferencePrice>, keys: seq<string>, candidates: seq<ReferencePrice>, found: bool, price: ReferencePrice)
    requires Selected(prices, keys, candidates) && Right(SetOf(candidates), keys, found, price)
    ensures Right(prices, keys, found, price)
  {
    hide PricedAt, Lists, Selected, SetOf;
    forall i | 0 <= i < |keys|
      ensures Lists(SetOf(candidates), keys[i]) <==> Lists(prices, keys[i])
      ensures forall rates :: PricedAt(SetOf(candidates), keys[i], rates) <==> PricedAt(prices, keys[i], rates)
    {
      SelectedPrices(prices, keys, candidates, keys[i]);
    }
    forall rates
      ensures RequestPricedAt(SetOf(candidates), keys, rates) <==> RequestPricedAt(prices, keys, rates)
    {
    }
  }

  /** A price set has at most one answer for a request. */
  lemma OneAnswer(prices: set<ReferencePrice>, keys: seq<string>, a: Rates, b: Rates)
    requires RequestPricedAt(prices, keys, a) && RequestPricedAt(prices, keys, b)
    ensures a == b
  {
    hide ModelKey;
    var i :| 0 <= i < |keys| && Lists(prices, keys[i]) && (forall j :: 0 <= j < i ==> !Lists(prices, keys[j])) && PricedAt(prices, keys[i], a);
    var k :| 0 <= k < |keys| && Lists(prices, keys[k]) && (forall j :: 0 <= j < k ==> !Lists(prices, keys[j])) && PricedAt(prices, keys[k], b);
    assert i == k;
    var p :| Decides(prices, keys[i], p);
  }

  // ----- The names a request is looked up by ------------------------------------------

  function KeyOf(model: string): string {
    ModelKey(WithoutThinkingSuffix(model))
  }

  /** referencePriceKeys: the upstream model first, then the requested one unless left open. */
  function RequestKeys(upstream: string, requested: string): (keys: seq<string>)
    ensures |keys| <= 2 && "" !in keys && (|keys| == 2 ==> keys[0] != keys[1])
  {
    var first := if KeyOf(upstream) != "" then [KeyOf(upstream)] else [];
    if IsAuto(requested) || KeyOf(requested) == "" || KeyOf(requested) in first then first
    else first + [KeyOf(requested)]
  }

  /** The key the cache uses: the names joined by a NUL character. */
  function CacheKey(keys: seq<string>): string
    requires |keys| <= 2
  {
    if keys == [] then "" else if |keys| == 1 then keys[0] else keys[0] + "\0" + keys[1]
  }

  /** What a request's names look like: lower case, without a slash or trailing space. */
  predicate RealName(key: string) {
    key != "" && '/' !in key && Lower(key) == key && !IsSpace(key[|key| - 1])
  }

  predicate NameList(keys: seq<string>) {
    |keys| <= 2 && (forall i :: 0 <= i < |keys| ==> RealName(keys[i])) && (|keys| == 2 ==> keys[0] != keys[1])
  }

  lemma KeyIsReal(model: string)
    ensures KeyOf(model) == "" || RealName(KeyOf(model))
  {
    hide Trim, WithoutThinkingSuffix;
    var t := Trim(WithoutThinkingSuffix(model));
    TrimIsTrimmed(WithoutThinkingSuffix(model));
    var k := KeyOf(model);
    if k != "" {
      assert k[|k| - 1] == LowerChar(t[|t| - 1]);
      assert Lower(k) == k;
    }
  }

  /** Every request is looked up by a list of such names. */
  lemma RequestNames(upstream: string, requested: string)
    ensures NameList(RequestKeys(upstream, requested))
  {
    hide KeyOf, IsAuto, RealName;
    KeyIsReal(upstream);
    KeyIsReal(requested);
  }

  /** One way to spell a model of this name: with a provider and an option. */
  function Spelled(key: string): string {
    "/" + key + "(x)"
  }

  lemma SpelledIsKey(key: string)
    requires RealName(key)
    ensures KeyOf(Spelled(key)) == key && ModelKey("/" + key) == key && !IsAuto(Spelled(key))
  {
    hide WithoutThinkingSuffix;
    var base := "/" + key;
    assert Spelled(key) == base + "(x)";
    OptionHides(base);
    TrimTrimmed(base);
    assert Lower(base) == base;
    SlashFirst(key);
    assert base[0] != 'a' && Lower("auto")[0] == 'a';
  }

  lemma SlashFirst(key: string)
    requires '/' !in key
    ensures var base := "/" + key; LastIndex(base, '/') == 0 && base[1..] == key
  {
    var base := "/" + key;
    assert base[0] == '/' && base[1..] == key;
  }

  lemma RealIsNotEmpty(key: string)
    requires RealName(key)
    ensures key != ""
  {
  }

  /** And every list of such names is some request's. */
  function RequestFor(keys: seq<string>): (request: (string, string))
    requires NameList(keys)
  {
    if keys == [] then ("", "") else (Spelled(keys[0]), if |keys| == 2 then Spelled(keys[1]) else "")
  }

  lemma RequestForIsRight(keys: seq<string>)
    requires NameList(keys)
    ensures RequestKeys(RequestFor(keys).0, RequestFor(keys).1) == keys
  {
    hide KeyOf, IsAuto, RealName, Spelled;
    NothingNamed();
    if |keys| > 0 {
      SpelledIsKey(keys[0]);
      RealIsNotEmpty(keys[0]);
      OneName(Spelled(keys[0]), keys[0]);
      assert |keys| == 1 ==> keys == [keys[0]];
    }
    if |keys| == 2 {
      SpelledIsKey(keys[1]);
      RealIsNotEmpty(keys[1]);
      assert keys == [keys[0]] + [keys[1]];
    }
  }

  lemma OneName(upstream: string, key: string)
    requires KeyOf(upstream) == key != ""
    ensures RequestKeys(upstream, "") == [key]
  {
    hide KeyOf, IsAuto;
    NothingNamed();
  }

  lemma NothingNamed()
    ensures KeyOf("") == ""
  {
  }

  // ----- Requests that share a cache key ------------------------------------------------

  /** A name that reads as two names joined. */
  predicate SplitsAt(name: string, i: int) {
    0 < i < |name| - 1 && name[i] == '\0' && !IsSpace(name[i - 1]) && name[..i] != name[i + 1..]
  }

  predicate Ambiguous(keys: seq<string>) {
    |keys| == 2 || (|keys| == 1 && exists i :: 0 < i < |keys[0]| && SplitsAt(keys[0], i))
  }

  /** Names that share a cache key with others are ambiguous. */
  lemma SharingIsAmbiguous(a: seq<string>, b: seq<string>)
    requires NameList(a) && NameList(b) && a != b && CacheKey(a) == CacheKey(b)
    ensures Ambiguous(a)
  {
    hide Lower;
    if |a| == 1 && |b| == 2 {
      var i := |b[0]|;
      assert CacheKey(b)[i] == '\0' && CacheKey(b)[..i] == b[0] && CacheKey(b)[i + 1..] == b[1];
      assert SplitsAt(a[0], i);
    }
  }

  function Joined(a: string, b: string): string {
    a + "\0" + b
  }

  /** Two names look like one when joined. */
  lemma JoinedIsReal(a: string, b: string)
    requires RealName(a) && RealName(b)
    ensures RealName(Joined(a, b)) && CacheKey([Joined(a, b)]) == CacheKey([a, b]) && [Joined(a, b)] != [a, b]
  {
    var x := Joined(a, b);
    forall i | 0 <= i < |x|
      ensures LowerChar(x[i]) == x[i] && x[i] != '/'
    {
      assert i < |a| ==> x[i] == Lower(a)[i] && a[i] in a;
      assert i > |a| ==> x[i] == Lower(b)[i - |a| - 1] && b[i - |a| - 1] in b;
    }
    assert Lower(x) == x;
    assert x[|x| - 1] == b[|b| - 1];
    assert |[x]| != |[a, b]|;
  }

  lemma SplitIsReal(name: string, i: int)
    requires RealName(name) && SplitsAt(name, i)
    ensures NameList([name[..i], name[i + 1..]]) && CacheKey([name[..i], name[i + 1..]]) == name
  {
    var a, b := name[..i], name[i + 1..];
    assert Lower(a) == Lower(name)[..i] && Lower(b) == Lower(name)[i + 1..];
    assert a[|a| - 1] == name[i - 1] && b[|b| - 1] == name[|name| - 1];
    assert a + "\0" + b == name;
  }

  /** Some other names have the same cache key. */
  ghost function Other(keys: seq<string>): (others: seq<string>)
    requires NameList(keys) && Ambiguous(keys)
    ensures NameList(others) && |others| != |keys| && CacheKey(others) == CacheKey(keys)
  {
    if |keys| == 2 then
      JoinedIsReal(keys[0], keys[1]);
      [Joined(keys[0], keys[1])]
    else
      var i :| 0 < i < |keys[0]| && SplitsAt(keys[0], i);
      SplitIsReal(keys[0], i);
      [keys[0][..i], keys[0][i + 1..]]
  }

  /** Another request shares the cache key exactly when this one has two names, or one that reads as two. */
  lemma SharedKeys(upstream: string, requested: string)
    ensures var keys := RequestKeys(upstream, requested);
            (exists u, r :: RequestKeys(u, r) != keys && CacheKey(RequestKeys(u, r)) == CacheKey(keys)) <==> Ambiguous(keys)
  {
    hide RequestKeys, CacheKey, NameList, Ambiguous, RequestFor;
    var keys := RequestKeys(upstream, requested);
    RequestNames(upstream, requested);
    if u, r :| RequestKeys(u, r) != keys && CacheKey(RequestKeys(u, r)) == CacheKey(keys) {
      RequestNames(u, r);
      SharingIsAmbiguous(keys, RequestKeys(u, r));
    }
    if Ambiguous(keys) {
      var others := Other(keys);
      RequestForIsRight(others);
      assert RequestKeys(RequestFor(others).0, RequestFor(others).1) == others;
    }
  }

  predicate NulFree(keys: seq<string>) {
    forall i :: 0 <= i < |keys| ==> '\0' !in keys[i]
  }

  lemma FirstNul(a: seq<string>, b: seq<string>)
    requires |a| == 2 && |b| == 2 && NulFree(a) && CacheKey(a) == CacheKey(b)
    ensures a == b
  {
    var key, i, j := CacheKey(a), |a[0]|, |b[0]|;
    assert key[i] == '\0' && key[..i] == a[0] && key[i + 1..] == a[1];
    assert key[j] == '\0' && key[..j] == b[0] && key[j + 1..] == b[1];
    assert i == j && a == [a[0], a[1]] && b == [b[0], b[1]];
  }

  /** Two names without NUL characters share their key with their joined name alone. */
  lemma OnlyJoined(a: seq<string>, b: seq<string>)
    requires NameList(a) && NameList(b) && |a| == 2 && NulFree(a) && CacheKey(a) == CacheKey(b) && a != b
    ensures b == [Joined(a[0], a[1])]
  {
    hide RealName;
    if |b| == 2 {
      FirstNul(a, b);
    } else {
      assert CacheKey(a)[|a[0]|] == '\0';
      assert |b| == 1 && b == [b[0]];
    }
  }

  /** The price set that knows the first of two names answers their request, and not the one for the joined name. */
  lemma FirstNamePriced(pair: seq<string>, single: seq<string>, rates: Rates)
    requires NameList(pair) && NameList(single) && |pair| == 2 && |single| != 2 && CacheKey(pair) == CacheKey(single)
    ensures var prices := {ReferencePrice("p", "/" + pair[0], true, Some(rates))};
            RequestPricedAt(prices, pair, rates) && forall r :: !RequestPricedAt(prices, single, r)
  {
    hide RealName, ModelKey;
    RealIsNotEmpty(pair[0]);
    var p := ReferencePrice("p", "/" + pair[0], true, Some(rates));
    SpelledIsKey(pair[0]);
    assert Decides({p}, pair[0], p);
    assert Lists({p}, pair[0]) && PricedAt({p}, pair[0], rates);
    assert |CacheKey(pair)| > |pair[0]|;
    assert forall i :: 0 <= i < |single| ==> !Lists({p}, single[i]);
  }
}
