/**
  What weight a candidate of internal/plugin/scheduler.go takes part with: the number it offers
  in decimal, however it is written, so that the shares of a run are the ones that were offered.
 */
module SchedulerWeights {
  import opened Text
  import opened Scheduler
  import opened SchedulerFairness
  import opened SchedulerTurns

  // ----- Writing numbers ----------------------------------------------------------------

  function Digit(d: nat): char
    requires d < 10
  {
    "0123456789"[d]
  }

  /** The decimal digits of a number, without leading zeros. */
  function Decimal(n: nat): string {
    if n < 10 then [Digit(n)] else Decimal(n / 10) + [Digit(n % 10)]
  }

  function Zeros(k: nat): string {
    if k == 0 then "" else Zeros(k - 1) + "0"
  }

  /** A number with any space around it, any number of leading zeros, and a plus sign if wanted. */
  function Written(left: string, plus: bool, zeros: nat, n: nat, right: string): string {
    left + (if plus then "+" else "") + Zeros(zeros) + Decimal(n) + right
  }

  /** The attribute offers this weight: it is blank for 1, or writes the number. */
  ghost predicate Offers(weight: string, n: nat) {
    || (n == 1 && Spaces(weight))
    || exists left, plus, zeros, right :: Spaces(left) && Spaces(right) && weight == Written(left, plus, zeros, n, right)
  }

  // ----- Reading what was written ---------------------------------------------------------

  lemma DigitReads(d: nat)
    requires d < 10
    ensures '0' <= Digit(d) <= '9' && Digit(d) as int - '0' as int == d
  {
  }

  lemma OneMoreDigit(front: string, c: char)
    requires Digits(front) && '0' <= c <= '9'
    ensures Digits(front + [c]) && DecimalValue(front + [c]) == 10 * DecimalValue(front) + (c as int - '0' as int)
  {
    var s := front + [c];
    assert s[..|s| - 1] == front && s[|s| - 1] == c;
  }

  lemma {:induction false} DecimalReads(zeros: nat, n: nat)
    ensures var s := Zeros(zeros) + Decimal(n); s != "" && Digits(s) && DecimalValue(s) == n
    decreases n
  {
    hide Digits, DecimalValue, Digit, Zeros;
    if n < 10 {
      ZerosRead(zeros);
      DigitReads(n);
      OneMoreDigit(Zeros(zeros), Digit(n));
    } else {
      DecimalReads(zeros, n / 10);
      DigitReads(n % 10);
      OneMoreDigit(Zeros(zeros) + Decimal(n / 10), Digit(n % 10));
      assert Zeros(zeros) + Decimal(n) == (Zeros(zeros) + Decimal(n / 10)) + [Digit(n % 10)];
    }
  }

  lemma {:induction false} ZerosRead(k: nat)
    ensures Digits(Zeros(k)) && DecimalValue(Zeros(k)) == 0
  {
    if k > 0 {
      ZerosRead(k - 1);
      assert Zeros(k)[..|Zeros(k)| - 1] == Zeros(k - 1);
    }
  }

  lemma DigitOf(c: char)
    requires '0' <= c <= '9'
    ensures var d := c as int - '0' as int; 0 <= d < 10 && Digit(d) == c
  {
  }

  lemma LastDigit(front: string, c: char)
    requires Digits(front + [c])
    ensures Digits(front) && '0' <= c <= '9'
    ensures DecimalValue(front + [c]) == 10 * DecimalValue(front) + (c as int - '0' as int)
  {
    var s := front + [c];
    assert forall i :: 0 <= i < |front| ==> front[i] == s[i];
    assert s[|s| - 1] == c;
    OneMoreDigit(front, c);
  }

  lemma DecimalNext(v: nat, c: char)
    requires '0' <= c <= '9'
    ensures var d := c as int - '0' as int;
            0 <= d && (v > 0 ==> Decimal(10 * v + d) == Decimal(v) + [c]) && (v == 0 ==> Decimal(d) == [c])
  {
    DigitOf(c);
    var d := c as int - '0' as int;
    assert (10 * v + d) / 10 == v && (10 * v + d) % 10 == d;
  }

  /** Digits that read as a positive number are its decimal form after some zeros. */
  lemma {:induction false} DigitsWrite(s: string, n: nat) returns (zeros: nat)
    requires Digits(s) && DecimalValue(s) == n > 0
    ensures s == Zeros(zeros) + Decimal(n)
    decreases |s|
  {
    hide DecimalValue, Digits, Zeros, Decimal;
    if s == "" {
      NothingReads();
    } else {
      var front, c := s[..|s| - 1], s[|s| - 1];
      assert s == front + [c];
      LastDigit(front, c);
      var v := DecimalValue(front);
      DecimalNext(v, c);
      if v == 0 {
        OnlyZeros(front);
        zeros := |front|;
      } else {
        zeros := DigitsWrite(front, v);
        Appended(Zeros(zeros), Decimal(v), c);
      }
    }
  }

  lemma NothingReads()
    ensures DecimalValue("") == 0
  {
  }

  lemma Appended(a: string, b: string, c: char)
    ensures (a + b) + [c] == a + (b + [c])
  {
  }

  lemma {:induction false} OnlyZeros(s: string)
    requires Digits(s) && DecimalValue(s) == 0
    ensures s == Zeros(|s|)
  {
    if s != "" {
      assert s == s[..|s| - 1] + [s[|s| - 1]];
      OnlyZeros(s[..|s| - 1]);
    }
  }

  lemma WrittenIsRead(left: string, plus: bool, zeros: nat, n: nat, right: string)
    requires Spaces(left) && Spaces(right)
    ensures ParseInt64(Trim(Written(left, plus, zeros, n, right))) == if n < TWO_63 then Some(n) else None
    ensures Trim(Written(left, plus, zeros, n, right)) != ""
  {
    hide Decimal, Zeros, DecimalValue, Trim, Digits, ParseInt64, Spaces;
    var digits := Zeros(zeros) + Decimal(n);
    DecimalReads(zeros, n);
    var core := (if plus then "+" else "") + digits;
    SignedParses(plus, digits, n);
    assert Written(left, plus, zeros, n, right) == left + core + right;
    TrimCuts(left, core, right);
  }

  lemma SignedParses(plus: bool, digits: string, n: nat)
    requires digits != "" && Digits(digits) && DecimalValue(digits) == n
    ensures var core := (if plus then "+" else "") + digits;
            core != "" && Trimmed(core) && ParseInt64(core) == if n < TWO_63 then Some(n) else None
  {
    hide DecimalValue;
    var core := (if plus then "+" else "") + digits;
    assert '0' <= digits[0] <= '9' && '0' <= digits[|digits| - 1] <= '9';
    if plus { assert core[1..] == digits; } else { assert core == digits; }
  }

  /** A string that parses to a positive number is an optional plus sign and digits with that value. */
  lemma ParsedShape(raw: string, n: nat) returns (plus: bool, digits: string)
    requires n > 0 && ParseInt64(raw) == Some(n)
    ensures raw == (if plus then "+" else "") + digits && Digits(digits) && DecimalValue(digits) == n && n < TWO_63
  {
    hide DecimalValue;
    plus := raw[0] == '+';
    digits := if plus then raw[1..] else raw;
  }

  lemma ReadWasWritten(weight: string, n: nat)
    requires n > 0 && ParseInt64(Trim(weight)) == Some(n)
    ensures n < TWO_63 && Offers(weight, n)
  {
    hide Decimal, Zeros, DecimalValue, Trim, Spaces, ParseInt64, Digits;
    var left, right := TrimLeaves(weight);
    var plus, digits := ParsedShape(Trim(weight), n);
    var zeros := DigitsWrite(digits, n);
    assert left + ((if plus then "+" else "") + (Zeros(zeros) + Decimal(n))) + right == Written(left, plus, zeros, n, right);
  }

  /** A candidate takes part with exactly the positive int64 it offers; every other attribute takes no part. */
  lemma WeightIsOffered(c: Candidate, n: nat)
    requires n > 0
    ensures CandidateWeight(c) == n <==> n < TWO_63 && Offers(c.weight, n)
  {
    hide Decimal, Zeros, DecimalValue, ParseInt64, Written, Trim, Spaces;
    if Trim(c.weight) == "" {
      BlankTrimsAway(c.weight);
    } else if CandidateWeight(c) == n {
      ReadWasWritten(c.weight, n);
    }
    if Spaces(c.weight) { BlankTrimsAway(c.weight); }
    if left, plus, zeros, right :| Spaces(left) && Spaces(right) && c.weight == Written(left, plus, zeros, n, right) {
      WrittenIsRead(left, plus, zeros, n, right);
    }
  }

  // ----- The weights of a pick ------------------------------------------------------------

  /** The k-th candidate is the last of its ID to offer a positive int64, and offers this one. */
  ghost predicate LastOffer(candidates: seq<Candidate>, id: string, k: nat, n: nat) {
    && k < |candidates| && candidates[k].id == id && 0 < n < TWO_63 && Offers(candidates[k].weight, n)
    && forall j, m: nat :: k < j < |candidates| && candidates[j].id == id && 0 < m < TWO_63 ==> !Offers(candidates[j].weight, m)
  }

  lemma {:induction false} LastDecides(candidates: seq<Candidate>, id: string) returns (k: nat)
    requires id in PositiveWeights(candidates)
    ensures LastOffer(candidates, id, k, PositiveWeights(candidates)[id])
  {
    hide CandidateWeight, Offers;
    var last := |candidates| - 1;
    var c, front := candidates[last], candidates[..last];
    if CandidateWeight(c) > 0 && c.id == id {
      k := last;
      WeightIsOffered(c, CandidateWeight(c));
    } else {
      k := LastDecides(front, id);
      forall j, m: nat | k < j < |candidates| && candidates[j].id == id && 0 < m < TWO_63
        ensures !Offers(candidates[j].weight, m)
      {
        if j < last { assert candidates[j] == front[j]; } else { WeightIsOffered(c, m); }
      }
    }
  }

  lemma {:induction false} OffererTakesPart(candidates: seq<Candidate>, k: nat, n: nat)
    requires k < |candidates| && 0 < n < TWO_63 && Offers(candidates[k].weight, n)
    ensures candidates[k].id in PositiveWeights(candidates)
  {
    hide CandidateWeight, Offers;
    var last := |candidates| - 1;
    if k == last { WeightIsOffered(candidates[k], n); } else { OffererTakesPart(candidates[..last], k, n); }
  }

  /** An ID takes part with weight n exactly if the last candidate of that ID that offers any weight offers n. */
  lemma WeightsAreOffered(candidates: seq<Candidate>, id: string, n: nat)
    ensures (id in PositiveWeights(candidates) && PositiveWeights(candidates)[id] == n) <==> exists k :: LastOffer(candidates, id, k, n)
  {
    hide PositiveWeights, Offers;
    if id in PositiveWeights(candidates) { var k := LastDecides(candidates, id); }
    if k: nat :| LastOffer(candidates, id, k, n) {
      OffererTakesPart(candidates, k, n);
      var j := LastDecides(candidates, id);
      assert j == k;
      WeightIsOffered(candidates[k], n);
      WeightIsOffered(candidates[k], PositiveWeights(candidates)[id]);
    }
  }

  /**
    So every window of W picks gives each of at least two distinct candidates exactly the weight
    the host offered for it, if the first window does, and certainly while no score overflows.
   */
  lemma SharesAreOffered(candidates: seq<Candidate>, k: nat, n: nat, start: nat)
    requires (forall c :: c in candidates ==> c.id != "") && Distinct(PositiveIds(candidates)) && |PositiveIds(candidates)| >= 2
    requires k < |candidates| && LastOffer(candidates, candidates[k].id, k, n)
    ensures var ids, ws, id := SortIds(PositiveIds(candidates)), PositiveWeights(candidates), candidates[k].id;
            && Contest(ids, ws) && id in ids && Weight(ids, ws) > 0
            && (Fits(ids, ws) ==> FairForEver(ids, ws))
            && (FairForEver(ids, ws) ==> Wins(ids, ws, start + Weight(ids, ws), id) - Wins(ids, ws, start, id) == n)
  {
    hide Offers, LastOffer, Less, Fits, Wins, CandidateWeight;
    var ids, ws, id := SortIds(PositiveIds(candidates)), PositiveWeights(candidates), candidates[k].id;
    SortIdsSorts(PositiveIds(candidates));
    ListedIds(candidates);
    WeightsAreOffered(candidates, id, n);
    FirstWindowDecides(ids, ws);
  }

  /** A list of distinct candidates with these IDs and weights, in any order. */
  ghost predicate Offering(list: seq<Candidate>, ids: seq<string>, ws: map<string, int>) {
    && (forall c :: c in list ==> c.id != "") && Distinct(PositiveIds(list)) && |PositiveIds(list)| >= 2
    && SortIds(PositiveIds(list)) == ids && PositiveWeights(list) == ws
  }

  lemma OfferingContests(list: seq<Candidate>, ids: seq<string>, ws: map<string, int>)
    requires Offering(list, ids, ws)
    ensures Contest(ids, ws)
  {
    hide Less, CandidateWeight;
    SortIdsSorts(PositiveIds(list));
    ListedIds(list);
  }

  /** The other keys stay as they are, and so do the other pools of a key that has room for one more. */
  ghost predicate OthersKept(before: map<string, Pools>, after: map<string, Pools>, scope: string, pool: string) {
    && (forall other :: other != scope ==> (other in after <==> other in before) && (other in after ==> after[other] == before[other]))
    && (scope in before && (|before[scope]| < 256 || pool in before[scope]) ==>
          forall other :: other in before[scope] && other != pool ==>
            scope in after && other in after[scope] && after[scope][other] == before[scope][other])
  }

  /** The pool of this key holds the run's state after k picks, or does not exist before the first. */
  ghost predicate Holds(keys: map<string, Pools>, scope: string, pool: string, ids: seq<string>, ws: map<string, int>, k: nat)
    requires Contest(ids, ws)
  {
    if k == 0 then scope !in keys || pool !in keys[scope]
    else scope in keys && pool in keys[scope] && keys[scope][pool] == Run(ids, ws, k)
  }

  method PickOnce(scheduler: SubsetScheduler, scope: string, pool: string, list: seq<Candidate>, ghost ids: seq<string>, ghost ws: map<string, int>,
                  ghost k: nat)
    returns (picked: string)
    requires Contest(ids, ws) && Offering(list, ids, ws) && Holds(scheduler.keys, scope, pool, ids, ws, k)
    modifies scheduler
    ensures picked == PickAt(ids, ws, k) && Holds(scheduler.keys, scope, pool, ids, ws, k + 1)
    ensures OthersKept(old(scheduler.keys), scheduler.keys, scope, pool)
  {
    hide Contest, PositiveIds, PositiveWeights, SortIds, Step;
    picked := scheduler.Pick(scope, pool, list);
  }

  /**
    As often as the same candidates compete in one pool, in whatever order the host lists them:
    the picks are those of the run.
   */
  method PickAgain(scheduler: SubsetScheduler, scope: string, pool: string, lists: seq<seq<Candidate>>, ghost ids: seq<string>, ghost ws: map<string, int>)
    returns (picks: seq<string>)
    requires lists != [] && forall i :: 0 <= i < |lists| ==> Offering(lists[i], ids, ws)
    requires scope !in scheduler.keys || pool !in scheduler.keys[scope]
    modifies scheduler
    ensures Contest(ids, ws) && |picks| == |lists| && forall i :: 0 <= i < |lists| ==> picks[i] == PickAt(ids, ws, i)
    ensures OthersKept(old(scheduler.keys), scheduler.keys, scope, pool)
  {
    hide Contest, Offering, OthersKept, Holds, PickAt, Step, Run;
    OfferingContests(lists[0], ids, ws);
    picks := [];
    assert Holds(scheduler.keys, scope, pool, ids, ws, 0) by { NotYetHeld(scheduler.keys, scope, pool, ids, ws); }
    OthersAreKept(scheduler.keys, scope, pool);
    for i := 0 to |lists|
      invariant |picks| == i && forall j :: 0 <= j < i ==> picks[j] == PickAt(ids, ws, j)
      invariant Holds(scheduler.keys, scope, pool, ids, ws, i)
      invariant OthersKept(old(scheduler.keys), scheduler.keys, scope, pool) && (i == 0 ==> scheduler.keys == old(scheduler.keys))
    {
      ghost var before := scheduler.keys;
      var picked := PickOnce(scheduler, scope, pool, lists[i], ids, ws, i);
      KeptOn(old(scheduler.keys), before, scheduler.keys, scope, pool, ids, ws, i);
      picks := picks + [picked];
    }
  }

  lemma NotYetHeld(keys: map<string, Pools>, scope: string, pool: string, ids: seq<string>, ws: map<string, int>)
    requires Contest(ids, ws) && (scope !in keys || pool !in keys[scope])
    ensures Holds(keys, scope, pool, ids, ws, 0)
  {
  }

  lemma OthersAreKept(keys: map<string, Pools>, scope: string, pool: string)
    ensures OthersKept(keys, keys, scope, pool)
  {
  }

  lemma KeptOn(a: map<string, Pools>, b: map<string, Pools>, c: map<string, Pools>, scope: string, pool: string,
               ids: seq<string>, ws: map<string, int>, k: nat)
    requires Contest(ids, ws) && Holds(b, scope, pool, ids, ws, k) && (k == 0 ==> a == b)
    requires OthersKept(a, b, scope, pool) && OthersKept(b, c, scope, pool)
    ensures OthersKept(a, c, scope, pool)
  {
    hide Contest, Run;
  }

  lemma {:induction false} ListedIds(candidates: seq<Candidate>)
    ensures forall id :: id in PositiveIds(candidates) ==> exists c :: c in candidates && c.id == id
  {
    hide CandidateWeight;
    if candidates != [] {
      ListedIds(candidates[..|candidates| - 1]);
      assert candidates[|candidates| - 1] in candidates;
    }
  }

  // ----- What a pool remembers --------------------------------------------------------

  /** Some candidate is offered with another weight than the pool has on record for it. */
  ghost predicate Reweighted(p: PoolState, ids: seq<string>, ws: map<string, int>)
    requires forall id :: id in ids ==> id in ws
  {
    exists id :: id in ids && id in p.weights && p.weights[id] != ws[id]
  }

  /**
    Before a pick, all scores start over if a weight on record has changed; otherwise, if more
    than 1024 are kept, those of all but the candidates are forgotten, with their weights. The
    weights offered are on record afterwards, and no score counts for more than it did.
   */
  lemma ReadyMeans(p: PoolState, ids: seq<string>, ws: map<string, int>)
    requires forall id :: id in ids ==> id in ws
    ensures var r := Prepared(p, ids, ws);
            && (Reweighted(p, ids, ws) ==> r.current == map[])
            && (!Reweighted(p, ids, ws) && |p.current| <= 1024 ==> r.current == p.current)
            && (!Reweighted(p, ids, ws) && |p.current| > 1024 ==>
                  (forall id :: id in r.current <==> id in ids) &&
                  forall id :: id in ids ==> r.current[id] == if id in p.current then p.current[id] else 0)
            && (forall id :: id in ids ==> id in r.weights && r.weights[id] == ws[id])
            && (forall id :: id in r.weights && id !in ids ==> id in p.weights && r.weights[id] == p.weights[id])
            && (Reweighted(p, ids, ws) || |p.current| <= 1024 ==> forall id :: id in p.weights ==> id in r.weights)
            && (!Reweighted(p, ids, ws) && |p.current| > 1024 ==> forall id :: id in r.weights ==> id in ids)
  {
  }
}
