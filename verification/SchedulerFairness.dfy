/**
  What runs of the weighted round-robin step guarantee: exact shares per period, bounded
  lag, no starvation, periodicity, and conservation of the score sum, together with the
  int64 range these rest on.
 */
module SchedulerFairness {
  import opened Text
  import opened Scheduler

  /** A set of competing candidates: at least two distinct non-blank IDs in ID order, positive weights. */
  ghost predicate Contest(ids: seq<string>, ws: map<string, int>) {
    |ids| >= 2 && SortedIds(ids) && Distinct(ids) && Weighted(ids, ws)
  }

  ghost predicate Weighted(ids: seq<string>, ws: map<string, int>) {
    forall id :: id in ids ==> id != "" && id in ws && 0 < ws[id] < TWO_63
  }

  /** The sum of what m holds for the first n IDs. */
  ghost function SumTo(m: map<string, int>, ids: seq<string>, n: nat): int
    requires n <= |ids|
  {
    if n == 0 then 0 else SumTo(m, ids, n - 1) + Get(m, ids[n - 1])
  }

  ghost function SumOf(m: map<string, int>, ids: seq<string>): int {
    SumTo(m, ids, |ids|)
  }

  /** W, the sum of the weights. */
  ghost function Weight(ids: seq<string>, ws: map<string, int>): int {
    SumOf(ws, ids)
  }

  /** The pool after k picks of the same contest, starting fresh. */
  ghost function Run(ids: seq<string>, ws: map<string, int>, k: nat): PoolState
    requires Contest(ids, ws)
  {
    if k == 0 then FRESH else Step(Run(ids, ws, k - 1), ids, ws).0
  }

  /** The k-th pick of that run, counted from 0. */
  ghost function PickAt(ids: seq<string>, ws: map<string, int>, k: nat): string
    requires Contest(ids, ws)
  {
    Step(Run(ids, ws, k), ids, ws).1
  }

  /** How often id was chosen in the first k picks. */
  ghost function Wins(ids: seq<string>, ws: map<string, int>, k: nat, id: string): nat
    requires Contest(ids, ws)
  {
    if k == 0 then 0 else Wins(ids, ws, k - 1, id) + (if PickAt(ids, ws, k - 1) == id then 1 else 0)
  }

  /** No score of the run ever leaves int64 when its weight is added. */
  ghost predicate Fits(ids: seq<string>, ws: map<string, int>)
    requires Contest(ids, ws)
  {
    && Weight(ids, ws) < TWO_63
    && forall k: nat, id :: id in ids ==> Get(Run(ids, ws, k).current, id) + ws[id] < TWO_63
  }

  /** Weights so small that this is certain: ((n-1)^2/n) W + w fits for each weight w. */
  ghost predicate Room(ids: seq<string>, ws: map<string, int>) {
    forall id :: id in ids && id in ws ==> (|ids| - 1) * (|ids| - 1) * Weight(ids, ws) + |ids| * ws[id] < |ids| * TWO_63
  }

  // ----- Sums over distinct IDs -------------------------------------------------------

  lemma {:induction false} SumUntouched(m: map<string, int>, m': map<string, int>, ids: seq<string>, n: nat)
    requires n <= |ids| && forall i :: 0 <= i < n ==> Get(m, ids[i]) == Get(m', ids[i])
    ensures SumTo(m, ids, n) == SumTo(m', ids, n)
  {
    hide Get;
    if n > 0 { SumUntouched(m, m', ids, n - 1); }
  }

  lemma {:induction false} SumUpdate(m: map<string, int>, ids: seq<string>, n: nat, k: nat, v: int)
    requires k < n <= |ids| && Distinct(ids)
    ensures SumTo(m[ids[k] := v], ids, n) == SumTo(m, ids, n) - Get(m, ids[k]) + v
  {
    if k == n - 1 {
      SumUntouched(m, m[ids[k] := v], ids, n - 1);
    } else {
      SumUpdate(m, ids, n - 1, k, v);
      assert ids[k] != ids[n - 1];
    }
  }

  lemma {:induction false} SumAtLeast(m: map<string, int>, ids: seq<string>, n: nat, c: int, low: int)
    requires n <= |ids| && forall i :: 0 <= i < n ==> c * Get(m, ids[i]) >= -low
    ensures c * SumTo(m, ids, n) >= -(n * low)
  {
    hide Get;
    if n > 0 {
      SumAtLeast(m, ids, n - 1, c, low);
      assert n * low == (n - 1) * low + low;
      assert c * (SumTo(m, ids, n - 1) + Get(m, ids[n - 1])) == c * SumTo(m, ids, n - 1) + c * Get(m, ids[n - 1]);
    }
  }

  /** What keeps every value from falling low keeps each one from rising high above the sum. */
  lemma {:induction false} SumCaps(m: map<string, int>, ids: seq<string>, n: nat, c: int, low: int, k: nat)
    requires k < n <= |ids| && forall i :: 0 <= i < n ==> c * Get(m, ids[i]) >= -low
    ensures c * Get(m, ids[k]) <= c * SumTo(m, ids, n) + (n - 1) * low
  {
    hide Get;
    SumAtLeast(m, ids, n - 1, c, low);
    assert c * (SumTo(m, ids, n - 1) + Get(m, ids[n - 1])) == c * SumTo(m, ids, n - 1) + c * Get(m, ids[n - 1]);
    if k < n - 1 {
      SumCaps(m, ids, n - 1, c, low, k);
      assert (n - 1) * low == (n - 2) * low + low;
    }
  }

  lemma {:induction false} SumBelow(m: map<string, int>, ids: seq<string>, n: nat, top: int)
    requires n <= |ids| && forall i :: 0 <= i < n ==> Get(m, ids[i]) <= top
    ensures SumTo(m, ids, n) <= n * top
  {
    if n > 0 {
      SumBelow(m, ids, n - 1, top);
      assert n * top == (n - 1) * top + top;
    }
  }

  lemma {:induction false} SumZeroAllZero(m: map<string, int>, ids: seq<string>, n: nat)
    requires n <= |ids| && (forall i :: 0 <= i < n ==> Get(m, ids[i]) >= 0) && SumTo(m, ids, n) <= 0
    ensures forall i :: 0 <= i < n ==> Get(m, ids[i]) == 0
  {
    if n > 0 {
      SumAtLeast(m, ids, n - 1, 1, 0);
      SumZeroAllZero(m, ids, n - 1);
    }
  }

  lemma {:induction false} SumAdds(m: map<string, int>, a: map<string, int>, b: map<string, int>, ids: seq<string>, n: nat)
    requires n <= |ids| && forall i :: 0 <= i < n ==> Get(m, ids[i]) == Get(a, ids[i]) + Get(b, ids[i])
    ensures SumTo(m, ids, n) == SumTo(a, ids, n) + SumTo(b, ids, n)
  {
    if n > 0 { SumAdds(m, a, b, ids, n - 1); }
  }

  lemma {:induction false} WeightTo(ids: seq<string>, ws: map<string, int>, n: nat)
    requires n <= |ids| && Weighted(ids, ws)
    ensures n <= SumTo(ws, ids, n) <= Weight(ids, ws)
    ensures forall i :: 0 <= i < n ==> ws[ids[i]] <= SumTo(ws, ids, n)
    decreases |ids| - n, n
  {
    if n > 0 { WeightBelow(ids, ws, n); }
    if n < |ids| { WeightTo(ids, ws, n + 1); }
  }

  lemma {:induction false} WeightBelow(ids: seq<string>, ws: map<string, int>, n: nat)
    requires n <= |ids| && Weighted(ids, ws)
    ensures n <= SumTo(ws, ids, n)
    ensures forall i :: 0 <= i < n ==> ws[ids[i]] <= SumTo(ws, ids, n)
  {
    if n > 0 { WeightBelow(ids, ws, n - 1); }
  }

  lemma WeightCovers(ids: seq<string>, ws: map<string, int>)
    requires Weighted(ids, ws)
    ensures Weight(ids, ws) >= |ids|
    ensures forall id :: id in ids ==> ws[id] <= Weight(ids, ws)
  {
    WeightBelow(ids, ws, |ids|);
  }

  lemma {:induction false} EmptySum(ids: seq<string>, n: nat)
    requires n <= |ids|
    ensures SumTo(map[], ids, n) == 0
  {
    if n > 0 { EmptySum(ids, n - 1); }
  }

  // ----- One step ---------------------------------------------------------------------

  /** A score after its weight is added, before the winner pays. */
  ghost function Raised(current: map<string, int>, ws: map<string, int>, id: string): int
    requires id in ws
  {
    Wrap(Get(current, id) + ws[id])
  }

  /** a is better placed than b: a higher raised score, or an equal one and a smaller ID. */
  ghost predicate Better(current: map<string, int>, ws: map<string, int>, a: string, b: string)
    requires a in ws && b in ws
  {
    || Raised(current, ws, b) < Raised(current, ws, a)
    || (Raised(current, ws, b) == Raised(current, ws, a) && Less(a, b))
  }

  /** id is one of the first n candidates and better placed than every other of them. */
  ghost predicate WinnerTo(current: map<string, int>, ids: seq<string>, ws: map<string, int>, n: nat, id: string)
    requires n <= |ids| && forall x :: x in ids ==> x in ws
  {
    && (exists i :: 0 <= i < n && ids[i] == id)
    && forall i :: 0 <= i < n && ids[i] != id ==> Better(current, ws, id, ids[i])
  }

  ghost predicate Winner(current: map<string, int>, ids: seq<string>, ws: map<string, int>, id: string)
    requires forall x :: x in ids ==> x in ws
  {
    id in ids && forall x :: x in ids && x != id ==> Better(current, ws, id, x)
  }

  lemma {:induction false} ScanScores(current: map<string, int>, ids: seq<string>, ws: map<string, int>, n: nat)
    requires n <= |ids| && Distinct(ids) && forall x :: x in ids ==> x in ws
    ensures forall i :: 0 <= i < n ==> Get(ScanTo(current, ids, ws, n).current, ids[i]) == Raised(current, ws, ids[i])
    ensures forall i :: n <= i < |ids| ==> Get(ScanTo(current, ids, ws, n).current, ids[i]) == Get(current, ids[i])
  {
    hide Wrap, Less;
    if n > 0 { ScanScores(current, ids, ws, n - 1); }
  }

  /** The loop has found the winner of the first n candidates. */
  ghost predicate Found(f: Scan, current: map<string, int>, ids: seq<string>, ws: map<string, int>, n: nat)
    requires n <= |ids| && forall x :: x in ids ==> x in ws
  {
    f.selected in ws && WinnerTo(current, ids, ws, n, f.selected) && f.highest == Raised(current, ws, f.selected)
  }

  lemma {:induction false} ScanFinds(current: map<string, int>, ids: seq<string>, ws: map<string, int>, n: nat)
    requires 0 < n <= |ids| && Distinct(ids) && forall x :: x in ids ==> x != "" && x in ws
    ensures Found(ScanTo(current, ids, ws, n), current, ids, ws, n)
  {
    hide Wrap, Less, ScanTo, ScanOne, Raised, Found;
    ScanToUnfolds(current, ids, ws, n);
    RaisedAfterScan(current, ids, ws, n - 1);
    if n > 1 {
      ScanFinds(current, ids, ws, n - 1);
      FoundOneMore(ScanTo(current, ids, ws, n - 1), current, ids, ws, n - 1);
    } else {
      FoundFirst(current, ids, ws);
    }
  }

  lemma RaisedAfterScan(current: map<string, int>, ids: seq<string>, ws: map<string, int>, n: nat)
    requires n < |ids| && Distinct(ids) && forall x :: x in ids ==> x in ws
    ensures Wrap(Get(ScanTo(current, ids, ws, n).current, ids[n]) + ws[ids[n]]) == Raised(current, ws, ids[n])
  {
    hide Wrap, Less, ScanTo;
    ScanScores(current, ids, ws, n);
  }

  lemma FoundFirst(current: map<string, int>, ids: seq<string>, ws: map<string, int>)
    requires ids != [] && Distinct(ids) && forall x :: x in ids ==> x != "" && x in ws
    ensures Found(ScanTo(current, ids, ws, 1), current, ids, ws, 1)
  {
    hide Wrap, Less;
    assert ScanTo(current, ids, ws, 0) == Scan(current, 0, "", 0);
  }

  lemma ScanToUnfolds(current: map<string, int>, ids: seq<string>, ws: map<string, int>, n: nat)
    requires 0 < n <= |ids| && forall x :: x in ids ==> x in ws
    ensures ScanTo(current, ids, ws, n) == ScanOne(ScanTo(current, ids, ws, n - 1), ids[n - 1], ws[ids[n - 1]])
  {
    hide ScanOne;
  }

  lemma FoundOneMore(f: Scan, current: map<string, int>, ids: seq<string>, ws: map<string, int>, n: nat)
    requires 0 < n < |ids| && Distinct(ids) && (forall x :: x in ids ==> x != "" && x in ws)
    requires Found(f, current, ids, ws, n)
    requires Wrap(Get(f.current, ids[n]) + ws[ids[n]]) == Raised(current, ws, ids[n])
    ensures Found(ScanOne(f, ids[n], ws[ids[n]]), current, ids, ws, n + 1)
  {
    hide Wrap, Raised;
    assert f.selected != "" && f.selected != ids[n];
    BestOfTwo(current, ids, ws, n, f.selected);
  }

  /** Extending the candidates by one: the new one wins, or the old winner still does. */
  lemma BestOfTwo(current: map<string, int>, ids: seq<string>, ws: map<string, int>, n: nat, best: string)
    requires n < |ids| && (forall x :: x in ids ==> x in ws) && WinnerTo(current, ids, ws, n, best)
    requires best in ws && best != ids[n]
    ensures Better(current, ws, ids[n], best) ==> WinnerTo(current, ids, ws, n + 1, ids[n])
    ensures !Better(current, ws, ids[n], best) ==> WinnerTo(current, ids, ws, n + 1, best)
  {
    hide Less, Raised, Wrap;
    var last := ids[n];
    LessTotal(last, best);
    forall i | 0 <= i < n && ids[i] != best && Better(current, ws, last, best)
      ensures Better(current, ws, last, ids[i])
    {
      if Less(last, best) && Less(best, ids[i]) { LessTransitive(last, best, ids[i]); }
    }
  }

  /** Every pick of the code takes the best-placed candidate, ties to the smallest ID. */
  lemma StepPicksBest(p: PoolState, ids: seq<string>, ws: map<string, int>)
    requires Contest(ids, ws)
    ensures Winner(Prepared(p, ids, ws).current, ids, ws, Step(p, ids, ws).1)
  {
    hide Prepared, ScanTo, Better, Less;
    ScanFinds(Prepared(p, ids, ws).current, ids, ws, |ids|);
  }

  lemma WinnerUnique(current: map<string, int>, ids: seq<string>, ws: map<string, int>, a: string, b: string)
    requires forall x :: x in ids ==> x in ws
    requires Winner(current, ids, ws, a) && Winner(current, ids, ws, b)
    ensures a == b
  {
    hide Wrap, Less;
    if a != b { LessAsymmetric(a, b); }
  }

  /** A pool this contest may have been using: no recorded weight differs from the offered one. */
  ghost predicate Tuned(p: PoolState, ids: seq<string>, ws: map<string, int>) {
    forall id :: id in ids && id in p.weights && id in ws ==> p.weights[id] == ws[id]
  }

  lemma PreparedKeepsScores(p: PoolState, ids: seq<string>, ws: map<string, int>)
    requires Contest(ids, ws) && Tuned(p, ids, ws)
    ensures forall id :: id in ids ==> Get(Prepared(p, ids, ws).current, id) == Get(p.current, id)
    ensures Tuned(Prepared(p, ids, ws), ids, ws)
  {
    hide Less;
  }

  /** What the winner pays: the wrapped sum of the first n offered weights. */
  ghost function Price(ids: seq<string>, ws: map<string, int>, n: nat): int
    requires n <= |ids| && forall x :: x in ids ==> x in ws
  {
    if n == 0 then 0 else Wrap(Price(ids, ws, n - 1) + ws[ids[n - 1]])
  }

  lemma {:induction false} PriceIsTotal(current: map<string, int>, ids: seq<string>, ws: map<string, int>, n: nat)
    requires n <= |ids| && forall x :: x in ids ==> x in ws
    ensures ScanTo(current, ids, ws, n).total == Price(ids, ws, n)
  {
    hide Wrap, Less;
    if n > 0 { PriceIsTotal(current, ids, ws, n - 1); }
  }

  lemma {:induction false} PlainPrice(ids: seq<string>, ws: map<string, int>, n: nat)
    requires n <= |ids| && Weighted(ids, ws) && Weight(ids, ws) < TWO_63
    ensures Price(ids, ws, n) == SumTo(ws, ids, n)
  {
    hide Wrap;
    if n > 0 {
      PlainPrice(ids, ws, n - 1);
      WeightTo(ids, ws, n);
    }
  }

  lemma StepUnfolds(p: PoolState, ids: seq<string>, ws: map<string, int>)
    requires forall x :: x in ids ==> x in ws
    ensures var s := ScanTo(Prepared(p, ids, ws).current, ids, ws, |ids|);
            && Step(p, ids, ws).1 == s.selected
            && Step(p, ids, ws).0.current == s.current[s.selected := Wrap(Get(s.current, s.selected) - s.total)]
            && Step(p, ids, ws).0.weights == Prepared(p, ids, ws).weights
  {
    hide Prepared, ScanTo, Wrap, Get;
  }

  /** One pick of a contest: the best-placed candidate wins and pays, the others keep their raised scores. */
  lemma StepEffect(p: PoolState, ids: seq<string>, ws: map<string, int>)
    requires Contest(ids, ws) && Tuned(p, ids, ws)
    ensures Winner(p.current, ids, ws, Step(p, ids, ws).1)
    ensures Tuned(Step(p, ids, ws).0, ids, ws)
    ensures forall x :: x in ids ==>
              Get(Step(p, ids, ws).0.current, x) ==
              if x == Step(p, ids, ws).1 then Wrap(Raised(p.current, ws, x) - Price(ids, ws, |ids|))
              else Raised(p.current, ws, x)
  {
    hide Prepared, ScanTo, Wrap, Less, Step, SortedIds, Winner, Raised;
    PreparedKeepsScores(p, ids, ws);
    var current := Prepared(p, ids, ws).current;
    StepPicksBest(p, ids, ws);
    WinnerTransfers(current, p.current, ids, ws, Step(p, ids, ws).1);
    ScanScores(current, ids, ws, |ids|);
    PriceIsTotal(current, ids, ws, |ids|);
    StepUnfolds(p, ids, ws);
    RaisedTransfers(current, p.current, ids, ws);
    forall x | x in ids
      ensures Get(ScanTo(current, ids, ws, |ids|).current, x) == Raised(current, ws, x)
    {
      var i :| 0 <= i < |ids| && ids[i] == x;
    }
  }

  /** Two pools that agree on the contest's scores pick alike and keep agreeing. */
  lemma SameScoresSamePick(p: PoolState, q: PoolState, ids: seq<string>, ws: map<string, int>)
    requires Contest(ids, ws) && Tuned(p, ids, ws) && Tuned(q, ids, ws)
    requires forall id :: id in ids ==> Get(p.current, id) == Get(q.current, id)
    ensures Step(p, ids, ws).1 == Step(q, ids, ws).1
    ensures forall id :: id in ids ==> Get(Step(p, ids, ws).0.current, id) == Get(Step(q, ids, ws).0.current, id)
  {
    hide Step, Wrap, Less, Price, Winner, Tuned, Raised, SortedIds, Distinct, Get;
    StepEffect(p, ids, ws);
    StepEffect(q, ids, ws);
    WinnerTransfers(p.current, q.current, ids, ws, Step(p, ids, ws).1);
    WinnerUnique(q.current, ids, ws, Step(p, ids, ws).1, Step(q, ids, ws).1);
    RaisedTransfers(p.current, q.current, ids, ws);
  }

  lemma RaisedTransfers(a: map<string, int>, b: map<string, int>, ids: seq<string>, ws: map<string, int>)
    requires forall x :: x in ids ==> x in ws && Get(a, x) == Get(b, x)
    ensures forall x :: x in ids ==> Raised(a, ws, x) == Raised(b, ws, x)
  {
    hide Wrap, Get;
  }

  lemma WinnerTransfers(a: map<string, int>, b: map<string, int>, ids: seq<string>, ws: map<string, int>, id: string)
    requires (forall x :: x in ids ==> x in ws && Get(a, x) == Get(b, x)) && Winner(a, ids, ws, id)
    ensures Winner(b, ids, ws, id)
  {
    hide Wrap, Less, Get;
  }

  /** A score no more than (n-1)/n of a period below zero. */
  ghost predicate AboveFloor(n: int, w: int, score: int) {
    n * score >= -((n - 1) * w)
  }

  /** Scores are balanced: they sum to nothing and none has fallen (n-1)/n of a period behind. */
  ghost predicate Balanced(p: PoolState, ids: seq<string>, ws: map<string, int>) {
    && Tuned(p, ids, ws)
    && SumOf(p.current, ids) == 0
    && forall id :: id in ids ==> AboveFloor(|ids|, Weight(ids, ws), Get(p.current, id))
  }

  /** The raised scores are int64 values. */
  ghost predicate Raisable(p: PoolState, ids: seq<string>, ws: map<string, int>) {
    Weight(ids, ws) < TWO_63 && forall id :: id in ids && id in ws ==> Get(p.current, id) + ws[id] < TWO_63
  }

  lemma BalancedBounds(p: PoolState, ids: seq<string>, ws: map<string, int>, id: string)
    requires Contest(ids, ws) && Balanced(p, ids, ws) && id in ids
    ensures -Weight(ids, ws) < Get(p.current, id)
    ensures |ids| * Get(p.current, id) <= (|ids| - 1) * (|ids| - 1) * Weight(ids, ws)
  {
    WeightCovers(ids, ws);
    hide Less, Tuned, Get, SumTo, Weight, Weighted, SortedIds, Distinct;
    var w, n := Weight(ids, ws), |ids|;
    var low := (n - 1) * w;
    var k :| 0 <= k < n && ids[k] == id;
    assert forall i :: 0 <= i < n ==> n * Get(p.current, ids[i]) >= -low by {
      assert forall i :: 0 <= i < n ==> ids[i] in ids;
    }
    SumCaps(p.current, ids, n, n, low, k);
    AboveMinus(n, w, Get(p.current, id));
    Regroup(n, w, Get(p.current, id));
  }

  lemma NobodyFarBehind(p: PoolState, ids: seq<string>, ws: map<string, int>)
    requires Contest(ids, ws) && Balanced(p, ids, ws)
    ensures forall id :: id in ids ==> -Weight(ids, ws) < Get(p.current, id)
  {
    hide Less, Tuned, Get, SumTo, Weight, SortedIds, Distinct;
    forall id | id in ids
      ensures -Weight(ids, ws) < Get(p.current, id)
    {
      BalancedBounds(p, ids, ws, id);
    }
  }

  lemma Regroup(n: int, w: int, x: int)
    requires n * x <= n * 0 + (n - 1) * ((n - 1) * w)
    ensures n * x <= (n - 1) * (n - 1) * w
  {
    assert (n - 1) * ((n - 1) * w) == (n - 1) * (n - 1) * w;
  }

  lemma BalancedSum(p: PoolState, ids: seq<string>, ws: map<string, int>)
    requires Balanced(p, ids, ws)
    ensures SumTo(p.current, ids, |ids|) == 0
  {
  }

  lemma AboveMinus(n: int, w: int, x: int)
    requires n > 0 && w > 0 && n * x >= -((n - 1) * w)
    ensures x > -w
  {
    assert n * (x + w) == n * x + (n - 1) * w + w >= w;
  }

  /** While scores stay within int64, a pick is plain integer arithmetic. */
  lemma PlainStep(p: PoolState, ids: seq<string>, ws: map<string, int>)
    requires Contest(ids, ws) && Tuned(p, ids, ws) && Raisable(p, ids, ws)
    requires forall id :: id in ids ==> -Weight(ids, ws) < Get(p.current, id)
    requires exists id :: id in ids && Get(p.current, id) + ws[id] > 0
    ensures var (next, picked) := Step(p, ids, ws);
            && picked in ids && Tuned(next, ids, ws)
            && (forall id :: id in ids ==> Get(p.current, id) + ws[id] <= Get(p.current, picked) + ws[picked])
            && (forall id :: id in ids && Get(p.current, id) + ws[id] == Get(p.current, picked) + ws[picked] ==> !Less(id, picked))
            && forall id :: id in ids ==>
                 Get(next.current, id) == Get(p.current, id) + ws[id] - (if id == picked then Weight(ids, ws) else 0)
  {
    hide ScanTo, Wrap, SortedIds, Distinct, Tuned, Step, Get;
    WeightCovers(ids, ws);
    PlainPrice(ids, ws, |ids|);
    StepEffect(p, ids, ws);
    var picked := Step(p, ids, ws).1;
    forall id | id in ids && Raised(p.current, ws, id) == Raised(p.current, ws, picked)
      ensures !Less(id, picked)
    {
      LessAsymmetric(id, picked);
      LessAsymmetric(picked, picked);
    }
    hide Less;
  }

  lemma SomePositive(m: map<string, int>, ids: seq<string>, ws: map<string, int>)
    requires Contest(ids, ws) && SumOf(m, ids) == 0
    ensures exists id :: id in ids && Get(m, id) + ws[id] > 0
  {
    WeightCovers(ids, ws);
    if forall id :: id in ids ==> Get(m, id) + ws[id] <= 0 {
      var raised := map id | id in ids :: Get(m, id) + ws[id];
      SumAdds(raised, m, ws, ids, |ids|);
      SumBelow(raised, ids, |ids|, 0);
      assert false;
    }
  }

  lemma BalancedStep(p: PoolState, ids: seq<string>, ws: map<string, int>)
    requires Contest(ids, ws) && Raisable(p, ids, ws) && Balanced(p, ids, ws)
    ensures var (next, picked) := Step(p, ids, ws);
            && picked in ids
            && Balanced(next, ids, ws)
            && forall id :: id in ids ==>
                 Get(next.current, id) == Get(p.current, id) + ws[id] - (if id == picked then Weight(ids, ws) else 0)
  {
    hide Step, Less, SortedIds, Tuned, Get, SumTo, Raisable, Distinct, AboveFloor, Weight;
    SomePositive(p.current, ids, ws);
    NobodyFarBehind(p, ids, ws);
    PlainStep(p, ids, ws);
    var (next, picked) := Step(p, ids, ws);
    BalanceKept(p.current, next.current, ids, ws, picked);
  }

  lemma BalanceKept(m: map<string, int>, m': map<string, int>, ids: seq<string>, ws: map<string, int>, picked: string)
    requires Contest(ids, ws) && SumOf(m, ids) == 0 && picked in ids
    requires forall id :: id in ids ==> AboveFloor(|ids|, Weight(ids, ws), Get(m, id)) && Get(m, id) + ws[id] <= Get(m, picked) + ws[picked]
    requires forall id :: id in ids ==> Get(m', id) == Get(m, id) + ws[id] - (if id == picked then Weight(ids, ws) else 0)
    ensures SumOf(m', ids) == 0 && forall id :: id in ids ==> AboveFloor(|ids|, Weight(ids, ws), Get(m', id))
  {
    WeightCovers(ids, ws);
    hide Less, SortedIds, Get, SumTo, Distinct, AboveFloor;
    var w := Weight(ids, ws);
    var k :| 0 <= k < |ids| && ids[k] == picked;
    WinnerPays(m, m', ids, ws, k, w, Get(m, picked) + ws[picked]);
    forall id | id in ids && id != picked
      ensures AboveFloor(|ids|, w, Get(m', id))
    {
      StillAbove(|ids|, w, Get(m, id), ws[id]);
    }
  }

  lemma StillAbove(n: int, w: int, x: int, gain: int)
    requires n > 0 && gain > 0 && AboveFloor(n, w, x)
    ensures AboveFloor(n, w, x + gain)
  {
    assert n * (x + gain) == n * x + n * gain;
  }

  lemma WinnerPays(m: map<string, int>, m': map<string, int>, ids: seq<string>, ws: map<string, int>,
                   k: nat, w: int, top: int)
    requires k < |ids| && Distinct(ids) && SumOf(m, ids) == 0 && SumOf(ws, ids) == w > 0
    requires forall x :: x in ids ==> x in ws && Get(m, x) + ws[x] <= top
    requires top == Get(m, ids[k]) + ws[ids[k]] && Get(m', ids[k]) == top - w
    requires forall x :: x in ids && x != ids[k] ==> Get(m', x) == Get(m, x) + ws[x]
    ensures SumOf(m', ids) == 0 && AboveFloor(|ids|, w, Get(m', ids[k]))
  {
    var raised := m'[ids[k] := top];
    SumAdds(raised, m, ws, ids, |ids|);
    SumBelow(raised, ids, |ids|, top);
    SumUpdate(m', ids, |ids|, k, top);
    assert |ids| * (top - w) == |ids| * top - |ids| * w;
    assert (|ids| - 1) * w == |ids| * w - w;
  }

  /** Small weights keep a balanced pool's raised scores within int64. */
  lemma RoomRaises(p: PoolState, ids: seq<string>, ws: map<string, int>)
    requires Contest(ids, ws) && Room(ids, ws) && Balanced(p, ids, ws)
    ensures Raisable(p, ids, ws)
  {
    hide Less, SortedIds, Tuned, Get, SumTo, Balanced;
    var w, n := Weight(ids, ws), |ids|;
    RoomHoldsWeight(ids, ws);
    forall id | id in ids
      ensures Get(p.current, id) + ws[id] < TWO_63
    {
      BalancedBounds(p, ids, ws, id);
      assert n * (Get(p.current, id) + ws[id]) == n * Get(p.current, id) + n * ws[id] < n * TWO_63;
    }
  }

  lemma RoomHoldsWeight(ids: seq<string>, ws: map<string, int>)
    requires Contest(ids, ws) && Room(ids, ws)
    ensures Weight(ids, ws) < TWO_63
  {
    WeightCovers(ids, ws);
    hide Less, SortedIds, SumTo;
    var w, n := Weight(ids, ws), |ids|;
    if w >= TWO_63 {
      var c := n * TWO_63 - (n - 1) * (n - 1) * w;
      forall i | 0 <= i < n
        ensures n * Get(ws, ids[i]) <= c - 1
      {
        assert ids[i] in ids;
      }
      SumScaled(ws, ids, n, n, c - 1);
      assert n * w <= n * (c - 1);
      assert w <= c - 1;
      Squares(n, w);
    }
  }

  lemma Squares(n: int, w: int)
    requires n >= 2 && w >= TWO_63
    ensures w >= n * TWO_63 - (n - 1) * (n - 1) * w
  {
    assert (n - 1) * (n - 1) + 1 - n == (n - 1) * (n - 2) >= 0;
    assert w + (n - 1) * (n - 1) * w == ((n - 1) * (n - 1) + 1) * w >= n * w >= n * TWO_63;
  }

  lemma {:induction false} SumScaled(m: map<string, int>, ids: seq<string>, n: nat, c: int, high: int)
    requires n <= |ids| && forall i :: 0 <= i < n ==> c * Get(m, ids[i]) <= high
    ensures c * SumTo(m, ids, n) <= n * high
  {
    hide Get;
    if n > 0 {
      SumScaled(m, ids, n - 1, c, high);
      assert n * high == (n - 1) * high + high;
      assert c * (SumTo(m, ids, n - 1) + Get(m, ids[n - 1])) == c * SumTo(m, ids, n - 1) + c * Get(m, ids[n - 1]);
    }
  }

  // ----- Whole runs -------------------------------------------------------------------

  lemma Account(k: int, wi: int, w: int, n: int)
    ensures k * wi - w * n == (k - 1) * wi - w * n + wi
    ensures k * wi - w * (n + 1) == (k - 1) * wi - w * n + wi - w
  {
  }

  lemma FreshIsBalanced(ids: seq<string>, ws: map<string, int>)
    requires Contest(ids, ws)
    ensures Balanced(FRESH, ids, ws)
  {
    WeightCovers(ids, ws);
    EmptySum(ids, |ids|);
    hide Less, SumTo, SortedIds, Distinct, Weighted, Weight;
    NotNegative(|ids| - 1, Weight(ids, ws));
  }

  lemma NotNegative(a: int, b: int)
    requires a >= 0 && b >= 0
    ensures a * b >= 0
  {
  }

  /** Small weights fit. */
  lemma RoomFits(ids: seq<string>, ws: map<string, int>)
    requires Contest(ids, ws) && Room(ids, ws)
    ensures Fits(ids, ws)
  {
    hide Less, SortedIds, Distinct, Get, SumTo, Run;
    RoomHoldsWeight(ids, ws);
    forall k: nat, id | id in ids
      ensures Get(Run(ids, ws, k).current, id) + ws[id] < TWO_63
    {
      RoomKeepsBalance(ids, ws, k);
      RoomRaises(Run(ids, ws, k), ids, ws);
    }
  }

  lemma {:induction false} RoomKeepsBalance(ids: seq<string>, ws: map<string, int>, k: nat)
    requires Contest(ids, ws) && Room(ids, ws)
    ensures Balanced(Run(ids, ws, k), ids, ws)
  {
    hide Step, Contest, Room, Balanced, Raisable;
    if k == 0 {
      FreshIsBalanced(ids, ws);
    } else {
      RoomKeepsBalance(ids, ws, k - 1);
      RoomRaises(Run(ids, ws, k - 1), ids, ws);
      BalancedStep(Run(ids, ws, k - 1), ids, ws);
    }
  }

  lemma RaisableInRun(ids: seq<string>, ws: map<string, int>, k: nat)
    requires Contest(ids, ws) && Fits(ids, ws)
    ensures Raisable(Run(ids, ws, k), ids, ws)
  {
    hide Run, Contest, Get, SumOf;
  }

  /** After k picks a score is what the weights earned minus what the wins cost. */
  lemma {:induction false} RunAccounts(ids: seq<string>, ws: map<string, int>, k: nat)
    requires Contest(ids, ws) && Fits(ids, ws)
    ensures Balanced(Run(ids, ws, k), ids, ws)
    ensures forall id :: id in ids ==>
              Get(Run(ids, ws, k).current, id) == k * ws[id] - Weight(ids, ws) * Wins(ids, ws, k, id)
  {
    hide Step, Less, SortedIds, Distinct, Fits, Raisable, Balanced;
    if k == 0 {
      FreshIsBalanced(ids, ws);
    } else {
      hide Weight;
      RunAccounts(ids, ws, k - 1);
      RaisableInRun(ids, ws, k - 1);
      BalancedStep(Run(ids, ws, k - 1), ids, ws);
      forall id | id in ids
        ensures Get(Run(ids, ws, k).current, id) == k * ws[id] - Weight(ids, ws) * Wins(ids, ws, k, id)
      {
        Account(k, ws[id], Weight(ids, ws), Wins(ids, ws, k - 1, id));
      }
    }
  }

  /**
    At every point of a run every score lies between -((n-1)/n)W and ((n-1)^2/n)W. So no
    candidate is more than (n-1)/n of a pick ahead of its share, and none is more than
    (n-1)^2/n picks behind it; with two candidates that is half a pick either way.
   */
  lemma ShareIsTracked(ids: seq<string>, ws: map<string, int>, k: nat, id: string)
    requires Contest(ids, ws) && Fits(ids, ws) && id in ids
    ensures Get(Run(ids, ws, k).current, id) == k * ws[id] - Weight(ids, ws) * Wins(ids, ws, k, id)
    ensures |ids| * (Weight(ids, ws) * Wins(ids, ws, k, id) - k * ws[id]) <= (|ids| - 1) * Weight(ids, ws)
    ensures |ids| * (k * ws[id] - Weight(ids, ws) * Wins(ids, ws, k, id)) <= (|ids| - 1) * (|ids| - 1) * Weight(ids, ws)
  {
    hide Run, Step, Wins, PickAt, SumTo, SumOf, Weight, Less, SortedIds, Distinct, Get, Fits;
    RunAccounts(ids, ws, k);
    BalancedBounds(Run(ids, ws, k), ids, ws, id);
    NegatedProduct(|ids|, Weight(ids, ws) * Wins(ids, ws, k, id), k * ws[id]);
  }

  lemma NegatedProduct(n: int, a: int, b: int)
    ensures n * (a - b) == -(n * (b - a))
  {
  }

  lemma PositiveMultiple(w: int, x: int)
    requires w > 0 && w * x > -w
    ensures w * x >= 0
    ensures w * x == 0 ==> x == 0
  {
  }

  lemma PeriodArithmetic(w: int, wi: int, wins: int, score: int)
    requires w > 0 && score == w * wi - w * wins && score > -w
    ensures score >= 0 && (score == 0 ==> wins == wi)
  {
    assert score == w * (wi - wins);
    PositiveMultiple(w, wi - wins);
  }

  /** After W picks everyone has won exactly its weight and every score is back to zero. */
  lemma PeriodIsExact(ids: seq<string>, ws: map<string, int>)
    requires Contest(ids, ws) && Fits(ids, ws)
    ensures Weight(ids, ws) > 0
    ensures forall id :: id in ids ==> Wins(ids, ws, Weight(ids, ws), id) == ws[id]
    ensures forall id :: id in ids ==> Get(Run(ids, ws, Weight(ids, ws)).current, id) == 0
  {
    WeightCovers(ids, ws);
    hide Run, Step, Wins, PickAt, Less, SumTo, SortedIds, Distinct, Tuned, Get, Fits;
    var w := Weight(ids, ws);
    RunAccounts(ids, ws, w);
    NobodyFarBehind(Run(ids, ws, w), ids, ws);
    BalancedSum(Run(ids, ws, w), ids, ws);
    hide Balanced, Weight, Weighted;
    var current := Run(ids, ws, w).current;
    forall id | id in ids
      ensures Get(current, id) >= 0
      ensures Get(current, id) == 0 ==> Wins(ids, ws, w, id) == ws[id]
    {
      PeriodArithmetic(w, ws[id], Wins(ids, ws, w, id), Get(current, id));
    }
    SumZeroAllZero(current, ids, |ids|);
  }

  /** The run repeats itself with period W. */
  lemma {:induction false} RunIsPeriodic(ids: seq<string>, ws: map<string, int>, k: nat)
    requires Contest(ids, ws) && Fits(ids, ws) && Weight(ids, ws) >= 0
    ensures PickAt(ids, ws, k + Weight(ids, ws)) == PickAt(ids, ws, k)
    ensures forall id :: id in ids ==>
              Get(Run(ids, ws, k + Weight(ids, ws)).current, id) == Get(Run(ids, ws, k).current, id)
  {
    hide Step, Contest, Weight, Fits, Tuned, Get, SumOf;
    var w := Weight(ids, ws);
    RunAccounts(ids, ws, k);
    RunAccounts(ids, ws, k + w);
    if k == 0 {
      PeriodIsExact(ids, ws);
    } else {
      RunIsPeriodic(ids, ws, k - 1);
      RunAccounts(ids, ws, k - 1);
      RunAccounts(ids, ws, k - 1 + w);
      SameScoresSamePick(Run(ids, ws, k - 1 + w), Run(ids, ws, k - 1), ids, ws);
    }
    SameScoresSamePick(Run(ids, ws, k + w), Run(ids, ws, k), ids, ws);
  }

  // ----- Changing candidates: the whole score map -------------------------------------

  ghost function MapSum(m: map<string, int>): int {
    if m == map[] then 0 else var k :| k in m; m[k] + MapSum(m - {k})
  }

  lemma {:induction false} MapSumRemove(m: map<string, int>, k: string)
    requires k in m
    ensures MapSum(m) == m[k] + MapSum(m - {k})
  {
    var j :| j in m && MapSum(m) == m[j] + MapSum(m - {j});
    if j != k {
      MapSumRemove(m - {j}, k);
      assert m - {j} - {k} == m - {k} - {j};
      MapSumRemove(m - {k}, j);
    }
  }

  lemma MapSumPut(m: map<string, int>, k: string, v: int)
    ensures MapSum(m[k := v]) == MapSum(m) - Get(m, k) + v
  {
    MapSumRemove(m[k := v], k);
    if k in m {
      MapSumRemove(m, k);
      assert m[k := v] - {k} == m - {k};
    } else {
      assert m[k := v] - {k} == m;
    }
  }

  lemma {:induction false} ScanConserves(current: map<string, int>, ids: seq<string>, ws: map<string, int>, n: nat)
    requires n <= |ids| && forall x :: x in ids ==> x in ws
    ensures var s := ScanTo(current, ids, ws, n);
            (MapSum(s.current) - MapSum(current) - s.total) % TWO_64 == 0
  {
    hide Wrap, Less, MapSum, ScanOne;
    if n > 0 {
      ScanConserves(current, ids, ws, n - 1);
      ScanOneConserves(ScanTo(current, ids, ws, n - 1), ids[n - 1], ws[ids[n - 1]], MapSum(current));
    }
  }

  lemma ScanOneConserves(f: Scan, id: string, weight: int, start: int)
    requires (MapSum(f.current) - start - f.total) % TWO_64 == 0
    ensures (MapSum(ScanOne(f, id, weight).current) - start - ScanOne(f, id, weight).total) % TWO_64 == 0
  {
    hide Wrap, Less, MapSum;
    var raw, s := Get(f.current, id) + weight, ScanOne(f, id, weight);
    MapSumPut(f.current, id, Wrap(raw));
    WrapIsModular(raw);
    WrapIsModular(f.total + weight);
  }

  /**
    Whatever candidates and weights are offered, valid or overflowing, one pick leaves the
    sum of the whole score map unchanged modulo 2^64, except where it restarts or trims it.
   */
  lemma StepConserves(p: PoolState, ids: seq<string>, ws: map<string, int>)
    requires forall x :: x in ids ==> x in ws
    ensures (MapSum(Step(p, ids, ws).0.current) - MapSum(Prepared(p, ids, ws).current)) % TWO_64 == 0
  {
    hide Prepared, ScanTo, Wrap, Step, MapSum;
    var ready := Prepared(p, ids, ws).current;
    var s := ScanTo(ready, ids, ws, |ids|);
    var owed := Get(s.current, s.selected) - s.total;
    ScanConserves(ready, ids, ws, |ids|);
    WrapIsModular(owed);
    MapSumPut(s.current, s.selected, Wrap(owed));
    StepUnfolds(p, ids, ws);
  }

  lemma OnlyTrimOrRestart(p: PoolState, ids: seq<string>, ws: map<string, int>)
    requires forall x :: x in ids ==> x in ws
    requires |p.current| <= MAX_CREDENTIALS_PER_POOL
    ensures Prepared(p, ids, ws).current == p.current || Prepared(p, ids, ws).current == map[]
  {
  }

  datatype Offer = Offer(ids: seq<string>, ws: map<string, int>)

  ghost predicate Offers(offers: seq<Offer>) {
    forall o :: o in offers ==> forall id :: id in o.ids ==> id in o.ws
  }

  /** The pool after a sequence of picks, each from its own candidates. */
  ghost function After(offers: seq<Offer>): PoolState
    requires Offers(offers)
  {
    if offers == [] then FRESH else
    Step(After(offers[..|offers| - 1]), offers[|offers| - 1].ids, offers[|offers| - 1].ws).0
  }

  /** Candidates may come, go and change weight: until the over-1024 trim the score sum stays 0 modulo 2^64. */
  lemma {:induction false} ScoresCancel(offers: seq<Offer>)
    requires Offers(offers)
    requires forall k :: 0 <= k < |offers| ==> |After(offers[..k]).current| <= MAX_CREDENTIALS_PER_POOL
    ensures MapSum(After(offers).current) % TWO_64 == 0
  {
    hide Step, Prepared;
    if offers != [] {
      var front := offers[..|offers| - 1];
      assert forall k :: 0 <= k < |front| ==> front[..k] == offers[..k];
      ScoresCancel(front);
      var p, o := After(front), offers[|offers| - 1];
      StepConserves(p, o.ids, o.ws);
      OnlyTrimOrRestart(p, o.ids, o.ws);
    }
  }

  // ----- Beyond the int64 range -------------------------------------------------------

  /**
    The int64 bound is needed. Two candidates with weight 2^62 each should alternate, but
    the second pick goes to the first candidate again, which then leads its share by a
    whole pick.
   */
  lemma OverflowStarves(ids: seq<string>, ws: map<string, int>)
    requires ids == ["a", "b"] && ws == map["a" := TWO_63 / 2, "b" := TWO_63 / 2]
    ensures Contest(ids, ws) && !Fits(ids, ws)
    ensures PickAt(ids, ws, 0) == "a" && PickAt(ids, ws, 1) == "a"
    ensures Weight(ids, ws) * (Wins(ids, ws, 2, "a") - 1) >= 2 * ws["a"]
  {
    hide Step;
    OverflowPrice(ids, ws);
    OverflowStep(FRESH, ids, ws, 0, 0);
    assert Run(ids, ws, 0) == FRESH && Run(ids, ws, 1) == Step(FRESH, ids, ws).0;
    OverflowStep(Run(ids, ws, 1), ids, ws, -(TWO_63 / 2), TWO_63 / 2);
    assert Wins(ids, ws, 0, "a") == 0 && Wins(ids, ws, 1, "a") == 1;
  }

  lemma OverflowStep(p: PoolState, ids: seq<string>, ws: map<string, int>, a: int, b: int)
    requires ids == ["a", "b"] && ws == map["a" := TWO_63 / 2, "b" := TWO_63 / 2]
    requires Tuned(p, ids, ws) && Get(p.current, "a") == a && Get(p.current, "b") == b
    requires (a, b) == (0, 0) || (a, b) == (-(TWO_63 / 2), TWO_63 / 2)
    ensures Contest(ids, ws)
    ensures Step(p, ids, ws).1 == "a" && Tuned(Step(p, ids, ws).0, ids, ws)
    ensures a == 0 ==> Get(Step(p, ids, ws).0.current, "a") == -(TWO_63 / 2)
    ensures a == 0 ==> Get(Step(p, ids, ws).0.current, "b") == TWO_63 / 2
  {
    hide Step, Wrap, Price, Tuned;
    assert Less("a", "b") && !Less("b", "a");
    OverflowPrice(ids, ws);
    WrapValues();
    StepEffect(p, ids, ws);
    hide Less;
    assert ids[0] == "a" && ids[1] == "b";
    assert "a" in ids && "b" in ids;
  }

  lemma OverflowPrice(ids: seq<string>, ws: map<string, int>)
    requires ids == ["a", "b"] && ws == map["a" := TWO_63 / 2, "b" := TWO_63 / 2]
    ensures Price(ids, ws, |ids|) == -TWO_63 && Weight(ids, ws) == TWO_63
  {
    assert Price(ids, ws, 1) == TWO_63 / 2;
    assert SumTo(ws, ids, 1) == TWO_63 / 2;
  }

  lemma WrapValues()
    ensures Wrap(TWO_63 / 2 + TWO_63 / 2) == -TWO_63
    ensures Wrap(TWO_63 / 2 - -TWO_63) == -TWO_63 / 2
  {
  }
}
