/**
  What the scheduler of internal/plugin/scheduler.go does when int64 scores wrap: scores stay
  exact modulo 2^64, so the first W picks decide all others, and equal weights take turns
  exactly while no wrapped score overtakes the candidate whose turn it is.
 */
module SchedulerTurns {
  import opened Text
  import opened Scheduler
  import opened SchedulerFairness
  import opened SchedulerRange

  // ----- Wrapped arithmetic -------------------------------------------------------------

  lemma SameWrap(x: int, y: int, turns: int)
    requires x == y + turns * TWO_64
    ensures Wrap(x) == Wrap(y)
  {
  }

  lemma WrapAdds(x: int, y: int)
    ensures Wrap(Wrap(x) + y) == Wrap(x + y)
  {
    SameWrap(x + y, Wrap(x) + y, (x + TWO_63) / TWO_64);
  }

  lemma WrapSubtracts(x: int, y: int)
    ensures Wrap(Wrap(x) - Wrap(y)) == Wrap(x - y)
  {
    SameWrap(x - y, Wrap(x) - Wrap(y), (x + TWO_63) / TWO_64 - (y + TWO_63) / TWO_64);
  }

  lemma {:induction false} PriceWraps(ids: seq<string>, ws: map<string, int>, n: nat)
    requires n <= |ids| && forall x :: x in ids ==> x in ws
    ensures Price(ids, ws, n) == Wrap(SumTo(ws, ids, n))
  {
    hide Wrap;
    if n > 0 {
      PriceWraps(ids, ws, n - 1);
      WrapAdds(SumTo(ws, ids, n - 1), ws[ids[n - 1]]);
    }
  }

  // ----- Any weights ----------------------------------------------------------------------

  /** What the weights earned in k picks minus what the wins cost, before any wrapping. */
  ghost function Balance(ids: seq<string>, ws: map<string, int>, k: nat, id: string): int
    requires Contest(ids, ws) && id in ids
  {
    k * ws[id] - Weight(ids, ws) * Wins(ids, ws, k, id)
  }

  /** Every stored score is the true balance modulo 2^64, overflowing or not. */
  ghost predicate Wrapped(ids: seq<string>, ws: map<string, int>, k: nat)
    requires Contest(ids, ws)
  {
    && Tuned(Run(ids, ws, k), ids, ws)
    && forall id :: id in ids ==> Get(Run(ids, ws, k).current, id) == Wrap(Balance(ids, ws, k, id))
  }

  lemma {:induction false} ScoresWrap(ids: seq<string>, ws: map<string, int>, k: nat)
    requires Contest(ids, ws)
    ensures Wrapped(ids, ws, k)
  {
    hide Step, Wrap, Less, SortedIds, Distinct, Get, Tuned, Winner, Weight;
    if k == 0 {
      FreshWraps(ids, ws);
    } else {
      ScoresWrap(ids, ws, k - 1);
      var p := Run(ids, ws, k - 1);
      StepEffect(p, ids, ws);
      PriceWraps(ids, ws, |ids|);
      forall id | id in ids
        ensures Get(Run(ids, ws, k).current, id) == Wrap(Balance(ids, ws, k, id))
      {
        NextBalance(ids, ws, k - 1, id);
        WrapAdds(Balance(ids, ws, k - 1, id), ws[id]);
        WrapSubtracts(Balance(ids, ws, k - 1, id) + ws[id], Weight(ids, ws));
        assert Weight(ids, ws) == SumTo(ws, ids, |ids|) by { WeightIsSum(ids, ws); }
      }
    }
  }

  lemma WeightIsSum(ids: seq<string>, ws: map<string, int>)
    ensures Weight(ids, ws) == SumTo(ws, ids, |ids|)
  {
  }

  lemma FreshWraps(ids: seq<string>, ws: map<string, int>)
    requires Contest(ids, ws)
    ensures Wrapped(ids, ws, 0)
  {
    hide Less, Weight;
  }

  lemma NextBalance(ids: seq<string>, ws: map<string, int>, k: nat, id: string)
    requires Contest(ids, ws) && id in ids
    ensures Balance(ids, ws, k + 1, id) ==
            Balance(ids, ws, k, id) + ws[id] - (if id == PickAt(ids, ws, k) then Weight(ids, ws) else 0)
  {
    hide PickAt, Weight, SortedIds, Distinct;
    Account(k + 1, ws[id], Weight(ids, ws), Wins(ids, ws, k, id));
  }

  /** Once all scores are back at zero the run starts over. */
  lemma {:induction false} ZeroRepeats(ids: seq<string>, ws: map<string, int>, period: nat, k: nat)
    requires Contest(ids, ws) && forall id :: id in ids ==> Get(Run(ids, ws, period).current, id) == 0
    ensures PickAt(ids, ws, k + period) == PickAt(ids, ws, k)
    ensures forall id :: id in ids ==> Get(Run(ids, ws, k + period).current, id) == Get(Run(ids, ws, k).current, id)
  {
    hide Step, Contest, Tuned, Get, Balance, Wrap;
    if k == 0 {
      FreshIsZero();
    } else {
      ZeroRepeats(ids, ws, period, k - 1);
      ScoresWrap(ids, ws, k - 1);
      ScoresWrap(ids, ws, k - 1 + period);
      SameScoresSamePick(Run(ids, ws, k - 1 + period), Run(ids, ws, k - 1), ids, ws);
    }
    ScoresWrap(ids, ws, k);
    ScoresWrap(ids, ws, k + period);
    SameScoresSamePick(Run(ids, ws, k + period), Run(ids, ws, k), ids, ws);
  }

  lemma FreshIsZero()
    ensures forall id :: Get(FRESH.current, id) == 0
  {
  }

  lemma {:induction false} WindowsRepeat(ids: seq<string>, ws: map<string, int>, period: nat, k: nat, id: string)
    requires Contest(ids, ws) && (forall x :: x in ids ==> Get(Run(ids, ws, period).current, x) == 0) && id in ids
    ensures Wins(ids, ws, k + period, id) - Wins(ids, ws, k, id) == Wins(ids, ws, period, id)
  {
    hide Contest, PickAt, Run, Get;
    if k > 0 {
      WindowsRepeat(ids, ws, period, k - 1, id);
      ZeroRepeats(ids, ws, period, k - 1);
    }
  }

  /** Any W picks in a row give each candidate exactly its weight. */
  ghost predicate FairForEver(ids: seq<string>, ws: map<string, int>)
    requires Contest(ids, ws) && Weight(ids, ws) >= 0
  {
    forall k: nat, id :: id in ids ==> Wins(ids, ws, k + Weight(ids, ws), id) - Wins(ids, ws, k, id) == ws[id]
  }

  /**
    Whatever the weights, overflowing or not: every window of W picks is fair exactly when the
    first one is, and it is whenever no score overflows.
   */
  lemma FirstWindowDecides(ids: seq<string>, ws: map<string, int>)
    requires Contest(ids, ws)
    ensures Weight(ids, ws) > 0
    ensures FairForEver(ids, ws) <==> forall id :: id in ids ==> Wins(ids, ws, Weight(ids, ws), id) == ws[id]
    ensures Fits(ids, ws) ==> FairForEver(ids, ws)
  {
    WeightCovers(ids, ws);
    hide Contest, Run, Weight, Get, Fits;
    var w: nat := Weight(ids, ws);
    if Fits(ids, ws) { PeriodIsExact(ids, ws); }
    if forall id :: id in ids ==> Wins(ids, ws, w, id) == ws[id] {
      ScoresWrap(ids, ws, w);
      forall k: nat, id | id in ids
        ensures Wins(ids, ws, k + w, id) - Wins(ids, ws, k, id) == ws[id]
      {
        WindowsRepeat(ids, ws, w, k, id);
      }
    }
    if FairForEver(ids, ws) {
      forall id | id in ids
        ensures Wins(ids, ws, w, id) == ws[id]
      {
        assert Wins(ids, ws, 0 + w, id) - Wins(ids, ws, 0, id) == ws[id];
      }
    }
  }

  // ----- Equal weights --------------------------------------------------------------------

  ghost predicate AllWeigh(ids: seq<string>, ws: map<string, int>, w: int) {
    Contest(ids, ws) && forall id :: id in ids ==> ws[id] == w
  }

  lemma {:induction false} EqualSum(ids: seq<string>, ws: map<string, int>, w: int, n: nat)
    requires AllWeigh(ids, ws, w) && n <= |ids|
    ensures SumTo(ws, ids, n) == n * w
  {
    hide Less;
    if n > 0 {
      EqualSum(ids, ws, w, n - 1);
      assert ids[n - 1] in ids;
      assert n * w == (n - 1) * w + w;
    }
  }

  /** The i-th of n equal scores when the candidates before the r-th have had their turn. */
  function TurnScore(n: int, w: int, r: int, i: int): int {
    r * w - (if i < r then n * w else 0)
  }

  /** The candidate whose turn it is after j - 1 others has a higher wrapped score than they have. */
  predicate ComesUp(n: int, w: int, j: int) {
    Wrap((j - n) * w) < Wrap(j * w)
  }

  predicate TurnRoom(n: int, w: int) {
    forall j :: 2 <= j <= n ==> ComesUp(n, w, j)
  }

  lemma TurnScores(n: int, w: int, r: int, i: int)
    requires 0 <= r < n && 0 <= i < n && w > 0 && n * w < TWO_63
    ensures -(n * w) < TurnScore(n, w, r, i) && TurnScore(n, w, r, i) + w < TWO_63
    ensures TurnScore(n, w, r, r) >= 0
    ensures if i < r then TurnScore(n, w, r, i) < TurnScore(n, w, r, r) else TurnScore(n, w, r, i) == TurnScore(n, w, r, r)
  {
    Ordered(w, 0, r);
    Ordered(w, r + 1, n);
    Spread(w, r, 1);
    Ordered(w, 1, n);
    if i < r { Ordered(w, 1, r); }
  }

  lemma NextScore(n: int, w: int, r: int, i: int)
    requires 0 <= r < n && 0 <= i < n
    ensures TurnScore(n, w, r, i) + w - (if i == r then n * w else 0) == TurnScore(n, w, if r + 1 == n then 0 else r + 1, i)
  {
    Spread(w, r, 1);
  }

  ghost predicate Turn(p: PoolState, ids: seq<string>, ws: map<string, int>, w: int, r: nat) {
    && Tuned(p, ids, ws) && r < |ids|
    && forall i :: 0 <= i < |ids| ==> Get(p.current, ids[i]) == Wrap(TurnScore(|ids|, w, r, i))
  }

  lemma RaisedInTurn(p: PoolState, ids: seq<string>, ws: map<string, int>, w: int, r: nat, i: nat)
    requires AllWeigh(ids, ws, w) && Turn(p, ids, ws, w, r) && i < |ids|
    ensures ids[i] in ids && Raised(p.current, ws, ids[i]) == Wrap(if i < r then (r + 1 - |ids|) * w else (r + 1) * w)
    ensures Wrap(Raised(p.current, ws, ids[i]) - (if i == r then Wrap(|ids| * w) else 0)) ==
            Wrap(TurnScore(|ids|, w, if r + 1 == |ids| then 0 else r + 1, i))
  {
    hide Wrap, Get, Tuned, Less;
    assert ids[i] in ids;
    var score := TurnScore(|ids|, w, r, i);
    WrapAdds(score, w);
    Spread(w, r, 1);
    Spread(w, r + 1, -|ids|);
    NextScore(|ids|, w, r, i);
    if i == r { WrapSubtracts(score + w, |ids| * w); } else { WrapAdds(score + w, 0); }
  }

  /** Among candidates with two raised scores, the low ones first, the next in turn or an earlier one is best placed. */
  lemma BestOfTwoScores(current: map<string, int>, ids: seq<string>, ws: map<string, int>, r: nat, low: int, high: int, j: nat)
    requires Contest(ids, ws) && r < |ids| && j < |ids| && Winner(current, ids, ws, ids[j])
    requires forall i :: 0 <= i < |ids| ==> ids[i] in ids && Raised(current, ws, ids[i]) == if i < r then low else high
    ensures if r == 0 || low < high then j == r else j < r
  {
    hide SortedIds, Less, Raised, Weighted;
    if j > r { EarlierIsLess(ids, r, j); }
    if j == r > 0 { EarlierIsLess(ids, 0, r); }
    if j < r { EarlierIsLess(ids, j, r); }
    LessAsymmetricAll();
  }

  lemma LessAsymmetricAll()
    ensures forall a, b :: Less(a, b) ==> !Less(b, a)
  {
    forall a, b | Less(a, b)
      ensures !Less(b, a)
    {
      LessAsymmetric(a, b);
    }
  }

  /** The next in turn is picked exactly if nobody who has been picked has a score as high. */
  lemma NextTurn(p: PoolState, ids: seq<string>, ws: map<string, int>, w: int, r: nat)
    requires AllWeigh(ids, ws, w) && Turn(p, ids, ws, w, r)
    ensures if r == 0 || ComesUp(|ids|, w, r + 1)
            then Step(p, ids, ws).1 == ids[r] && Turn(Step(p, ids, ws).0, ids, ws, w, if r + 1 == |ids| then 0 else r + 1)
            else exists i :: 0 <= i < r && Step(p, ids, ws).1 == ids[i]
  {
    hide Step, Tuned, Get, Less, TurnScore, SortedIds, Wrap, Raised, Distinct, Better;
    StepEffect(p, ids, ws);
    hide Turn, Winner;
    var j :| 0 <= j < |ids| && ids[j] == Step(p, ids, ws).1 by { WinnerIsListed(p.current, ids, ws, Step(p, ids, ws).1); }
    var low, high := Wrap((r + 1 - |ids|) * w), Wrap((r + 1) * w);
    forall i | 0 <= i < |ids|
      ensures ids[i] in ids && Raised(p.current, ws, ids[i]) == if i < r then low else high
    {
      RaisedInTurn(p, ids, ws, w, r, i);
    }
    BestOfTwoScores(p.current, ids, ws, r, low, high, j);
    if j == r { TurnPasses(p, ids, ws, w, r); }
  }

  lemma WinnerIsListed(current: map<string, int>, ids: seq<string>, ws: map<string, int>, id: string)
    requires (forall x :: x in ids ==> x in ws) && Winner(current, ids, ws, id)
    ensures id in ids
  {
  }

  lemma TurnPasses(p: PoolState, ids: seq<string>, ws: map<string, int>, w: int, r: nat)
    requires AllWeigh(ids, ws, w) && Turn(p, ids, ws, w, r) && Step(p, ids, ws).1 == ids[r]
    ensures Turn(Step(p, ids, ws).0, ids, ws, w, if r + 1 == |ids| then 0 else r + 1)
  {
    hide Step, Tuned, Get, SumTo, Less, TurnScore, SortedIds, Wrap, Raised, Winner;
    var next := Step(p, ids, ws).0;
    StepEffect(p, ids, ws);
    PriceWraps(ids, ws, |ids|);
    EqualSum(ids, ws, w, |ids|);
    forall i | 0 <= i < |ids|
      ensures Get(next.current, ids[i]) == Wrap(TurnScore(|ids|, w, if r + 1 == |ids| then 0 else r + 1, i))
    {
      RaisedInTurn(p, ids, ws, w, r, i);
      RaisedIsWrapped(p, ws, ids[i]);
    }
  }

  lemma RaisedIsWrapped(p: PoolState, ws: map<string, int>, id: string)
    requires id in ws
    ensures Wrap(Raised(p.current, ws, id) - 0) == Raised(p.current, ws, id)
  {
    hide Get;
    WrapAdds(Get(p.current, id) + ws[id], 0);
  }

  lemma EarlierIsLess(ids: seq<string>, i: nat, j: nat)
    requires SortedIds(ids) && Distinct(ids) && i < j < |ids|
    ensures Less(ids[i], ids[j])
  {
    LessTotal(ids[i], ids[j]);
  }

  lemma FirstTurn(ids: seq<string>, ws: map<string, int>, w: int)
    requires AllWeigh(ids, ws, w)
    ensures Turn(FRESH, ids, ws, w, 0)
  {
    hide Less;
  }

  lemma NextRemainder(k: nat, n: nat)
    requires n > 0
    ensures (k + 1) % n == if k % n + 1 == n then 0 else k % n + 1
  {
    var d, r := k / n, k % n;
    if r + 1 == n {
      Spread(n, d, 1);
      RemainderIs(k + 1, n, d + 1, 0);
    } else {
      RemainderIs(k + 1, n, d, r + 1);
    }
  }

  lemma RemainderIs(x: int, n: int, d: int, r: int)
    requires n > 0 && x == n * d + r && 0 <= r < n
    ensures x % n == r
  {
    var e, s := x / n, x % n;
    if s >= r { Remainder(n, d, e, s - r); } else { Remainder(n, e, d, r - s); }
  }

  /** While nobody overtakes, the turns go round. */
  lemma {:induction false} TurnOf(ids: seq<string>, ws: map<string, int>, w: int, k: nat)
    requires AllWeigh(ids, ws, w) && forall j :: 2 <= j <= |ids| && j <= k ==> ComesUp(|ids|, w, j)
    ensures Turn(Run(ids, ws, k), ids, ws, w, k % |ids|)
    ensures forall i :: 0 <= i < k ==> PickAt(ids, ws, i) == ids[i % |ids|]
  {
    hide Step, Less, SortedIds, Distinct, Weighted, Turn, ComesUp;
    if k == 0 {
      FirstTurn(ids, ws, w);
    } else {
      TurnOf(ids, ws, w, k - 1);
      RemainderBelow(k - 1, |ids|);
      NextTurn(Run(ids, ws, k - 1), ids, ws, w, (k - 1) % |ids|);
      NextRemainder(k - 1, |ids|);
    }
  }

  lemma RemainderBelow(k: nat, n: nat)
    requires n > 0
    ensures 0 <= k % n < n && k % n <= k
    ensures k < n ==> k % n == k
  {
    var d := k / n;
    Ordered(n, 0, d);
    if k < n { RemainderIs(k, n, 0, k); }
  }

  /** The first to be overtaken misses its turn, and somebody is picked twice before it. */
  lemma Overtaken(ids: seq<string>, ws: map<string, int>, w: int, j: nat)
    requires AllWeigh(ids, ws, w) && 2 <= j <= |ids| && !ComesUp(|ids|, w, j)
    requires forall i :: 2 <= i < j ==> ComesUp(|ids|, w, i)
    ensures PickAt(ids, ws, j - 1) != ids[(j - 1) % |ids|]
    ensures exists id :: id in ids && Wins(ids, ws, |ids|, id) >= 2
  {
    hide Step, Less, SortedIds, Weighted, Turn, ComesUp;
    TurnOf(ids, ws, w, j - 1);
    RemainderBelow(j - 1, |ids|);
    NextTurn(Run(ids, ws, j - 1), ids, ws, w, j - 1);
    var i :| 0 <= i < j - 1 && PickAt(ids, ws, j - 1) == ids[i];
    RemainderBelow(i, |ids|);
    WonTwice(ids, ws, i, j - 1, ids[i]);
    assert ids[i] in ids;
  }

  lemma WonTwice(ids: seq<string>, ws: map<string, int>, i: nat, j: nat, id: string)
    requires Contest(ids, ws) && i < j < |ids| && PickAt(ids, ws, i) == id && PickAt(ids, ws, j) == id
    ensures Wins(ids, ws, |ids|, id) >= 2
  {
    hide Contest, PickAt;
    WinsGrow(ids, ws, i + 1, j, id);
    WinsGrow(ids, ws, j + 1, |ids|, id);
  }

  lemma {:induction false} WinsGrow(ids: seq<string>, ws: map<string, int>, a: nat, b: nat, id: string)
    requires Contest(ids, ws) && a <= b
    ensures Wins(ids, ws, a, id) <= Wins(ids, ws, b, id)
    decreases b
  {
    hide Contest, PickAt;
    if a < b { WinsGrow(ids, ws, a, b - 1, id); }
  }

  lemma {:induction false} OneEach(ids: seq<string>, ws: map<string, int>, k: nat, i: nat)
    requires Contest(ids, ws) && k <= |ids| && i < |ids| && forall x :: 0 <= x < k ==> PickAt(ids, ws, x) == ids[x]
    ensures Wins(ids, ws, k, ids[i]) == if i < k then 1 else 0
  {
    hide SortedIds, Weighted, PickAt;
    if k > 0 { OneEach(ids, ws, k - 1, i); }
  }

  lemma {:induction false} FirstOvertaken(n: int, w: int, k: nat) returns (j: nat)
    requires 2 <= k <= n && !ComesUp(n, w, k)
    ensures 2 <= j <= k && !ComesUp(n, w, j) && forall i :: 2 <= i < j ==> ComesUp(n, w, i)
  {
    hide ComesUp;
    if i: nat :| 2 <= i < k && !ComesUp(n, w, i) { j := FirstOvertaken(n, w, i); } else { j := k; }
  }

  /**
    Equal weights take turns in ID order for ever exactly when no wrapped score overtakes, which
    is exactly when each of them wins one of the first n picks.
   */
  lemma EqualWeightsTakeTurns(ids: seq<string>, ws: map<string, int>, w: int)
    requires AllWeigh(ids, ws, w)
    ensures (forall k: nat :: PickAt(ids, ws, k) == ids[k % |ids|]) <==> TurnRoom(|ids|, w)
    ensures (forall id :: id in ids ==> Wins(ids, ws, |ids|, id) == 1) <==> TurnRoom(|ids|, w)
  {
    assert |ids| >= 2;
    hide Contest, Run, PickAt, ComesUp, Turn;
    if TurnRoom(|ids|, w) {
      forall k: nat
        ensures PickAt(ids, ws, k) == ids[k % |ids|]
      {
        TurnOf(ids, ws, w, k + 1);
      }
      forall x | 0 <= x < |ids|
        ensures PickAt(ids, ws, x) == ids[x]
      {
        RemainderBelow(x, |ids|);
      }
      forall id | id in ids
        ensures Wins(ids, ws, |ids|, id) == 1
      {
        var i :| 0 <= i < |ids| && ids[i] == id;
        OneEach(ids, ws, |ids|, i);
      }
    } else {
      var k :| 2 <= k <= |ids| && !ComesUp(|ids|, w, k);
      var j := FirstOvertaken(|ids|, w, k);
      Overtaken(ids, ws, w, j);
    }
  }

  /** No score of equal weights overflows exactly while their sum fits, and then they take turns. */
  lemma EqualWeightsFit(ids: seq<string>, ws: map<string, int>, w: int)
    requires AllWeigh(ids, ws, w)
    ensures Fits(ids, ws) <==> |ids| * w < TWO_63
    ensures |ids| * w < TWO_63 ==> TurnRoom(|ids|, w)
  {
    hide Step, Run, Get, Less, SortedIds, Distinct, SumTo, TurnScore, Wrap;
    EqualSum(ids, ws, w, |ids|);
    if |ids| * w < TWO_63 {
      assert ids[0] in ids;
      SmallSumTurns(|ids|, w);
      forall k: nat, id | id in ids
        ensures Get(Run(ids, ws, k).current, id) + ws[id] < TWO_63
      {
        TurnOf(ids, ws, w, k);
        RemainderBelow(k, |ids|);
        var i :| 0 <= i < |ids| && ids[i] == id;
        TurnScores(|ids|, w, k % |ids|, i);
      }
    }
  }

  lemma SmallSumTurns(n: int, w: int)
    requires n > 0 && w > 0 && n * w < TWO_63
    ensures TurnRoom(n, w)
  {
    hide Wrap;
    forall j | 2 <= j <= n
      ensures ComesUp(n, w, j)
    {
      Ordered(w, j, n);
      Ordered(w, 0, j);
      Ordered(w, 1, n);
      Ordered(w, j - n, 0);
      Ordered(w, -n, j - n);
      Spread(w, n, -n);
      Spread(w, j, -n);
    }
  }

  /** The sum may overflow all the same: five weights of (2^64 + 4)/5 take turns for ever. */
  lemma OverflowingTurns(ids: seq<string>, ws: map<string, int>, w: int)
    requires AllWeigh(ids, ws, w) && |ids| == 5 && 5 * w == TWO_64 + 4
    ensures !Fits(ids, ws) && forall k: nat :: PickAt(ids, ws, k) == ids[k % 5]
  {
    hide Contest, PickAt, Fits;
    EqualWeightsFit(ids, ws, w);
    EqualWeightsTakeTurns(ids, ws, w);
  }
}
