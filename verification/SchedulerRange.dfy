/**
  How large two weights of internal/plugin/scheduler.go may be before int64 scores overflow:
  the exact limit.
 */
module SchedulerRange {
  import opened Text
  import opened Scheduler
  import opened SchedulerFairness

  // ----- Products -----------------------------------------------------------------------

  lemma Ordered(g: int, x: int, y: int)
    requires g >= 0 && x <= y
    ensures g * x <= g * y
  {
  }

  lemma Spread(g: int, x: int, y: int)
    ensures g * (x + y) == g * x + g * y
  {
  }

  lemma Doubled(g: int, x: int)
    ensures 2 * (g * x) == g * (2 * x)
  {
  }

  // ----- Greatest common divisors -----------------------------------------------------

  function Gcd(a: nat, b: nat): (g: nat)
    requires a > 0
    ensures g > 0
    decreases b
  {
    if b == 0 then a else Gcd(b, a % b)
  }

  lemma {:induction false} GcdDivides(a: nat, b: nat) returns (p: nat, q: nat)
    requires a > 0
    ensures a == Gcd(a, b) * p && b == Gcd(a, b) * q
    decreases b
  {
    if b == 0 {
      p, q := 1, 0;
    } else {
      var r: nat;
      q, r := GcdDivides(b, a % b);
      p := (a / b) * q + r;
      assert a == b * (a / b) + a % b;
      Regrouped(Gcd(a, b), q, r, a / b);
    }
  }

  lemma Regrouped(g: int, q: int, r: int, d: int)
    ensures (g * q) * d + g * r == g * (d * q + r)
  {
    Spread(g, d * q, r);
    assert (g * q) * d == g * (d * q);
  }

  lemma {:induction false} Bezout(a: nat, b: nat) returns (x: int, y: int)
    requires a > 0
    ensures a * x + b * y == Gcd(a, b)
    decreases b
  {
    if b == 0 {
      x, y := 1, 0;
    } else {
      var u, v := Bezout(b, a % b);
      x, y := v, u - (a / b) * v;
      assert a == b * (a / b) + a % b;
      assert a * v == b * ((a / b) * v) + (a % b) * v;
      assert b * (u - (a / b) * v) == b * u - b * ((a / b) * v);
    }
  }

  // ----- Two candidates ---------------------------------------------------------------

  /**
    The limit for two weights, of the candidate with the smaller ID first. With g their
    greatest common divisor and m = W/g, the scores before a pick are the multiples of g from
    -W/2 up to but not including W/2; adding the own weight to the highest must not overflow.
   */
  predicate PairRoom(wa: int, wb: int)
    requires wa > 0 && wb > 0
  {
    var g := Gcd(wa, wb);
    var m := (wa + wb) / g;
    g * ((m - 1) / 2) + wa < TWO_63 && g * (m / 2) + wb < TWO_63
  }

  /** At every moment each candidate is within half a pick of its share. */
  ghost predicate HalfPick(ids: seq<string>, ws: map<string, int>)
    requires Contest(ids, ws)
  {
    forall k: nat, id :: id in ids ==>
      -Weight(ids, ws) <= 2 * (k * ws[id] - Weight(ids, ws) * Wins(ids, ws, k, id)) <= Weight(ids, ws)
  }

  ghost predicate Pair(ids: seq<string>, ws: map<string, int>) {
    Contest(ids, ws) && |ids| == 2
  }

  lemma PairWeights(ids: seq<string>, ws: map<string, int>)
    requires Pair(ids, ws)
    ensures forall id :: id in ids ==> id in ws && 0 < ws[id] < TWO_63
    ensures ids[0] in ids && ids[1] in ids
  {
    hide Less;
  }

  lemma PairFacts(ids: seq<string>, ws: map<string, int>)
    requires Pair(ids, ws)
    ensures Weight(ids, ws) == ws[ids[0]] + ws[ids[1]] && ids[0] != ids[1]
    ensures Less(ids[0], ids[1]) && !Less(ids[1], ids[0])
    ensures Price(ids, ws, 2) == Wrap(ws[ids[0]] + ws[ids[1]])
    ensures forall id :: id in ids <==> id == ids[0] || id == ids[1]
  {
    hide Less;
    LessTotal(ids[0], ids[1]);
    assert SumTo(ws, ids, 1) == ws[ids[0]];
    assert Price(ids, ws, 1) == ws[ids[0]];
  }

  /** Scores of a pair are opposite and within half a period. */
  ghost predicate Opposite(p: PoolState, ids: seq<string>, ws: map<string, int>)
    requires Pair(ids, ws)
  {
    && Tuned(p, ids, ws) && Get(p.current, ids[1]) == -Get(p.current, ids[0])
    && -Weight(ids, ws) <= 2 * Get(p.current, ids[0]) < Weight(ids, ws)
  }

  ghost predicate PairRaisable(p: PoolState, ids: seq<string>, ws: map<string, int>)
    requires Pair(ids, ws)
  {
    Get(p.current, ids[0]) + ws[ids[0]] < TWO_63 && Get(p.current, ids[1]) + ws[ids[1]] < TWO_63
  }

  /** Paying a wrapped price is paying the price where the result is an int64 value. */
  lemma WrapPays(top: int, price: int)
    requires -TWO_63 <= top - price < TWO_63
    ensures Wrap(top - Wrap(price)) == top - price
  {
    WrapIsModular(price);
  }

  /** While both raised scores are int64 values, the pair stays opposite and plain arithmetic holds. */
  lemma PairStep(p: PoolState, ids: seq<string>, ws: map<string, int>)
    requires Pair(ids, ws) && Opposite(p, ids, ws) && PairRaisable(p, ids, ws)
    ensures var (next, picked) := Step(p, ids, ws);
            && (picked == ids[0] || picked == ids[1]) && Opposite(next, ids, ws)
            && forall id :: id in ids ==>
                 Get(next.current, id) == Get(p.current, id) + ws[id] - (if id == picked then Weight(ids, ws) else 0)
  {
    hide Step, Wrap, Less, SortedIds, Distinct, Tuned, Get, SumTo, Price;
    PairFacts(ids, ws);
    StepEffect(p, ids, ws);
    var a, b := ids[0], ids[1];
    var c, w := Get(p.current, a), ws[a] + ws[b];
    assert Raised(p.current, ws, a) == c + ws[a] && Raised(p.current, ws, b) == ws[b] - c;
    var (next, picked) := Step(p, ids, ws);
    assert a in ids && b in ids && picked in ids;
    WrapPays(Raised(p.current, ws, picked), w);
  }

  /** A raised score beyond int64 becomes a very low one, and the other candidate is picked. */
  lemma OverflowLoses(p: PoolState, ids: seq<string>, ws: map<string, int>)
    requires Pair(ids, ws) && Opposite(p, ids, ws)
    ensures Get(p.current, ids[0]) + ws[ids[0]] >= TWO_63 ==> Step(p, ids, ws).1 == ids[1]
    ensures Get(p.current, ids[1]) + ws[ids[1]] >= TWO_63 ==> Step(p, ids, ws).1 == ids[0]
  {
    hide Step, Less, SortedIds, Distinct, Tuned, Get, SumTo, Price, Wrap, Weight;
    PairFacts(ids, ws);
    PairWeights(ids, ws);
    StepEffect(p, ids, ws);
    var a, b := ids[0], ids[1];
    var x, y := Get(p.current, a) + ws[a], Get(p.current, b) + ws[b];
    if x >= TWO_63 {
      WrapsBelow(x, y, ws[a], ws[b]);
    } else if y >= TWO_63 {
      WrapsBelow(y, x, ws[b], ws[a]);
    }
  }

  lemma WrapsBelow(x: int, y: int, w: int, v: int)
    requires 0 < w < TWO_63 && 0 < v < TWO_63 && x + y == w + v && TWO_63 <= x && 2 * x <= 3 * w + v
    ensures y < TWO_63 && Wrap(x) < Wrap(y)
  {
    assert Wrap(x) == x - TWO_64;
    assert Wrap(y) == y;
  }

  /** After k picks the scores are what the weights earned minus what the wins cost. */
  ghost predicate Exact(ids: seq<string>, ws: map<string, int>, k: nat)
    requires Pair(ids, ws)
  {
    && Opposite(Run(ids, ws, k), ids, ws)
    && forall id :: id in ids ==> Get(Run(ids, ws, k).current, id) == k * ws[id] - Weight(ids, ws) * Wins(ids, ws, k, id)
  }

  lemma ExactAtFirst(ids: seq<string>, ws: map<string, int>)
    requires Pair(ids, ws)
    ensures Exact(ids, ws, 0)
  {
    PairFacts(ids, ws);
  }

  lemma ExactNext(ids: seq<string>, ws: map<string, int>, k: nat)
    requires Pair(ids, ws) && Exact(ids, ws, k) && PairRaisable(Run(ids, ws, k), ids, ws)
    ensures Exact(ids, ws, k + 1)
  {
    hide Step, Contest, Opposite, Weight, Get, PairRaisable;
    PairWeights(ids, ws);
    PairStep(Run(ids, ws, k), ids, ws);
    forall id | id in ids
      ensures Get(Run(ids, ws, k + 1).current, id) == (k + 1) * ws[id] - Weight(ids, ws) * Wins(ids, ws, k + 1, id)
    {
      Account(k + 1, ws[id], Weight(ids, ws), Wins(ids, ws, k, id));
    }
  }

  /** The first overflow takes somebody out of half a pick's reach of its share. */
  lemma OverflowStrays(ids: seq<string>, ws: map<string, int>, k: nat)
    requires Pair(ids, ws) && Exact(ids, ws, k) && !PairRaisable(Run(ids, ws, k), ids, ws)
    ensures !HalfPick(ids, ws)
  {
    hide Step, Contest, Run, Tuned, Get, Weight;
    PairWeights(ids, ws);
    PairFacts(ids, ws);
    OverflowLoses(Run(ids, ws, k), ids, ws);
    var loser := if Get(Run(ids, ws, k).current, ids[0]) + ws[ids[0]] >= TWO_63 then ids[0] else ids[1];
    assert Wins(ids, ws, k + 1, loser) == Wins(ids, ws, k, loser);
    Account(k + 1, ws[loser], Weight(ids, ws), Wins(ids, ws, k, loser));
  }

  lemma {:induction false} HalfPickRaises(ids: seq<string>, ws: map<string, int>, k: nat)
    requires Pair(ids, ws) && HalfPick(ids, ws)
    ensures Exact(ids, ws, k) && PairRaisable(Run(ids, ws, k), ids, ws)
  {
    hide Exact, HalfPick, PairRaisable, Contest, Run;
    if k == 0 {
      ExactAtFirst(ids, ws);
    } else {
      HalfPickRaises(ids, ws, k - 1);
      ExactNext(ids, ws, k - 1);
    }
    if !PairRaisable(Run(ids, ws, k), ids, ws) { OverflowStrays(ids, ws, k); }
  }

  lemma {:induction false} FitsRaises(ids: seq<string>, ws: map<string, int>, k: nat)
    requires Pair(ids, ws) && Fits(ids, ws)
    ensures Exact(ids, ws, k) && PairRaisable(Run(ids, ws, k), ids, ws)
  {
    hide Exact, Contest, Run, Get;
    assert ids[0] in ids && ids[1] in ids;
    if k == 0 {
      ExactAtFirst(ids, ws);
    } else {
      FitsRaises(ids, ws, k - 1);
      ExactNext(ids, ws, k - 1);
    }
  }

  // ----- Which scores a pair visits -----------------------------------------------------

  /** Numbers a period apart within one half-open period are equal. */
  lemma SameResidue(x: int, y: int, w: int, z: int)
    requires w > 0 && -w <= 2 * x < w && -w <= 2 * y < w && x - y == w * z
    ensures x == y
  {
    if z >= 1 { Ordered(w, 1, z); }
    if z <= -1 { Ordered(w, z, -1); }
  }

  /** Every multiple of the divisor within half a period is the score before some pick. */
  lemma Visits(ids: seq<string>, ws: map<string, int>, j: int) returns (k: nat)
    requires Pair(ids, ws) && forall i: nat :: Exact(ids, ws, i)
    requires var g := Gcd(ws[ids[0]], ws[ids[1]]); -Weight(ids, ws) <= 2 * (g * j) < Weight(ids, ws)
    ensures Get(Run(ids, ws, k).current, ids[0]) == Gcd(ws[ids[0]], ws[ids[1]]) * j
  {
    hide Contest, Run, Tuned, Get, Wins, Weight, Gcd;
    PairWeights(ids, ws);
    PairFacts(ids, ws);
    var wa, wb, w := ws[ids[0]], ws[ids[1]], Weight(ids, ws);
    var g := Gcd(wa, wb);
    var x, y := Bezout(wa, wb);
    var u := (x - y) * j;
    var t := if u < 0 then -u else u;
    k := Reached(u, w, t);
    assert ids[0] in ids && Exact(ids, ws, k);
    var n := Wins(ids, ws, k, ids[0]);
    Congruent(wa, wb, x, y, g, j, k, t, n);
    SameResidue(k * wa - w * n, g * j, w, wa * t - y * j - n);
  }

  lemma Reached(u: int, w: int, t: int) returns (k: nat)
    requires w > 0 && t >= 0 && t >= -u
    ensures k == u + w * t
  {
    assert w * t >= t;
    k := u + w * t;
  }

  lemma Congruent(wa: int, wb: int, x: int, y: int, g: int, j: int, k: int, t: int, n: int)
    requires wa * x + wb * y == g && k == (x - y) * j + (wa + wb) * t
    ensures k * wa - (wa + wb) * n - g * j == (wa + wb) * (wa * t - y * j - n)
  {
    assert g * j == wa * x * j + wb * y * j;
    assert k * wa == (x * j - y * j) * wa + (wa + wb) * t * wa;
  }

  lemma RaisedWithin(ids: seq<string>, ws: map<string, int>)
    requires Pair(ids, ws) && forall k: nat :: Exact(ids, ws, k) && PairRaisable(Run(ids, ws, k), ids, ws)
    ensures PairRoom(ws[ids[0]], ws[ids[1]])
  {
    hide Contest, Run, Exact, Gcd, Get, Weight;
    PairWeights(ids, ws);
    PairFacts(ids, ws);
    var wa, wb := ws[ids[0]], ws[ids[1]];
    var g := Gcd(wa, wb);
    var p, q := GcdDivides(wa, wb);
    var m: int := p + q;
    Parts(g, p, q);
    Halves(g, m);
    var high := Visits(ids, ws, (m - 1) / 2);
    var low := Visits(ids, ws, -(m / 2));
    assert PairRaisable(Run(ids, ws, high), ids, ws) && PairRaisable(Run(ids, ws, low), ids, ws);
    OppositeScores(ids, ws, low);
  }

  lemma OppositeScores(ids: seq<string>, ws: map<string, int>, k: nat)
    requires Pair(ids, ws) && Exact(ids, ws, k)
    ensures Get(Run(ids, ws, k).current, ids[1]) == -Get(Run(ids, ws, k).current, ids[0])
  {
  }

  lemma Parts(g: int, p: int, q: int)
    requires g > 0 && g * p > 0 && g * q > 0
    ensures p > 0 && q > 0 && g * p + g * q == g * (p + q) && (g * (p + q)) / g == p + q
  {
    if p <= 0 { Ordered(g, p, 0); }
    if q <= 0 { Ordered(g, q, 0); }
    Spread(g, p, q);
    Divided(g, p + q);
  }

  lemma Divided(g: int, m: int)
    requires g > 0
    ensures (g * m) / g == m
  {
    var d, r := (g * m) / g, (g * m) % g;
    Remainder(g, m, d, r);
  }

  lemma Remainder(g: int, m: int, d: int, r: int)
    requires g > 0 && g * m == g * d + r && 0 <= r < g
    ensures m == d
  {
    Spread(g, m - d, d);
    if m > d { Ordered(g, 1, m - d); }
    if m < d { Ordered(g, m - d, -1); }
  }

  /** The highest and the lowest multiple within half a period. */
  lemma Halves(g: int, m: int)
    requires g > 0 && m > 0
    ensures 0 <= 2 * (g * ((m - 1) / 2)) < g * m && 0 <= 2 * (g * (m / 2)) <= g * m
    ensures g * -(m / 2) == -(g * (m / 2))
  {
    var l, h := (m - 1) / 2, m / 2;
    Doubled(g, l);
    Doubled(g, h);
    Ordered(g, 0, l);
    Ordered(g, 0, h);
    Ordered(g, 2 * l, m - 1);
    Ordered(g, 2 * h, m);
    Spread(g, m - 1, 1);
    Spread(g, h, -h);
  }

  /** A multiple of g within half a period of g*m is at most the highest and at least the lowest one. */
  lemma MultipleWithin(g: int, m: int, z: int)
    requires g > 0 && m > 0 && -(g * m) <= 2 * (g * z) < g * m
    ensures g * z <= g * ((m - 1) / 2) && -(g * z) <= g * (m / 2)
  {
    Doubled(g, z);
    if 2 * z >= m { Ordered(g, m, 2 * z); }
    if 2 * z < -m {
      Ordered(g, 2 * z, -m - 1);
      Spread(g, -m, -1);
      Spread(g, m, -m);
    }
    Ordered(g, z, (m - 1) / 2);
    Ordered(g, -z, m / 2);
    Spread(g, z, -z);
  }

  lemma {:induction false} RoomKeepsPair(ids: seq<string>, ws: map<string, int>, k: nat)
    requires Pair(ids, ws) && PairRoom(ws[ids[0]], ws[ids[1]])
    ensures Exact(ids, ws, k) && PairRaisable(Run(ids, ws, k), ids, ws)
  {
    hide Exact, Contest, Run, PairRaisable, PairRoom;
    if k == 0 {
      ExactAtFirst(ids, ws);
    } else {
      RoomKeepsPair(ids, ws, k - 1);
      ExactNext(ids, ws, k - 1);
    }
    RoomRaisesPair(ids, ws, k);
  }

  lemma RoomRaisesPair(ids: seq<string>, ws: map<string, int>, k: nat)
    requires Pair(ids, ws) && PairRoom(ws[ids[0]], ws[ids[1]]) && Exact(ids, ws, k)
    ensures PairRaisable(Run(ids, ws, k), ids, ws)
  {
    hide Contest, Run, Gcd, Get, Wins, Tuned, Weight;
    PairWeights(ids, ws);
    PairFacts(ids, ws);
    var wa, wb := ws[ids[0]], ws[ids[1]];
    var g := Gcd(wa, wb);
    var p, q := GcdDivides(wa, wb);
    var m := p + q;
    Parts(g, p, q);
    var n := Wins(ids, ws, k, ids[0]);
    Factored(g, p, q, k, n);
    MultipleWithin(g, m, k * p - m * n);
  }

  lemma Factored(g: int, p: int, q: int, k: int, n: int)
    ensures k * (g * p) - (g * p + g * q) * n == g * (k * p - (p + q) * n)
  {
    assert k * (g * p) == g * (k * p);
    assert (g * p + g * q) * n == g * ((p + q) * n);
    Spread(g, k * p, -((p + q) * n));
  }

  /** The limit leaves room for the sum of the weights as well. */
  lemma PairRoomHoldsWeight(wa: int, wb: int)
    requires wa > 0 && wb > 0 && PairRoom(wa, wb)
    ensures wa + wb < TWO_63
  {
    hide Gcd;
    var g := Gcd(wa, wb);
    var p, q := GcdDivides(wa, wb);
    var m := p + q;
    Parts(g, p, q);
    var h, l := m / 2, (m - 1) / 2;
    Spread(g, l, p);
    Spread(g, h, q);
    if q >= m - h { Ordered(g, m, h + q); } else { Ordered(g, m, l + p); }
  }

  /**
    Two candidates stay within half a pick of their shares for ever exactly when their
    weights respect the limit, which is also when no score ever overflows.
   */
  lemma PairLimit(ids: seq<string>, ws: map<string, int>)
    requires Pair(ids, ws)
    ensures HalfPick(ids, ws) <==> PairRoom(ws[ids[0]], ws[ids[1]])
    ensures Fits(ids, ws) <==> PairRoom(ws[ids[0]], ws[ids[1]])
  {
    hide Exact, PairRaisable, PairRoom, HalfPick, Fits, Contest;
    PairWeights(ids, ws);
    if HalfPick(ids, ws) {
      forall k: nat
        ensures Exact(ids, ws, k) && PairRaisable(Run(ids, ws, k), ids, ws)
      {
        HalfPickRaises(ids, ws, k);
      }
      RaisedWithin(ids, ws);
    }
    if Fits(ids, ws) {
      forall k: nat
        ensures Exact(ids, ws, k) && PairRaisable(Run(ids, ws, k), ids, ws)
      {
        FitsRaises(ids, ws, k);
      }
      RaisedWithin(ids, ws);
    }
    if PairRoom(ws[ids[0]], ws[ids[1]]) {
      forall k: nat
        ensures Exact(ids, ws, k) && PairRaisable(Run(ids, ws, k), ids, ws)
      {
        RoomKeepsPair(ids, ws, k);
      }
      PairRoomHoldsWeight(ws[ids[0]], ws[ids[1]]);
      RaisedFits(ids, ws);
    }
  }

  lemma RaisedFits(ids: seq<string>, ws: map<string, int>)
    requires Pair(ids, ws) && ws[ids[0]] + ws[ids[1]] < TWO_63
    requires forall k: nat :: Exact(ids, ws, k) && PairRaisable(Run(ids, ws, k), ids, ws)
    ensures Fits(ids, ws) && HalfPick(ids, ws)
  {
    hide Run, Contest, Tuned, Get, Wins, Weight;
    PairWeights(ids, ws);
    PairFacts(ids, ws);
    forall k: nat, id | id in ids
      ensures Get(Run(ids, ws, k).current, id) + ws[id] < TWO_63
      ensures -Weight(ids, ws) <= 2 * (k * ws[id] - Weight(ids, ws) * Wins(ids, ws, k, id)) <= Weight(ids, ws)
    {
      assert Exact(ids, ws, k) && PairRaisable(Run(ids, ws, k), ids, ws);
      assert id == ids[0] || id == ids[1];
    }
  }
}
