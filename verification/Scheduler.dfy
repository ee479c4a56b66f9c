/**
  The weighted round-robin picker of internal/plugin/scheduler.go: a class whose methods
  update the nested pools in place, the one-step function they are proved against, and the
  fairness of every run of that step.
 */
module Scheduler {
  import opened Text

  const MAX_POOLS_PER_KEY := 256
  const MAX_CREDENTIALS_PER_POOL := 1024

  const TWO_63: int := 0x8000_0000_0000_0000
  const TWO_64: int := 0x1_0000_0000_0000_0000

  /** Two's-complement int64: the value an int64 variable holds after computing x. */
  function Wrap(x: int): (r: int)
    ensures -TWO_63 <= r < TWO_63
    ensures -TWO_63 <= x < TWO_63 ==> r == x
  {
    (x + TWO_63) % TWO_64 - TWO_63
  }

  lemma WrapIsModular(x: int)
    ensures (x - Wrap(x)) % TWO_64 == 0
  {
  }

  datatype Candidate = Candidate(id: string, weight: string)

  datatype PoolState = PoolState(current: map<string, int>, weights: map<string, int>)

  const FRESH := PoolState(map[], map[])

  // ----- Candidate weights ------------------------------------------------------------

  predicate Digits(s: string) {
    forall i :: 0 <= i < |s| ==> '0' <= s[i] <= '9'
  }

  function DecimalValue(s: string): (n: nat)
    requires Digits(s)
  {
    if s == "" then 0 else 10 * DecimalValue(s[..|s| - 1]) + (s[|s| - 1] as int - '0' as int)
  }

  /** strconv.ParseInt(raw, 10, 64): an optional sign, at least one digit, int64 range. */
  function ParseInt64(raw: string): (r: Option<int>)
  {
    var signed := raw != "" && (raw[0] == '+' || raw[0] == '-');
    var digits := if signed then raw[1..] else raw;
    if digits == "" || !Digits(digits) then None else
    var value: int := if signed && raw[0] == '-' then 0 - DecimalValue(digits) else DecimalValue(digits);
    if -TWO_63 <= value < TWO_63 then Some(value) else None
  }

  /** Blank means 1; anything that is not a positive int64 takes the candidate out of play. */
  function CandidateWeight(c: Candidate): (w: int)
    ensures 0 <= w < TWO_63
  {
    var raw := Trim(c.weight);
    if raw == "" then 1 else
    match ParseInt64(raw)
    case None => 0
    case Some(value) => if value <= 0 then 0 else value
  }

  /** IDs of the candidates that take part, in the order given. */
  function PositiveIds(candidates: seq<Candidate>): (ids: seq<string>)
  {
    if candidates == [] then [] else
    var c := candidates[|candidates| - 1];
    var front := PositiveIds(candidates[..|candidates| - 1]);
    if CandidateWeight(c) > 0 then front + [c.id] else front
  }

  /** Their weights; a repeated ID keeps its last one. */
  function PositiveWeights(candidates: seq<Candidate>): (ws: map<string, int>)
    ensures forall id :: id in ws <==> id in PositiveIds(candidates)
    ensures forall id :: id in ws ==> 0 < ws[id] < TWO_63
  {
    if candidates == [] then map[] else
    var c := candidates[|candidates| - 1];
    var front := PositiveWeights(candidates[..|candidates| - 1]);
    if CandidateWeight(c) > 0 then front[c.id := CandidateWeight(c)] else front
  }

  // ----- One pick ---------------------------------------------------------------------

  /** Only which candidates there are matters to a pick, not the order the host lists them in. */
  lemma PickIgnoresOrder(a: seq<Candidate>, b: seq<Candidate>)
    requires Distinct(PositiveIds(a)) && Distinct(PositiveIds(b))
    requires PositiveWeights(a) == PositiveWeights(b)
    ensures SortIds(PositiveIds(a)) == SortIds(PositiveIds(b))
  {
    SortIdsSorts(PositiveIds(a));
    SortIdsSorts(PositiveIds(b));
    forall x
      ensures x in PositiveIds(a) <==> x in PositiveIds(b)
    {
      assert x in PositiveIds(a) <==> x in PositiveWeights(a);
      assert x in PositiveIds(b) <==> x in PositiveWeights(b);
    }
    SortedUnique(SortIds(PositiveIds(a)), SortIds(PositiveIds(b)));
  }

  function Get(m: map<string, int>, id: string): int {
    if id in m then m[id] else 0
  }

  /** What the selection loop has computed after the candidates seen so far. */
  datatype Scan = Scan(current: map<string, int>, total: int, selected: string, highest: int)

  function ScanOne(s: Scan, id: string, weight: int): Scan {
    var score := Wrap(Get(s.current, id) + weight);
    var wins := s.selected == "" || score > s.highest || (score == s.highest && Less(id, s.selected));
    Scan(s.current[id := score], Wrap(s.total + weight),
         if wins then id else s.selected, if wins then score else s.highest)
  }

  /** The loop's state after the first n candidates. */
  function ScanTo(current: map<string, int>, ids: seq<string>, ws: map<string, int>, n: nat): Scan
    requires n <= |ids| && forall id :: id in ids ==> id in ws
  {
    if n == 0 then Scan(current, 0, "", 0) else
    ScanOne(ScanTo(current, ids, ws, n - 1), ids[n - 1], ws[ids[n - 1]])
  }

  predicate WeightChanged(weights: map<string, int>, ids: seq<string>, ws: map<string, int>)
    requires forall id :: id in ids ==> id in ws
  {
    exists id :: id in ids && id in weights && weights[id] != ws[id]
  }

  function Recorded(weights: map<string, int>, ids: seq<string>, ws: map<string, int>): (r: map<string, int>)
    requires forall id :: id in ids ==> id in ws
    ensures forall id :: id in ids ==> id in r && r[id] == ws[id]
  {
    weights + Restricted(ws, ids)
  }

  lemma RecordNone(known: map<string, int>, ids: seq<string>, ws: map<string, int>)
    requires forall id :: id in ids ==> id in ws
    ensures Recorded(known, ids[..0], ws) == known && !WeightChanged(known, ids[..0], ws)
  {
  }

  lemma RecordOneMore(known: map<string, int>, ids: seq<string>, ws: map<string, int>, i: nat)
    requires i < |ids| && forall id :: id in ids ==> id in ws
    ensures Recorded(known, ids[..i + 1], ws) == Recorded(known, ids[..i], ws)[ids[i] := ws[ids[i]]]
    ensures WeightChanged(known, ids[..i + 1], ws) <==>
            WeightChanged(known, ids[..i], ws) || var w := Recorded(known, ids[..i], ws);
                                                  ids[i] in w && w[ids[i]] != ws[ids[i]]
  {
    assert ids[..i + 1] == ids[..i] + [ids[i]];
    assert ids[i] in ids[..i + 1];
    assert forall x :: x in ids[..i + 1] <==> x in ids[..i] || x == ids[i];
  }

  function Restricted(m: map<string, int>, ids: seq<string>): (r: map<string, int>)
    ensures forall id :: id in r <==> id in ids
    ensures forall id :: id in ids ==> r[id] == Get(m, id)
  {
    map id | id in ids :: Get(m, id)
  }

  /** The pool after recording weights, resetting on a weight change and trimming. */
  function Prepared(p: PoolState, ids: seq<string>, ws: map<string, int>): (r: PoolState)
    requires forall id :: id in ids ==> id in ws
    ensures forall id :: id in ids ==> id in r.weights && r.weights[id] == ws[id]
  {
    var current := if WeightChanged(p.weights, ids, ws) then map[] else p.current;
    if |current| > MAX_CREDENTIALS_PER_POOL then
      PoolState(Restricted(current, ids), Restricted(ws, ids))
    else
      PoolState(current, Recorded(p.weights, ids, ws))
  }

  function Step(p: PoolState, ids: seq<string>, ws: map<string, int>): (r: (PoolState, string))
    requires forall id :: id in ids ==> id in ws
  {
    var ready := Prepared(p, ids, ws);
    var s := ScanTo(ready.current, ids, ws, |ids|);
    (PoolState(s.current[s.selected := Wrap(Get(s.current, s.selected) - s.total)], ready.weights), s.selected)
  }

  type Pools = map<string, PoolState>

  class SubsetScheduler {
    var keys: map<string, Pools>

    constructor ()
      ensures keys == map[]
    {
      keys := map[];
    }

    function PoolsOf(scope: string): Pools
      reads this
    {
      if scope in keys then keys[scope] else map[]
    }

    /** A key with 256 pools drops every one of them before it opens a new one. */
    method Pick(scope: string, pool: string, candidates: seq<Candidate>) returns (id: string)
      requires forall c :: c in candidates ==> c.id != ""
      modifies this
      ensures |PositiveIds(candidates)| == 0 ==> id == "" && keys == old(keys)
      ensures |PositiveIds(candidates)| == 1 ==> id == PositiveIds(candidates)[0] && keys == old(keys)
      ensures |PositiveIds(candidates)| > 1 ==>
                var pools := if scope in old(keys) then old(keys)[scope] else map[];
                var (next, picked) := Step(if pool in pools then pools[pool] else FRESH,
                                           SortIds(PositiveIds(candidates)), PositiveWeights(candidates));
                id == picked && keys == old(keys)[scope :=
                  if pool !in pools && |pools| >= 256 then map[pool := next] else pools[pool := next]]
    {
      var positive, ws := Positive(candidates);
      if |positive| == 0 { return ""; }
      if |positive| == 1 { return positive[0]; }
      var ids := SortIds(positive);
      var pools := PoolsOf(scope);
      var opening := pool !in pools;
      var state := if opening then FRESH else pools[pool];
      if opening && |pools| >= MAX_POOLS_PER_KEY {
        pools := map[];
      }
      var next;
      next, id := Advance(state, ids, ws);
      keys := keys[scope := pools[pool := next]];
    }

    static method Advance(state: PoolState, ids: seq<string>, ws: map<string, int>)
      returns (next: PoolState, selected: string)
      requires forall id :: id in ids ==> id in ws
      ensures (next, selected) == Step(state, ids, ws)
    {
      hide Prepared, ScanTo, Wrap, Get;
      var ready := Prepare(state, ids, ws);
      var s := Select(ready, ids, ws);
      next := PoolState(s.current[s.selected := Wrap(Get(s.current, s.selected) - s.total)], ready.weights);
      selected := s.selected;
    }

    static method Positive(candidates: seq<Candidate>) returns (ids: seq<string>, ws: map<string, int>)
      ensures ids == PositiveIds(candidates) && ws == PositiveWeights(candidates)
    {
      ids, ws := [], map[];
      for i := 0 to |candidates|
        invariant ids == PositiveIds(candidates[..i])
        invariant ws == PositiveWeights(candidates[..i])
      {
        assert candidates[..i + 1][..i] == candidates[..i];
        var weight := CandidateWeight(candidates[i]);
        if weight > 0 {
          ids := ids + [candidates[i].id];
          ws := ws[candidates[i].id := weight];
        }
      }
      assert candidates[..|candidates|] == candidates;
    }

    /** Records the offered weights; a changed weight restarts the scores, too many scores are trimmed. */
    static method Prepare(state: PoolState, ids: seq<string>, ws: map<string, int>) returns (ready: PoolState)
      requires forall id :: id in ids ==> id in ws
      ensures ready == Prepared(state, ids, ws)
    {
      var weights, weightsChanged := Record(state.weights, ids, ws);
      var current := if weightsChanged then map[] else state.current;
      if |current| > MAX_CREDENTIALS_PER_POOL {
        current := Trimmed(current, ids);
        weights := Trimmed(weights, ids);
        assert weights == Restricted(ws, ids);
      }
      ready := PoolState(current, weights);
    }

    static method Record(known: map<string, int>, ids: seq<string>, ws: map<string, int>)
      returns (weights: map<string, int>, changed: bool)
      requires forall id :: id in ids ==> id in ws
      ensures weights == Recorded(known, ids, ws) && changed == WeightChanged(known, ids, ws)
    {
      hide WeightChanged;
      weights, changed := known, false;
      RecordNone(known, ids, ws);
      for i := 0 to |ids|
        invariant weights == Recorded(known, ids[..i], ws)
        invariant changed == WeightChanged(known, ids[..i], ws)
      {
        RecordOneMore(known, ids, ws, i);
        if ids[i] in weights && weights[ids[i]] != ws[ids[i]] {
          changed := true;
        }
        weights := weights[ids[i] := ws[ids[i]]];
      }
      assert ids[..|ids|] == ids;
    }

    static method Trimmed(scores: map<string, int>, ids: seq<string>) returns (kept: map<string, int>)
      ensures kept == Restricted(scores, ids)
    {
      kept := map[];
      for i := 0 to |ids|
        invariant kept == Restricted(scores, ids[..i])
      {
        assert ids[..i + 1] == ids[..i] + [ids[i]];
        kept := kept[ids[i] := Get(scores, ids[i])];
        assert kept == Restricted(scores, ids[..i + 1]);
      }
      assert ids[..|ids|] == ids;
    }

    /** Adds every weight to its score and keeps the first highest score in ID order. */
    static method Select(ready: PoolState, ids: seq<string>, ws: map<string, int>) returns (s: Scan)
      requires forall id :: id in ids ==> id in ws && id in ready.weights && ready.weights[id] == ws[id]
      ensures s == ScanTo(ready.current, ids, ws, |ids|)
    {
      hide Wrap, Less;
      var current, total, selected, highest := ready.current, 0, "", 0;
      for i := 0 to |ids|
        invariant Scan(current, total, selected, highest) == ScanTo(ready.current, ids, ws, i)
      {
        var weight := ready.weights[ids[i]];
        total := Wrap(total + weight);
        var score := Wrap(Get(current, ids[i]) + weight);
        current := current[ids[i] := score];
        if selected == "" || score > highest || (score == highest && Less(ids[i], selected)) {
          selected, highest := ids[i], score;
        }
      }
      s := Scan(current, total, selected, highest);
    }

    method Prune(scopes: set<string>)
      modifies this
      ensures keys == map scope | scope in old(keys) && scope in scopes :: old(keys)[scope]
    {
      var pending := keys.Keys;
      while pending != {}
        invariant pending <= old(keys).Keys
        invariant keys == map scope | scope in old(keys) && (scope in pending || scope in scopes) :: old(keys)[scope]
        decreases pending
      {
        var scope :| scope in pending;
        pending := pending - {scope};
        if scope !in scopes {
          keys := keys - {scope};
        }
      }
    }
  }
}
