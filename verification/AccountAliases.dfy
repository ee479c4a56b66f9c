/**
  The credential alias forest of internal/plugin/account_runtime.go: following aliases to a
  pool's root, flattening them, and linking two pools when a credential is replaced.
 */
module AccountAliases {
  import opened Text

  type Aliases = map<string, string>

  // ----- Following aliases ------------------------------------------------------------

  /** Where at most n alias steps lead. */
  ghost function Walk(al: Aliases, ref: string, n: nat): string
    decreases n
  {
    if n == 0 || ref !in al then ref else Walk(al, al[ref], n - 1)
  }

  ghost predicate Rooted(al: Aliases, ref: string) {
    exists n: nat :: Walk(al, ref, n) !in al
  }

  ghost function Root(al: Aliases, ref: string): (r: string)
    requires Rooted(al, ref)
    ensures r !in al
  {
    var n: nat :| Walk(al, ref, n) !in al;
    Walk(al, ref, n)
  }

  ghost predicate Acyclic(al: Aliases) {
    forall ref :: Rooted(al, ref)
  }

  lemma {:induction false} WalkAdds(al: Aliases, ref: string, m: nat, n: nat)
    ensures Walk(al, ref, m + n) == Walk(al, Walk(al, ref, m), n)
    decreases m
  {
    if m > 0 && ref in al { WalkAdds(al, al[ref], m - 1, n); }
  }

  lemma RootIs(al: Aliases, ref: string, n: nat)
    requires Walk(al, ref, n) !in al
    ensures Rooted(al, ref) && Root(al, ref) == Walk(al, ref, n)
  {
    assert Rooted(al, ref);
    var m: nat :| Walk(al, ref, m) !in al && Root(al, ref) == Walk(al, ref, m);
    if m <= n {
      WalkAdds(al, ref, m, n - m);
    } else {
      WalkAdds(al, ref, n, m - n);
    }
  }

  lemma RootOfRoot(al: Aliases, ref: string)
    requires ref !in al
    ensures Rooted(al, ref) && Root(al, ref) == ref
  {
    RootIs(al, ref, 0);
  }

  lemma RootStep(al: Aliases, ref: string)
    requires ref in al
    ensures Rooted(al, ref) <==> Rooted(al, al[ref])
    ensures Rooted(al, ref) ==> Root(al, ref) == Root(al, al[ref])
  {
    if Rooted(al, ref) {
      var n: nat :| Walk(al, ref, n) !in al;
      RootIs(al, al[ref], n - 1);
      RootIs(al, ref, n);
    } else if Rooted(al, al[ref]) {
      var n: nat :| Walk(al, al[ref], n) !in al;
      assert Walk(al, ref, n + 1) !in al;
    }
  }

  /** Every reference on the way to a root has that root. */
  lemma {:induction false} RootAlong(al: Aliases, ref: string, n: nat)
    ensures Rooted(al, ref) <==> Rooted(al, Walk(al, ref, n))
    ensures Rooted(al, ref) ==> Root(al, ref) == Root(al, Walk(al, ref, n))
    decreases n
  {
    if n > 0 && ref in al {
      RootStep(al, ref);
      RootAlong(al, al[ref], n - 1);
    }
  }

  /** A walk that comes back never ends. */
  lemma {:induction false} CycleIsEndless(al: Aliases, ref: string, k: nat, n: nat)
    requires 0 < k && ref in al && Walk(al, ref, k) == ref
    ensures Walk(al, ref, n) in al
    decreases n
  {
    if n < k {
      if Walk(al, ref, n) !in al {
        WalkAdds(al, ref, n, k - n);
        assert false;
      }
    } else {
      WalkAdds(al, ref, k, n - k);
      CycleIsEndless(al, ref, k, n - k);
    }
  }

  lemma CycleHasNoRoot(al: Aliases, start: string, i: nat, j: nat)
    requires i < j && Walk(al, start, i) == Walk(al, start, j) && Walk(al, start, j) in al
    ensures !Rooted(al, start)
  {
    var ref := Walk(al, start, i);
    WalkAdds(al, start, i, j - i);
    RootAlong(al, start, i);
    forall n: nat
      ensures Walk(al, ref, n) in al
    {
      CycleIsEndless(al, ref, j - i, n);
    }
  }

  /** resolveAccountAlias: finds the root, or reports a cycle exactly when there is none. */
  method ResolveAlias(al: Aliases, start: string) returns (r: Result<string>)
    ensures r.Ok? <==> Rooted(al, start)
    ensures r.Ok? ==> r.value == Root(al, start)
  {
    var ref := start;
    var seen: set<string> := {};
    ghost var n: nat := 0;
    while ref in al
      invariant ref == Walk(al, start, n)
      invariant seen <= al.Keys && forall x :: x in seen ==> exists i :: 0 <= i < n && Walk(al, start, i) == x
      decreases al.Keys - seen
    {
      if ref in seen {
        ghost var i: nat :| i < n && Walk(al, start, i) == ref;
        CycleHasNoRoot(al, start, i, n);
        return Err("Account credential aliases contain a cycle");
      }
      assert Walk(al, start, n) == ref;
      WalkAdds(al, start, n, 1);
      assert Walk(al, ref, 1) == al[ref];
      seen := seen + {ref};
      ref := al[ref];
      n := n + 1;
    }
    RootIs(al, start, n);
    return Ok(ref);
  }

  // ----- Flattening -------------------------------------------------------------------

  /** The references a walk passes, none twice. */
  ghost predicate Path(al: Aliases, start: string, path: seq<string>) {
    && (forall i :: 0 <= i < |path| ==> path[i] in al && path[i] == Walk(al, start, i))
  }

  /** Every resolved reference maps straight to its root. */
  ghost predicate Resolves(al: Aliases, resolved: Aliases) {
    && resolved.Keys <= al.Keys
    && forall ref :: ref in resolved ==> Rooted(al, ref) && resolved[ref] == Root(al, ref)
  }

  ghost predicate IsFlattened(al: Aliases, flat: Aliases) {
    flat.Keys == al.Keys && Resolves(al, flat)
  }

  /** Follows one alias until a root or an already resolved reference. */
  method FollowPath(al: Aliases, resolved: Aliases, start: string) returns (path: seq<string>, root: Option<string>)
    requires Resolves(al, resolved) && start in al && start !in resolved
    ensures root.None? <==> !Rooted(al, start)
    ensures root.Some? ==> root.value == Root(al, start) && start in path && Path(al, start, path)
  {
    hide Root, Rooted;
    path := [];
    var ref := start;
    var seen: set<string> := {};
    while ref in al && ref !in resolved
      invariant ref == Walk(al, start, |path|) && Path(al, start, path)
      invariant path != [] ==> path[0] == start
      invariant path == [] ==> ref == start
      invariant seen <= al.Keys && forall x :: x in seen <==> x in path
      decreases al.Keys - seen
    {
      if ref in seen {
        ghost var i :| 0 <= i < |path| && path[i] == ref;
        CycleHasNoRoot(al, start, i, |path|);
        return path, None;
      }
      WalkAdds(al, start, |path|, 1);
      assert Walk(al, ref, 1) == al[ref];
      seen := seen + {ref};
      path := path + [ref];
      ref := al[ref];
    }
    RootAlong(al, start, |path|);
    if ref in resolved {
      return path, Some(resolved[ref]);
    }
    RootOfRoot(al, ref);
    return path, Some(ref);
  }

  /** flattenAccountAliases: every alias straight to its root, unless some walk has none. */
  method FlattenAliases(al: Aliases) returns (r: Result<Aliases>)
    ensures r.Ok? <==> Acyclic(al)
    ensures r.Ok? ==> IsFlattened(al, r.value)
  {
    hide Root, Rooted, Acyclic;
    var resolved: Aliases := map[];
    var pending := al.Keys;
    while pending != {}
      invariant pending <= al.Keys && Resolves(al, resolved)
      invariant forall ref :: ref in al && ref !in pending ==> ref in resolved
      decreases pending
    {
      var start :| start in pending;
      pending := pending - {start};
      if start !in resolved {
        var path, root := FollowPath(al, resolved, start);
        if root.None? {
          EndlessIsCyclic(al, start);
          return Err("Account credential aliases contain a cycle");
        }
        resolved := RecordPath(al, resolved, start, path, root.value);
      }
    }
    AllRooted(al, resolved);
    return Ok(resolved);
  }

  method RecordPath(al: Aliases, resolved: Aliases, start: string, path: seq<string>, root: string) returns (r: Aliases)
    requires Resolves(al, resolved) && Path(al, start, path) && Rooted(al, start) && root == Root(al, start)
    ensures Resolves(al, r) && forall ref :: ref in r <==> ref in resolved || ref in path
  {
    hide Root, Rooted;
    r := resolved;
    for i := 0 to |path|
      invariant Resolves(al, r) && forall ref :: ref in r <==> ref in resolved || ref in path[..i]
    {
      RootAlong(al, start, i);
      r := r[path[i] := root];
    }
  }

  lemma EndlessIsCyclic(al: Aliases, start: string)
    requires !Rooted(al, start)
    ensures !Acyclic(al)
  {
  }

  lemma AllRooted(al: Aliases, resolved: Aliases)
    requires Resolves(al, resolved) && forall ref :: ref in al ==> ref in resolved
    ensures Acyclic(al)
  {
    hide Rooted, Root;
    forall ref
      ensures Rooted(al, ref)
    {
      if ref !in al { RootOfRoot(al, ref); }
    }
  }

  /** Flattening keeps every root, and a flat map is its own flattening. */
  lemma FlatKeepsRoots(al: Aliases, flat: Aliases)
    requires Acyclic(al) && IsFlattened(al, flat)
    ensures Acyclic(flat) && IsFlattened(flat, flat)
    ensures forall ref :: Root(flat, ref) == Root(al, ref)
  {
    hide Rooted, Root;
    forall ref
      ensures Rooted(flat, ref) && Root(flat, ref) == Root(al, ref)
    {
      if ref in al {
        RootOfRoot(flat, flat[ref]);
        RootStep(flat, ref);
      } else {
        RootOfRoot(al, ref);
        RootOfRoot(flat, ref);
      }
    }
  }

  // ----- Linking two pools ------------------------------------------------------------

  /** One replacement: the old pool's root points at the new one's, and so does the replaced reference. */
  ghost function Linked(al: Aliases, from: string, to: string): Aliases
    requires Rooted(al, from) && Rooted(al, to)
  {
    var oldRoot, newRoot := Root(al, from), Root(al, to);
    var joined := if oldRoot != newRoot then al[oldRoot := newRoot] else al;
    if from != newRoot then joined[from := newRoot] else joined
  }

  /** The root a reference has once the two pools are one. */
  ghost function JoinedRoot(al: Aliases, from: string, to: string, ref: string): string
    requires Acyclic(al)
  {
    if Root(al, ref) == Root(al, from) then Root(al, to) else Root(al, ref)
  }

  lemma {:induction false} LinkWalk(al: Aliases, from: string, to: string, ref: string, n: nat)
    requires Acyclic(al) && Walk(al, ref, n) !in al
    ensures var next := Linked(al, from, to); Rooted(next, ref) && Root(next, ref) == JoinedRoot(al, from, to, ref)
    decreases n
  {
    hide Rooted, Root;
    var oldRoot, newRoot := Root(al, from), Root(al, to);
    var next := Linked(al, from, to);
    RootOfRoot(next, newRoot);
    if ref !in next {
      RootOfRoot(al, ref);
      RootOfRoot(next, ref);
    } else if next[ref] == newRoot {
      RootStep(next, ref);
      LinkedToRoot(al, from, to, ref);
    } else {
      assert ref in al && next[ref] == al[ref];
      RootStep(next, ref);
      RootStep(al, ref);
      LinkWalk(al, from, to, al[ref], n - 1);
    }
  }

  lemma LinkedToRoot(al: Aliases, from: string, to: string, ref: string)
    requires Acyclic(al) && ref in Linked(al, from, to) && Linked(al, from, to)[ref] == Root(al, to)
    ensures JoinedRoot(al, from, to, ref) == Root(al, to)
  {
    hide Root, Rooted;
    if ref == Root(al, from) {
      RootOfRoot(al, ref);
    } else if ref in al {
      RootStep(al, ref);
      RootOfRoot(al, Root(al, to));
    }
  }

  /** Linking never makes a cycle and merges exactly the two pools. */
  lemma LinkJoins(al: Aliases, from: string, to: string)
    requires Acyclic(al)
    ensures Acyclic(Linked(al, from, to))
    ensures forall ref :: Root(Linked(al, from, to), ref) == JoinedRoot(al, from, to, ref)
  {
    hide Linked, JoinedRoot, Root;
    var next := Linked(al, from, to);
    forall ref
      ensures Rooted(next, ref) && Root(next, ref) == JoinedRoot(al, from, to, ref)
    {
      assert Rooted(al, ref);
      var n: nat :| Walk(al, ref, n) !in al;
      LinkWalk(al, from, to, ref, n);
    }
  }

  // ----- Pools as classes -------------------------------------------------------------

  ghost predicate SamePool(al: Aliases, a: string, b: string)
    requires Acyclic(al)
  {
    Root(al, a) == Root(al, b)
  }

  /** Labels that never tell apart two references of one pool. */
  ghost predicate Respects(al: Aliases, mark: string -> string)
    requires Acyclic(al)
  {
    forall ref :: mark(ref) == mark(Root(al, ref))
  }

  /**
    after has the least pools that contain those of before and join every listed pair: it
    joins all of that, and any labelling that does not tell those apart does not tell apart
    anything else after joins.
   */
  ghost predicate LeastJoin(before: Aliases, mapping: Aliases, joined: set<string>, after: Aliases)
    requires Acyclic(before) && Acyclic(after) && joined <= mapping.Keys
  {
    && (forall a, b :: Root(before, a) == Root(before, b) ==> Root(after, a) == Root(after, b))
    && (forall from :: from in joined ==> Root(after, from) == Root(after, mapping[from]))
    && (forall mark: string -> string :: Respects(before, mark) && (forall from :: from in joined ==> mark(from) == mark(mapping[from])) ==>
                          Respects(after, mark))
  }

  /** What a least join joins, any other joins too: the pools are determined. */
  lemma LeastJoinsAgree(before: Aliases, mapping: Aliases, joined: set<string>, a: Aliases, b: Aliases, x: string, y: string)
    requires Acyclic(before) && Acyclic(a) && Acyclic(b) && joined <= mapping.Keys
    requires LeastJoin(before, mapping, joined, a) && LeastJoin(before, mapping, joined, b)
    ensures SamePool(a, x, y) <==> SamePool(b, x, y)
  {
    hide Root, Rooted;
    JoinsNoMore(before, mapping, joined, a, b, x, y);
    JoinsNoMore(before, mapping, joined, b, a, x, y);
  }

  lemma JoinsNoMore(before: Aliases, mapping: Aliases, joined: set<string>, a: Aliases, b: Aliases, x: string, y: string)
    requires Acyclic(before) && Acyclic(a) && Acyclic(b) && joined <= mapping.Keys
    requires LeastJoin(before, mapping, joined, a) && LeastJoin(before, mapping, joined, b)
    ensures SamePool(b, x, y) ==> SamePool(a, x, y)
  {
    hide Root, Rooted;
    var mark := (ref: string) => RootLabel(a, ref);
    forall ref
      ensures mark(ref) == mark(Root(before, ref))
    {
      RootOfRoot(before, Root(before, ref));
    }
    assert Respects(before, mark);
    assert Respects(b, mark);
    assert mark(x) == mark(Root(b, x)) && mark(y) == mark(Root(b, y));
  }

  /** A pool's root as its label. */
  ghost function RootLabel(al: Aliases, ref: string): string {
    if Rooted(al, ref) then Root(al, ref) else ref
  }

  lemma NothingJoined(al: Aliases, mapping: Aliases)
    requires Acyclic(al)
    ensures LeastJoin(al, mapping, {}, al)
  {
  }

  lemma JoinOneMore(before: Aliases, mapping: Aliases, joined: set<string>, al: Aliases, from: string)
    requires Acyclic(before) && Acyclic(al) && joined <= mapping.Keys && from in mapping
    requires LeastJoin(before, mapping, joined, al)
    ensures Acyclic(Linked(al, from, mapping[from]))
    ensures LeastJoin(before, mapping, joined + {from}, Linked(al, from, mapping[from]))
  {
    hide Linked, Root, Rooted, Respects;
    var to := mapping[from];
    LinkJoins(al, from, to);
    var next := Linked(al, from, to);
    forall mark: string -> string | Respects(before, mark) && forall x :: x in joined + {from} ==> mark(x) == mark(mapping[x])
      ensures Respects(next, mark)
    {
      assert forall x :: x in joined ==> x in joined + {from};
      assert from in joined + {from};
      assert Respects(al, mark);
      LabelsJoined(al, from, to, mark);
    }
  }

  lemma LabelsJoined(al: Aliases, from: string, to: string, mark: string -> string)
    requires Acyclic(al) && Respects(al, mark) && mark(from) == mark(to)
    ensures Acyclic(Linked(al, from, to)) && Respects(Linked(al, from, to), mark)
  {
    hide Linked, Root, Rooted;
    LinkJoins(al, from, to);
  }

  /** Flattening keeps the pools as they are. */
  lemma FlatKeepsJoin(before: Aliases, mapping: Aliases, joined: set<string>, al: Aliases, flat: Aliases)
    requires Acyclic(before) && Acyclic(al) && joined <= mapping.Keys && LeastJoin(before, mapping, joined, al)
    requires IsFlattened(al, flat)
    ensures Acyclic(flat) && LeastJoin(before, mapping, joined, flat)
  {
    hide Root, Acyclic;
    FlatKeepsRoots(al, flat);
    forall mark: string -> string | Respects(al, mark)
      ensures Respects(flat, mark)
    {
    }
  }
}
