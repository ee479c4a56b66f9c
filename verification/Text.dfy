/**
  ASCII strings as the billing code uses them: trimming, lower-casing, case-insensitive
  equality, and the byte order that sorting relies on.
 */
module Text {

  /** The source's error returns: a value, or a reason for refusing. */
  datatype Result<+T> = Ok(value: T) | Err(reason: string)

  datatype Option<+T> = None | Some(value: T)

  function SetOf<T(==,!new)>(values: seq<T>): (r: set<T>)
    ensures forall x :: x in r <==> x in values
    ensures r == {} <==> values == []
  {
    if values != [] then assert values[0] in values; set v | v in values else {}
  }

  predicate IsSpace(c: char) {
    c == ' ' || c == '\t' || c == '\n' || c == '\r' || c == '\U{0B}' || c == '\U{0C}'
  }

  function LowerChar(c: char): (r: char) {
    if 'A' <= c <= 'Z' then ((c as int) + 32) as char else c
  }

  function Lower(s: string): (r: string)
    ensures |r| == |s|
  {
    seq(|s|, i requires 0 <= i < |s| => LowerChar(s[i]))
  }

  predicate EqualFold(a: string, b: string) {
    Lower(a) == Lower(b)
  }

  function TrimLeft(s: string): (r: string) {
    if s != "" && IsSpace(s[0]) then TrimLeft(s[1..]) else s
  }

  function TrimRight(s: string): (r: string) {
    if s != "" && IsSpace(s[|s| - 1]) then TrimRight(s[..|s| - 1]) else s
  }

  function Trim(s: string): (r: string) {
    TrimRight(TrimLeft(s))
  }

  /** Nothing is left to trim at either end. */
  predicate Trimmed(s: string) {
    s == "" || (!IsSpace(s[0]) && !IsSpace(s[|s| - 1]))
  }

  lemma {:induction false} TrimRightKeepsFront(s: string)
    requires s == "" || !IsSpace(s[0])
    ensures Trimmed(TrimRight(s))
  {
    if s == "" || !IsSpace(s[|s| - 1]) {
    } else {
      TrimRightKeepsFront(s[..|s| - 1]);
    }
  }

  lemma {:induction false} TrimLeftFront(s: string)
    ensures TrimLeft(s) == "" || !IsSpace(TrimLeft(s)[0])
  {
    if s != "" && IsSpace(s[0]) {
      TrimLeftFront(s[1..]);
    }
  }

  lemma TrimIsTrimmed(s: string)
    ensures Trimmed(Trim(s))
  {
    TrimLeftFront(s);
    TrimRightKeepsFront(TrimLeft(s));
  }

  lemma TrimTrimmed(s: string)
    requires Trimmed(s)
    ensures Trim(s) == s
  {
  }

  lemma TrimIdempotent(s: string)
    ensures Trim(Trim(s)) == Trim(s)
  {
    TrimIsTrimmed(s);
    TrimTrimmed(Trim(s));
  }

  lemma LowerIdempotent(s: string)
    ensures Lower(Lower(s)) == Lower(s)
  {
  }

  // ----- What trimming and folding do -----------------------------------------------------

  const BLANKS := " \t\n\r\U{0B}\U{0C}"

  predicate Spaces(s: string) {
    forall i :: 0 <= i < |s| ==> s[i] in BLANKS
  }

  lemma SpacesAreBlanks(s: string)
    ensures Spaces(s) <==> forall i :: 0 <= i < |s| ==> IsSpace(s[i])
  {
    assert BLANKS[0] == ' ' && BLANKS[1] == '\t' && BLANKS[2] == '\n' && BLANKS[3] == '\r' && BLANKS[4] == '\U{0B}' && BLANKS[5] == '\U{0C}';
  }

  lemma {:induction false} TrimLeftCuts(left: string, s: string)
    requires Spaces(left) && s != "" && !IsSpace(s[0])
    ensures TrimLeft(left + s) == s
  {
    SpacesAreBlanks(left);
    if left == "" {
      assert left + s == s;
    } else {
      assert (left + s)[1..] == left[1..] + s;
      TrimLeftCuts(left[1..], s);
    }
  }

  lemma {:induction false} TrimRightCuts(s: string, right: string)
    requires Spaces(right) && s != "" && !IsSpace(s[|s| - 1])
    ensures TrimRight(s + right) == s
  {
    SpacesAreBlanks(right);
    if right == "" {
      assert s + right == s;
    } else {
      assert (s + right)[..|s + right| - 1] == s + right[..|right| - 1];
      TrimRightCuts(s, right[..|right| - 1]);
    }
  }

  lemma TrimCuts(left: string, s: string, right: string)
    requires Spaces(left) && Spaces(right) && s != "" && Trimmed(s)
    ensures Trim(left + s + right) == s
  {
    assert left + s + right == left + (s + right);
    TrimLeftCuts(left, s + right);
    TrimRightCuts(s, right);
  }

  lemma {:induction false} TrimLeftLeaves(s: string) returns (left: string)
    ensures Spaces(left) && s == left + TrimLeft(s)
  {
    if s != "" && IsSpace(s[0]) {
      var rest := TrimLeftLeaves(s[1..]);
      SpacesAreBlanks(rest);
      left := [s[0]] + rest;
    } else {
      left := "";
    }
    SpacesAreBlanks(left);
  }

  lemma {:induction false} TrimRightLeaves(s: string) returns (right: string)
    ensures Spaces(right) && s == TrimRight(s) + right
  {
    if s != "" && IsSpace(s[|s| - 1]) {
      var front := TrimRightLeaves(s[..|s| - 1]);
      SpacesAreBlanks(front);
      right := front + [s[|s| - 1]];
    } else {
      right := "";
    }
    SpacesAreBlanks(right);
  }

  lemma TrimLeaves(s: string) returns (left: string, right: string)
    ensures Spaces(left) && Spaces(right) && s == left + Trim(s) + right
  {
    left := TrimLeftLeaves(s);
    right := TrimRightLeaves(TrimLeft(s));
  }

  lemma {:induction false} SpacesTrimAway(s: string)
    requires Spaces(s)
    ensures Trim(s) == ""
  {
    SpacesAreBlanks(s);
    if s != "" { SpacesTrimAway(s[1..]); }
  }

  lemma BlankTrimsAway(s: string)
    ensures Spaces(s) <==> Trim(s) == ""
  {
    hide Trim;
    if Spaces(s) { SpacesTrimAway(s); }
    var left, right := TrimLeaves(s);
  }

  /** Trimming removes what is blank at both ends and nothing else. */
  lemma TrimMeans(s: string, t: string)
    ensures Trim(s) == t <==> Trimmed(t) && exists left, right :: Spaces(left) && Spaces(right) && s == Around(left, t, right)
  {
    hide Trim;
    if Trim(s) == t {
      TrimIsTrimmed(s);
      var left, right := TrimLeaves(s);
      assert s == Around(left, t, right);
    }
    if Trimmed(t) {
      if left, right :| Spaces(left) && Spaces(right) && s == Around(left, t, right) {
        if t == "" {
          SpacesAreBlanks(left);
          SpacesAreBlanks(right);
          SpacesAreBlanks(s);
          SpacesTrimAway(s);
        } else {
          TrimCuts(left, t, right);
        }
      }
    }
  }

  function Around(left: string, s: string, right: string): string {
    left + s + right
  }

  const UPPER := "ABCDEFGHIJKLMNOPQRSTUVWXYZ"
  const LOWER := "abcdefghijklmnopqrstuvwxyz"

  /** Folding maps each letter of the upper alphabet to its place in the lower one and leaves everything else. */
  lemma LowerMeans(s: string, k: nat)
    requires k < |s|
    ensures forall i :: 0 <= i < 26 && s[k] == UPPER[i] ==> Lower(s)[k] == LOWER[i]
    ensures s[k] !in UPPER ==> Lower(s)[k] == s[k]
  {
    forall i | 0 <= i < 26
      ensures UPPER[i] == (i + 'A' as int) as char && LOWER[i] == (i + 'a' as int) as char
    {
      Alphabets(i);
    }
    if 'A' <= s[k] <= 'Z' {
      var i := s[k] as int - 'A' as int;
      assert UPPER[i] == s[k];
    }
  }

  lemma Alphabets(i: nat)
    requires i < 26
    ensures |UPPER| == 26 && |LOWER| == 26 && UPPER[i] == (i + 'A' as int) as char && LOWER[i] == (i + 'a' as int) as char
  {
  }

  /** Byte-wise lexicographic order, the order of Go's `<` on strings. */
  predicate Less(a: string, b: string) {
    b != "" && (a == "" || a[0] < b[0] || (a[0] == b[0] && Less(a[1..], b[1..])))
  }

  lemma {:induction false} LessTotal(a: string, b: string)
    ensures Less(a, b) || Less(b, a) || a == b
  {
    if a != "" && b != "" && a[0] == b[0] {
      LessTotal(a[1..], b[1..]);
      if a[1..] == b[1..] {
        assert a == [a[0]] + a[1..] && b == [b[0]] + b[1..];
      }
    }
  }

  lemma {:induction false} LessAsymmetric(a: string, b: string)
    ensures !(Less(a, b) && Less(b, a))
  {
    if a != "" && b != "" && a[0] == b[0] {
      LessAsymmetric(a[1..], b[1..]);
    }
  }

  lemma {:induction false} LessTransitive(a: string, b: string, c: string)
    requires Less(a, b) && Less(b, c)
    ensures Less(a, c)
  {
    if a != "" && a[0] == b[0] && b[0] == c[0] {
      LessTransitive(a[1..], b[1..], c[1..]);
    }
  }

  /** slices.Compact: of equal neighbours only the first stays. */
  function Compact<T(==,!new)>(values: seq<T>): (r: seq<T>)
    ensures forall x :: x in r <==> x in values
  {
    if values == [] then [] else
    var front, last := Compact(values[..|values| - 1]), values[|values| - 1];
    assert values == values[..|values| - 1] + [last];
    if front != [] && front[|front| - 1] == last then front else front + [last]
  }

  // ----- Sorted lists of names --------------------------------------------------------

  predicate SortedIds(ids: seq<string>) {
    forall i, j :: 0 <= i < j < |ids| ==> !Less(ids[j], ids[i])
  }

  predicate Distinct(ids: seq<string>) {
    forall i, j :: 0 <= i < j < |ids| ==> ids[i] != ids[j]
  }

  function InsertId(id: string, ids: seq<string>): (r: seq<string>)
    ensures |r| == |ids| + 1
    ensures forall x :: x in r <==> x == id || x in ids
  {
    if ids == [] || !Less(ids[0], id) then [id] + ids else [ids[0]] + InsertId(id, ids[1..])
  }

  lemma {:induction false} InsertKeepsSorted(id: string, ids: seq<string>)
    requires SortedIds(ids)
    ensures SortedIds(InsertId(id, ids))
  {
    hide Less;
    if ids == [] {
    } else if !Less(ids[0], id) {
      forall j | 0 <= j < |ids|
        ensures !Less(ids[j], id)
      {
        LessTotal(id, ids[0]);
        if Less(ids[j], id) && id != ids[0] { LessTransitive(ids[j], id, ids[0]); }
      }
    } else {
      InsertKeepsSorted(id, ids[1..]);
      LessAsymmetric(ids[0], id);
      ConsSorted(ids[0], InsertId(id, ids[1..]));
    }
  }

  lemma ConsSorted(id: string, rest: seq<string>)
    requires SortedIds(rest) && forall x :: x in rest ==> !Less(x, id)
    ensures SortedIds([id] + rest)
  {
    hide Less;
  }

  lemma {:induction false} InsertKeepsDistinct(id: string, ids: seq<string>)
    requires Distinct(ids) && id !in ids
    ensures Distinct(InsertId(id, ids))
  {
    hide Less;
    if ids != [] {
      InsertKeepsDistinct(id, ids[1..]);
      assert ids[0] !in ids[1..];
    }
  }

  function SortIds(ids: seq<string>): (r: seq<string>)
    ensures |r| == |ids|
    ensures forall x :: x in r <==> x in ids
  {
    if ids == [] then [] else
    InsertId(ids[|ids| - 1], SortIds(ids[..|ids| - 1]))
  }

  lemma {:induction false} SortIdsSorts(ids: seq<string>)
    ensures SortedIds(SortIds(ids))
    ensures Distinct(ids) ==> Distinct(SortIds(ids))
  {
    if ids != [] {
      var last, front := ids[|ids| - 1], ids[..|ids| - 1];
      SortIdsSorts(front);
      InsertKeepsSorted(last, SortIds(front));
      if Distinct(ids) {
        assert last !in front;
        InsertKeepsDistinct(last, SortIds(front));
      }
    }
  }

  lemma {:induction false} SortedUnique(a: seq<string>, b: seq<string>)
    requires SortedIds(a) && SortedIds(b) && Distinct(a) && Distinct(b)
    requires forall x :: x in a <==> x in b
    ensures a == b
  {
    if a == [] {
      assert forall i :: 0 <= i < |b| ==> b[i] in b;
    } else {
      assert a[0] in b && a[0] in a;
      assert b[0] in a && b[0] in b;
      LessTotal(a[0], b[0]);
      forall x
        ensures x in a[1..] <==> x in b[1..]
      {
        assert x in a[1..] <==> x in a && x != a[0];
        assert x in b[1..] <==> x in b && x != b[0];
      }
      SortedUnique(a[1..], b[1..]);
      assert a == [a[0]] + a[1..] && b == [b[0]] + b[1..];
    }
  }
}
