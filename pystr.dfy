/**
 * The handful of Python `str` operations the scripts rely on, with Python's
 * semantics: `strip()` with and without an argument, `find`, `split(sep)`,
 * `sep.join`, `replace(old, "")`, slicing `s[:n]` and string ordering.
 */
module PyStr {
  import opened Wrappers

  /** Python's `str.isspace` for a single character (what `strip()` removes). */
  predicate IsSpace(c: char) {
    || ('\U{9}' <= c <= '\U{D}')
    || ('\U{1C}' <= c <= '\U{1F}')
    || c == ' ' || c == '\U{85}' || c == '\U{A0}' || c == '\U{1680}'
    || ('\U{2000}' <= c <= '\U{200A}')
    || c == '\U{2028}' || c == '\U{2029}' || c == '\U{202F}' || c == '\U{205F}' || c == '\U{3000}'
  }

  /** Drop the leading characters satisfying `drop`. */
  function TrimLeft(s: string, drop: char -> bool): string
  {
    if s == [] || !drop(s[0]) then s else TrimLeft(s[1..], drop)
  }

  /** Drop the trailing characters satisfying `drop`. */
  function TrimRight(s: string, drop: char -> bool): string
  {
    if s == [] || !drop(s[|s| - 1]) then s else TrimRight(s[..|s| - 1], drop)
  }

  /** What `TrimLeft` keeps is a suffix that starts with a kept character, after only dropped ones. */
  lemma {:induction false} TrimLeftShape(s: string, drop: char -> bool)
    ensures var r := TrimLeft(s, drop);
      && |r| <= |s| && r == s[|s| - |r|..]
      && (r == [] || !drop(r[0]))
      && forall i :: 0 <= i < |s| - |r| ==> drop(s[i])
  {
    if s != [] && drop(s[0]) {
      var t := s[1..];
      TrimLeftShape(t, drop);
      var r := TrimLeft(t, drop);
      assert TrimLeft(s, drop) == r;
      assert t[|t| - |r|..] == s[|s| - |r|..];
      forall i | 0 <= i < |s| - |r| ensures drop(s[i]) {
        if i > 0 { assert s[i] == t[i - 1]; }
      }
    }
  }

  /** What `TrimRight` keeps is a prefix that ends with a kept character, before only dropped ones. */
  lemma {:induction false} TrimRightShape(s: string, drop: char -> bool)
    ensures var r := TrimRight(s, drop);
      && |r| <= |s| && r == s[..|r|]
      && (r == [] || !drop(r[|r| - 1]))
      && forall i :: |r| <= i < |s| ==> drop(s[i])
  {
    if s != [] && drop(s[|s| - 1]) {
      TrimRightShape(s[..|s| - 1], drop);
    }
  }

  /** Drop characters satisfying `drop` from both ends. */
  function Trim(s: string, drop: char -> bool): (r: string)
  {
    TrimRight(TrimLeft(s, drop), drop)
  }

  /** Python `s.strip()`: no longer than `s`, and neither end is white space. */
  function Strip(s: string): (r: string)
    ensures |r| <= |s|
    ensures r == [] || (!IsSpace(r[0]) && !IsSpace(r[|r| - 1]))
  {
    TrimShape(s, IsSpace);
    Trim(s, IsSpace)
  }

  /** Python `s.strip(c)` for a one-character argument. */
  function StripChar(s: string, c: char): string {
    Trim(s, IsChar(c))
  }

  /** The test for one given character. */
  function IsChar(c: char): char -> bool {
    x => x == c
  }

  /** The result of a trim is the part of the input between the dropped ends; its two end characters are kept. */
  lemma TrimShape(s: string, drop: char -> bool)
    ensures var i := |s| - |TrimLeft(s, drop)|; var r := Trim(s, drop);
      && 0 <= i && i + |r| <= |s| && r == s[i..i + |r|]
      && (forall k :: 0 <= k < i ==> drop(s[k]))
      && (forall k :: i + |r| <= k < |s| ==> drop(s[k]))
    ensures var r := Trim(s, drop); r == [] || (!drop(r[0]) && !drop(r[|r| - 1]))
  {
    TrimSlice(s, drop);
    TrimEnds(s, drop);
  }

  lemma TrimSlice(s: string, drop: char -> bool)
    ensures var i := |s| - |TrimLeft(s, drop)|; var r := Trim(s, drop);
      && 0 <= i && i + |r| <= |s| && r == s[i..i + |r|]
      && (forall k :: 0 <= k < i ==> drop(s[k]))
      && (forall k :: i + |r| <= k < |s| ==> drop(s[k]))
  {
    var l := TrimLeft(s, drop);
    TrimLeftShape(s, drop);
    TrimRightShape(l, drop);
    var r := TrimRight(l, drop);
    assert Trim(s, drop) == r;
    var i := |s| - |l|;
    assert l == s[i..];
    assert r == l[..|r|];
    SliceOfSuffix(s, i, |r|);
    forall k | i + |r| <= k < |s| ensures drop(s[k]) {
      assert s[k] == l[k - i];
    }
  }

  lemma SliceOfSuffix(s: string, i: nat, n: nat)
    requires i + n <= |s|
    ensures s[i..][..n] == s[i..i + n]
  {
  }

  lemma TrimEnds(s: string, drop: char -> bool)
    ensures var r := Trim(s, drop); r == [] || (!drop(r[0]) && !drop(r[|r| - 1]))
  {
    var l := TrimLeft(s, drop);
    TrimLeftShape(s, drop);
    TrimRightShape(l, drop);
    var r := TrimRight(l, drop);
    assert Trim(s, drop) == r;
    if r != [] {
      assert r == l[..|r|];
      assert r[0] == l[0];
    }
  }

  /** Stripping twice is stripping once. */
  lemma StripIdempotent(s: string)
    ensures Strip(Strip(s)) == Strip(s)
  {
    var r := Strip(s);
    TrimShape(s, IsSpace);
    assert TrimLeft(r, IsSpace) == r;
    assert TrimRight(r, IsSpace) == r;
  }

  /** A string whose two ends are kept is its own trim. */
  lemma TrimFixed(s: string, drop: char -> bool)
    requires s == [] || (!drop(s[0]) && !drop(s[|s| - 1]))
    ensures Trim(s, drop) == s
  {
  }

  /** Stripping adds no character. */
  lemma StripSubset(s: string)
    ensures forall c :: c in Strip(s) ==> c in s
  {
    TrimShape(s, IsSpace);
    var i := |s| - |TrimLeft(s, IsSpace)|;
    var r := Strip(s);
    forall c | c in r ensures c in s {
      var j :| 0 <= j < |r| && r[j] == c;
      assert s[i + j] == c;
    }
  }

  /** Stripping never removes a character that is not white space. */
  lemma StripKeeps(s: string, c: char)
    requires c in s && !IsSpace(c)
    ensures c in Strip(s)
  {
    TrimShape(s, IsSpace);
    var i := |s| - |TrimLeft(s, IsSpace)|;
    var r := Strip(s);
    var j :| 0 <= j < |s| && s[j] == c;
    assert i <= j < i + |r|;
    assert r[j - i] == c;
  }

  /** Trimming `v` wrapped in one dropped character on each side gives `v` back, when the ends of `v` are kept. */
  lemma TrimWrapped(v: string, c: char, drop: char -> bool)
    requires drop(c)
    requires v == [] || (!drop(v[0]) && !drop(v[|v| - 1]))
    ensures Trim([c] + v + [c], drop) == v
  {
    var w := [c] + v + [c];
    assert w[1..] == v + [c];
    var l := TrimLeft(w, drop);
    assert l == TrimLeft(v + [c], drop);
    assert Trim(w, drop) == TrimRight(l, drop);
    if v == [] {
      assert v + [c] == [c] && [c][1..] == [];
      assert TrimLeft([c], drop) == TrimLeft([], drop);
      assert l == [];
    } else {
      assert (v + [c])[0] == v[0];
      assert l == v + [c];
      assert l[|l| - 1] == c && l[..|l| - 1] == v;
      assert TrimRight(l, drop) == TrimRight(v, drop);
      assert TrimRight(v, drop) == v;
    }
  }

  /** `s` begins with `p` (Python `s.startswith(p)`). */
  predicate StartsWith(s: string, p: string) {
    |p| <= |s| && s[..|p|] == p
  }

  /** `p` occurs in `s` at position `i`. */
  predicate OccursAt(s: string, p: string, i: int) {
    0 <= i && i + |p| <= |s| && s[i..i + |p|] == p
  }

  /** Python `s.find(p)`: the first position where `p` occurs, or None (Python's -1). */
  function Find(s: string, p: string): (r: Option<nat>)
    ensures r.Some? ==> OccursAt(s, p, r.value)
    ensures r.Some? ==> forall j :: 0 <= j < r.value ==> !OccursAt(s, p, j)
    ensures r.None? ==> forall j :: 0 <= j ==> !OccursAt(s, p, j)
    decreases |s|
  {
    if |s| < |p| then None
    else if s[..|p|] == p then Some(0)
    else
      match Find(s[1..], p)
      case Some(j) =>
        assert forall k :: 1 <= k ==> (OccursAt(s, p, k) <==> OccursAt(s[1..], p, k - 1));
        Some(j + 1)
      case None =>
        assert forall k :: 1 <= k ==> (OccursAt(s, p, k) <==> OccursAt(s[1..], p, k - 1));
        None
  }

  /** Python `p in s`. */
  predicate Contains(s: string, p: string) {
    Find(s, p).Some?
  }

  /** A one-character needle is found exactly when the character occurs. */
  lemma ContainsChar(s: string, c: char)
    ensures Contains(s, [c]) <==> c in s
  {
    if c in s {
      var i :| 0 <= i < |s| && s[i] == c;
      assert OccursAt(s, [c], i);
    }
    if Contains(s, [c]) {
      var i := Find(s, [c]).value;
      assert s[i] == s[i..i + 1][0];
    }
  }

  /** Python `sep.join(parts)`. */
  function Join(parts: seq<string>, sep: string): string
  {
    if parts == [] then ""
    else if |parts| == 1 then parts[0]
    else parts[0] + sep + Join(parts[1..], sep)
  }

  /**
   * Python `s.split(sep)` for a non-empty separator: the pieces between the
   * occurrences of `sep` found left to right. Joining the pieces back gives `s`,
   * and no piece contains `sep`.
   */
  function Split(s: string, sep: string): (r: seq<string>)
    requires |sep| > 0
    ensures |r| >= 1
    ensures Join(r, sep) == s
    ensures forall k :: 0 <= k < |r| ==> !Contains(r[k], sep)
    decreases |s|
  {
    match Find(s, sep)
    case None => [s]
    case Some(i) =>
      var head := s[..i];
      var rest := Split(s[i + |sep|..], sep);
      assert s == head + sep + s[i + |sep|..];
      assert !Contains(head, sep) by {
        forall j | 0 <= j ensures OccursAt(head, sep, j) ==> OccursAt(s, sep, j) {
          if j + |sep| <= |head| {
            assert head[j..j + |sep|] == s[j..j + |sep|];
          }
        }
      }
      [head] + rest
  }

  /** Joining two non-empty lists is joining each and putting the separator between them. */
  lemma {:induction false} JoinAppend(a: seq<string>, b: seq<string>, sep: string)
    requires |a| >= 1 && |b| >= 1
    ensures Join(a + b, sep) == Join(a, sep) + sep + Join(b, sep)
  {
    if |a| > 1 {
      assert (a + b)[1..] == a[1..] + b;
      JoinAppend(a[1..], b, sep);
    } else {
      assert (a + b)[1..] == b;
    }
  }

  /** The first occurrence of a character is right after a head that does not contain it. */
  lemma FindAfterHead(h: string, c: char, rest: string)
    requires c !in h
    ensures Find(h + [c] + rest, [c]) == Some(|h|)
  {
    var s := h + [c] + rest;
    assert s[|h|..|h| + 1] == [c];
    assert OccursAt(s, [c], |h|);
    forall j | 0 <= j < |h| ensures !OccursAt(s, [c], j) {
      assert s[j..j + 1][0] == h[j];
    }
  }

  /** Splitting a join on a one-character separator that no part contains gives the parts back. */
  lemma {:induction false} SplitJoin(parts: seq<string>, c: char)
    requires |parts| >= 1
    requires forall k :: 0 <= k < |parts| ==> c !in parts[k]
    ensures Split(Join(parts, [c]), [c]) == parts
  {
    var s := Join(parts, [c]);
    if |parts| == 1 {
      ContainsChar(parts[0], c);
    } else {
      var h := parts[0];
      assert s == h + [c] + Join(parts[1..], [c]);
      FindAfterHead(h, c, Join(parts[1..], [c]));
      assert s[..|h|] == h;
      assert s[|h| + 1..] == Join(parts[1..], [c]);
      SplitJoin(parts[1..], c);
      assert parts == [h] + parts[1..];
    }
  }

  /** Python `s.split(c)[0]`: the text before the first `c`, or all of `s`. */
  function BeforeFirst(s: string, c: char): (r: string)
    ensures c !in r
    ensures |r| <= |s| && r == s[..|r|]
    ensures |r| < |s| ==> s[|r|] == c
  {
    var parts := Split(s, [c]);
    ContainsChar(parts[0], c);
    assert |parts| > 1 ==> s == parts[0] + [c] + Join(parts[1..], [c]);
    parts[0]
  }

  /** A string without `c` is its own text before the first `c`. */
  lemma BeforeFirstAbsent(s: string, c: char)
    requires c !in s
    ensures BeforeFirst(s, c) == s
  {
  }

  /** The text before the first `c` of `a + [c] + b` is `a` when `a` has no `c`. */
  lemma BeforeFirstOf(a: string, c: char, b: string)
    requires c !in a
    ensures BeforeFirst(a + [c] + b, c) == a
  {
    var s := a + [c] + b;
    assert s[|a|] == c;
  }

  /** Python `s.split(c)[-1]`: the text after the last `c`, or all of `s`. */
  function AfterLast(s: string, c: char): (r: string)
    ensures c !in r
    ensures |r| <= |s| && r == s[|s| - |r|..]
    ensures |r| < |s| ==> s[|s| - |r| - 1] == c
  {
    var parts := Split(s, [c]);
    var last := parts[|parts| - 1];
    ContainsChar(last, c);
    JoinLast(parts, [c]);
    if |parts| > 1 then
      var k := |s| - |last| - 1;
      assert s[k..k + 1] == [c];
      assert s[k] == s[k..k + 1][0];
      last
    else
      last
  }

  /** The joined string ends with the last part, preceded by the separator when there are several. */
  lemma JoinLast(parts: seq<string>, sep: string)
    requires |parts| >= 1
    ensures var j := Join(parts, sep); var l := parts[|parts| - 1];
      |l| <= |j| && j[|j| - |l|..] == l
      && (|parts| > 1 ==> |l| + |sep| <= |j| && j[|j| - |l| - |sep|..|j| - |l|] == sep)
  {
    if |parts| > 1 {
      JoinLast(parts[1..], sep);
      var t := Join(parts[1..], sep);
      var l := parts[|parts| - 1];
      var j := Join(parts, sep);
      assert j == parts[0] + sep + t;
      var d := |parts[0]| + |sep|;
      assert j[|j| - |l|..] == t[|t| - |l|..];
      if |parts| > 2 {
        assert t[|t| - |l| - |sep|..|t| - |l|] == sep;
        assert j[|j| - |l| - |sep|..|j| - |l|] == t[|t| - |l| - |sep|..|t| - |l|];
      } else {
        assert t == l;
        assert j[|j| - |l| - |sep|..|j| - |l|] == j[|parts[0]|..d];
      }
    }
  }

  /** Python `s.partition(c)` when `c` occurs: the text before and after the first `c`. */
  function PartitionAt(s: string, c: char): (r: (string, string))
    requires c in s
    ensures s == r.0 + [c] + r.1
    ensures c !in r.0
  {
    var head := BeforeFirst(s, c);
    (head, s[|head| + 1..])
  }

  /**
   * Python `s.replace(p, "")`: occurrences of `p` are removed as they are met
   * from left to right, without re-scanning what was already kept.
   */
  function RemoveAll(s: string, p: string): (r: string)
    requires |p| > 0
    ensures |r| <= |s|
    decreases |s|
  {
    if |s| < |p| then s
    else if s[..|p|] == p then RemoveAll(s[|p|..], p)
    else [s[0]] + RemoveAll(s[1..], p)
  }

  /** Removing a pattern that does not occur leaves the string as it was. */
  lemma {:induction false} RemoveAbsent(s: string, p: string)
    requires |p| > 0
    requires !Contains(s, p)
    ensures RemoveAll(s, p) == s
    decreases |s|
  {
    if |s| >= |p| {
      assert !OccursAt(s, p, 0);
      RemoveAbsent(s[1..], p);
    }
  }

  /** A pattern containing a character that the string does not contain does not occur in it. */
  lemma AbsentByChar(s: string, p: string, c: char)
    requires c in p && c !in s
    ensures !Contains(s, p)
  {
    var k :| 0 <= k < |p| && p[k] == c;
    forall i | 0 <= i ensures !OccursAt(s, p, i) {
      if i + |p| <= |s| {
        assert s[i..i + |p|][k] == s[i + k];
      }
    }
  }

  /** Leading text without the pattern's first character is kept, and the removal goes on after it. */
  lemma {:induction false} RemoveAllSkip(a: string, b: string, p: string)
    requires |p| > 0 && p[0] !in a
    ensures RemoveAll(a + b, p) == a + RemoveAll(b, p)
    decreases |a|
  {
    if a == [] {
      assert a + b == b;
    } else {
      var s := a + b;
      assert s[0] == a[0] && s[1..] == a[1..] + b;
      if |s| >= |p| {
        assert s[..|p|][0] == a[0];
        RemoveAllStep(s, p);
        RemoveAllSkip(a[1..], b, p);
        assert a == [a[0]] + a[1..];
      } else {
        assert RemoveAll(b, p) == b;
      }
    }
  }

  /** An occurrence met after text without the pattern's first character is removed whole. */
  lemma RemoveAllFold(a: string, p: string, b: string)
    requires |p| > 0 && p[0] !in a
    ensures RemoveAll(a + p + b, p) == a + RemoveAll(b, p)
  {
    assert a + p + b == a + (p + b);
    RemoveAllSkip(a, p + b, p);
    assert (p + b)[..|p|] == p && (p + b)[|p|..] == b;
  }

  /** Where the pattern does not start, the first character is kept. */
  lemma RemoveAllStep(s: string, p: string)
    requires |p| > 0 && |s| >= |p| && s[..|p|] != p
    ensures RemoveAll(s, p) == [s[0]] + RemoveAll(s[1..], p)
  {
  }

  /** A start of the pattern that does not go on as the pattern is kept, with what follows it up to the next start. */
  lemma RemoveAllMismatch(q: string, b: string, p: string)
    requires |p| > 0 && |q| >= |p| && q[0] == p[0] && q[..|p|] != p && p[0] !in q[1..]
    ensures RemoveAll(q + b, p) == q + RemoveAll(b, p)
  {
    var s := q + b;
    assert s[..|p|] == q[..|p|];
    RemoveAllStep(s, p);
    assert s[1..] == q[1..] + b;
    RemoveAllSkip(q[1..], b, p);
    assert s[0] == q[0];
    assert q == [q[0]] + q[1..];
  }

  /** The pieces written one after the other (Python `"".join(pieces)`). */
  function Concat(pieces: seq<string>): string {
    if pieces == [] then "" else pieces[0] + Concat(pieces[1..])
  }

  /** A character in none of the pieces is not in their concatenation. */
  lemma {:induction false} ConcatWithout(pieces: seq<string>, c: char)
    requires forall k :: 0 <= k < |pieces| ==> c !in pieces[k]
    ensures c !in Concat(pieces)
  {
    if pieces != [] {
      ConcatWithout(pieces[1..], c);
    }
  }

  /** Removing the separator from a join of pieces without its first character runs the pieces together. */
  lemma {:induction false} RemoveJoined(pieces: seq<string>, sep: string)
    requires |sep| > 0
    requires forall k :: 0 <= k < |pieces| ==> sep[0] !in pieces[k]
    ensures RemoveAll(Join(pieces, sep), sep) == Concat(pieces)
  {
    if |pieces| == 1 {
      AbsentByChar(pieces[0], sep, sep[0]);
      RemoveAbsent(pieces[0], sep);
      assert Concat(pieces) == pieces[0] + Concat([]);
    } else if |pieces| > 1 {
      RemoveAllFold(pieces[0], sep, Join(pieces[1..], sep));
      RemoveJoined(pieces[1..], sep);
    }
  }

  /**
   * Removing a pattern `p` from a join whose separator starts like `p` but
   * is not `p` changes nothing, when the pieces and the rest of the separator
   * lack `p`'s first character.
   */
  lemma {:induction false} RemoveOtherJoined(pieces: seq<string>, sep: string, p: string)
    requires |p| > 0 && |sep| >= |p| && sep[0] == p[0] && sep[..|p|] != p && p[0] !in sep[1..]
    requires forall k :: 0 <= k < |pieces| ==> p[0] !in pieces[k]
    ensures RemoveAll(Join(pieces, sep), p) == Join(pieces, sep)
  {
    if |pieces| == 1 {
      AbsentByChar(pieces[0], p, p[0]);
      RemoveAbsent(pieces[0], p);
    } else if |pieces| > 1 {
      var rest := Join(pieces[1..], sep);
      assert pieces[0] + sep + rest == pieces[0] + (sep + rest);
      RemoveAllSkip(pieces[0], sep + rest, p);
      RemoveAllMismatch(sep, rest, p);
      RemoveOtherJoined(pieces[1..], sep, p);
    }
  }

  /** Python `s[:n]` for `n >= 0`. */
  function Take(s: string, n: nat): (r: string)
    ensures |r| == if |s| < n then |s| else n
    ensures r == s[..|r|]
  {
    if |s| <= n then s else s[..n]
  }

  /** Python's `a <= b` on strings: lexicographic by code point, a prefix sorts first. */
  predicate LexLe(a: string, b: string)
    decreases |a|
  {
    |a| == 0 || (|b| > 0 && (a[0] < b[0] || (a[0] == b[0] && LexLe(a[1..], b[1..]))))
  }

  lemma {:induction false} LexLeRefl(a: string)
    ensures LexLe(a, a)
    decreases |a|
  {
    if |a| > 0 { LexLeRefl(a[1..]); }
  }

  lemma {:induction false} LexLeTotal(a: string, b: string)
    ensures LexLe(a, b) || LexLe(b, a)
    decreases |a|
  {
    if |a| > 0 && |b| > 0 && a[0] == b[0] { LexLeTotal(a[1..], b[1..]); }
  }

  lemma {:induction false} LexLeTrans(a: string, b: string, c: string)
    requires LexLe(a, b) && LexLe(b, c)
    ensures LexLe(a, c)
    decreases |a|
  {
    if |a| > 0 && a[0] == b[0] && b[0] == c[0] { LexLeTrans(a[1..], b[1..], c[1..]); }
  }

  lemma {:induction false} LexLeAntisym(a: string, b: string)
    requires LexLe(a, b) && LexLe(b, a)
    ensures a == b
    decreases |a|
  {
    if |a| > 0 {
      LexLeAntisym(a[1..], b[1..]);
      assert a == [a[0]] + a[1..] && b == [b[0]] + b[1..];
    }
  }
}
