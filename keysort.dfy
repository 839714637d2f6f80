/**
 * Python's `list.sort(key=k)` and `list.sort(key=k, reverse=True)` for string
 * keys, modelled as an insertion sort. An element is placed before the first
 * element it may precede, which keeps elements with equal keys in their
 * original order as Python's stable sort does; what is proved is that the
 * result is sorted and a permutation of the input.
 */
module KeySort {
  import opened PyStr

  /** With `descending`, `a` may come before `b` when its key is not smaller; otherwise when it is not larger. */
  predicate InOrder<T>(key: T -> string, descending: bool, a: T, b: T) {
    if descending then LexLe(key(b), key(a)) else LexLe(key(a), key(b))
  }

  ghost predicate Sorted<T>(s: seq<T>, key: T -> string, descending: bool) {
    forall i, j :: 0 <= i < j < |s| ==> InOrder(key, descending, s[i], s[j])
  }

  lemma InOrderTotal<T>(key: T -> string, descending: bool, a: T, b: T)
    ensures InOrder(key, descending, a, b) || InOrder(key, descending, b, a)
  {
    LexLeTotal(key(a), key(b));
  }

  lemma InOrderTrans<T>(key: T -> string, descending: bool, a: T, b: T, c: T)
    requires InOrder(key, descending, a, b) && InOrder(key, descending, b, c)
    ensures InOrder(key, descending, a, c)
  {
    if descending { LexLeTrans(key(c), key(b), key(a)); } else { LexLeTrans(key(a), key(b), key(c)); }
  }

  /** Insert `x` into the sorted `t` in front of the first element it may precede. */
  function Insert<T>(x: T, t: seq<T>, key: T -> string, descending: bool): (r: seq<T>)
    requires Sorted(t, key, descending)
    ensures multiset(r) == multiset(t) + multiset{x}
    ensures Sorted(r, key, descending)
  {
    if t == [] || InOrder(key, descending, x, t[0]) then
      assert forall j :: 0 < j < |t| ==> InOrder(key, descending, x, t[j]) by {
        forall j | 0 < j < |t| ensures InOrder(key, descending, x, t[j]) {
          InOrderTrans(key, descending, x, t[0], t[j]);
        }
      }
      [x] + t
    else
      var rest := Insert(x, t[1..], key, descending);
      InOrderTotal(key, descending, x, t[0]);
      assert t == [t[0]] + t[1..];
      assert forall j :: 0 <= j < |rest| ==> InOrder(key, descending, t[0], rest[j]) by {
        forall j | 0 <= j < |rest| ensures InOrder(key, descending, t[0], rest[j]) {
          assert rest[j] in multiset(rest);
          if rest[j] != x {
            assert rest[j] in multiset(t[1..]);
            var k :| 0 <= k < |t[1..]| && t[1..][k] == rest[j];
            assert t[k + 1] == rest[j];
          }
        }
      }
      [t[0]] + rest
  }

  /** Python's `sorted(s, key=key, reverse=descending)`. */
  function SortBy<T>(s: seq<T>, key: T -> string, descending: bool): (r: seq<T>)
    ensures multiset(r) == multiset(s)
    ensures Sorted(r, key, descending)
  {
    if s == [] then []
    else
      assert s == [s[0]] + s[1..];
      Insert(s[0], SortBy(s[1..], key, descending), key, descending)
  }

  /** The first element of an ascending sort has a key no larger than that of any element of the input. */
  lemma SortedHeadIsLeast<T>(s: seq<T>, key: T -> string)
    requires s != []
    ensures var r := SortBy(s, key, false);
      |r| == |s| && forall x :: x in s ==> LexLe(key(r[0]), key(x))
  {
    var r := SortBy(s, key, false);
    assert |r| == |multiset(r)| == |multiset(s)| == |s|;
    forall x | x in s ensures LexLe(key(r[0]), key(x)) {
      assert x in multiset(s);
      assert x in multiset(r);
      var k :| 0 <= k < |r| && r[k] == x;
      if k == 0 { LexLeRefl(key(x)); }
    }
  }
}
