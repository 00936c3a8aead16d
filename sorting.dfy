/**
 * The two uses of `Array.prototype.sort` in the script tools: a stable sort by an integer key (a
 * comparator `(a, b) => key(a) - key(b)`; ECMAScript requires `sort` to be stable) and the default
 * sort of strings by code point (JavaScript's code-unit order within the Basic Multilingual Plane).
 */
module Sorting {
  import opened Common

  // ---------------------------------------------------------------- stable sort by integer key

  predicate SortedByKey<T>(s: seq<T>, key: T -> int) {
    forall i, j | 0 <= i < j < |s| :: key(s[i]) <= key(s[j])
  }

  /** Inserts `x` after every element of `s` whose key is at most `key(x)`. */
  function InsertByKey<T>(x: T, s: seq<T>, key: T -> int): (r: seq<T>)
    ensures multiset(r) == multiset(s) + multiset{x}
  {
    if s == [] then [x]
    else if key(s[|s| - 1]) <= key(x) then s + [x]
    else
      var init, last := s[..|s| - 1], s[|s| - 1];
      assert s == init + [last];
      InsertByKey(x, init, key) + [last]
  }

  lemma {:induction false} InsertByKeyBounded<T>(x: T, s: seq<T>, key: T -> int, b: int)
    requires key(x) <= b && forall i | 0 <= i < |s| :: key(s[i]) <= b
    ensures forall i | 0 <= i < |InsertByKey(x, s, key)| :: key(InsertByKey(x, s, key)[i]) <= b
  {
    if s != [] && key(s[|s| - 1]) > key(x) {
      InsertByKeyBounded(x, s[..|s| - 1], key, b);
    }
  }

  lemma {:induction false} InsertByKeySorted<T>(x: T, s: seq<T>, key: T -> int)
    requires SortedByKey(s, key)
    ensures SortedByKey(InsertByKey(x, s, key), key)
  {
    if s != [] && key(s[|s| - 1]) > key(x) {
      var init, last := s[..|s| - 1], s[|s| - 1];
      InsertByKeySorted(x, init, key);
      InsertByKeyBounded(x, init, key, key(last));
      var r0 := InsertByKey(x, init, key);
      assert InsertByKey(x, s, key) == r0 + [last];
    }
  }

  /** Insertion sort by `key`, stable. */
  function SortByKey<T>(s: seq<T>, key: T -> int): (r: seq<T>)
    ensures multiset(r) == multiset(s)
    ensures SortedByKey(r, key)
  {
    if s == [] then []
    else
      assert s == s[..|s| - 1] + [s[|s| - 1]];
      InsertByKeySorted(s[|s| - 1], SortByKey(s[..|s| - 1], key), key);
      InsertByKey(s[|s| - 1], SortByKey(s[..|s| - 1], key), key)
  }

  lemma {:induction false} FilterSnoc<T>(a: seq<T>, b: T, p: T -> bool)
    ensures Filter(a + [b], p) == Filter(a, p) + (if p(b) then [b] else [])
  {
    assert (a + [b])[..|a + [b]| - 1] == a;
  }

  /** The elements whose key is `k`. */
  function KeyIs<T>(key: T -> int, k: int): T -> bool {
    y => key(y) == k
  }

  lemma {:induction false} InsertByKeyStable<T>(x: T, s: seq<T>, key: T -> int, k: int)
    ensures Filter(InsertByKey(x, s, key), KeyIs(key, k))
         == Filter(s, KeyIs(key, k)) + (if key(x) == k then [x] else [])
  {
    var p := KeyIs(key, k);
    if s == [] {
      FilterSnoc([], x, p);
    } else if key(s[|s| - 1]) <= key(x) {
      FilterSnoc(s, x, p);
    } else {
      var init, last := s[..|s| - 1], s[|s| - 1];
      assert s == init + [last];
      var r0 := InsertByKey(x, init, key);
      assert InsertByKey(x, s, key) == r0 + [last];
      InsertByKeyStable(x, init, key, k);
      FilterSnoc(r0, last, p);
      FilterSnoc(init, last, p);
      // `last` and `x` have different keys, so at most one of them is kept
      assert !(p(x) && p(last));
    }
  }

  /** Elements with equal keys keep their relative order. */
  lemma {:induction false} SortByKeyStable<T>(s: seq<T>, key: T -> int, k: int)
    ensures Filter(SortByKey(s, key), KeyIs(key, k)) == Filter(s, KeyIs(key, k))
  {
    if s != [] {
      var init, last := s[..|s| - 1], s[|s| - 1];
      assert s == init + [last];
      SortByKeyStable(init, key, k);
      InsertByKeyStable(last, SortByKey(init, key), key, k);
      FilterSnoc(init, last, KeyIs(key, k));
    }
  }

  // ---------------------------------------------------------------- strings by code point

  /** `a` sorts no later than `b` in the default string order. */
  predicate LexLe(a: string, b: string) {
    a == [] || (b != [] && (a[0] < b[0] || (a[0] == b[0] && LexLe(a[1..], b[1..]))))
  }

  lemma {:induction false} LexLeTotal(a: string, b: string)
    ensures LexLe(a, b) || LexLe(b, a)
  {
    if a != [] && b != [] && a[0] == b[0] {
      LexLeTotal(a[1..], b[1..]);
    }
  }

  lemma {:induction false} LexLeAntisymmetric(a: string, b: string)
    requires LexLe(a, b) && LexLe(b, a)
    ensures a == b
  {
    if a != [] && b != [] {
      LexLeAntisymmetric(a[1..], b[1..]);
      assert a == [a[0]] + a[1..] && b == [b[0]] + b[1..];
    }
  }

  lemma {:induction false} LexLeTransitive(a: string, b: string, c: string)
    requires LexLe(a, b) && LexLe(b, c)
    ensures LexLe(a, c)
  {
    if a != [] && b != [] && c != [] && a[0] == b[0] && b[0] == c[0] {
      LexLeTransitive(a[1..], b[1..], c[1..]);
    }
  }

  predicate SortedStrings(s: seq<string>) {
    forall i, j | 0 <= i < j < |s| :: LexLe(s[i], s[j])
  }

  function InsertString(x: string, s: seq<string>): (r: seq<string>)
    requires SortedStrings(s)
    ensures multiset(r) == multiset(s) + multiset{x}
    ensures SortedStrings(r)
  {
    if s == [] then [x]
    else if LexLe(x, s[0]) then
      assert forall j | 0 <= j < |s| :: LexLe(x, s[j]) by {
        forall j | 0 <= j < |s| ensures LexLe(x, s[j]) {
          if j > 0 { LexLeTransitive(x, s[0], s[j]); }
        }
      }
      ConsSorted(x, s);
      [x] + s
    else
      LexLeTotal(x, s[0]);
      var t := s[1..];
      assert forall j | 0 <= j < |t| :: t[j] == s[j + 1];
      var rest := InsertString(x, t);
      BelowAll(s[0], x, t, rest);
      ConsSorted(s[0], rest);
      assert s == [s[0]] + t;
      [s[0]] + rest
  }

  lemma {:induction false} ConsSorted(h: string, rest: seq<string>)
    requires SortedStrings(rest) && forall j | 0 <= j < |rest| :: LexLe(h, rest[j])
    ensures SortedStrings([h] + rest)
  {
    var r := [h] + rest;
    forall i, j | 0 <= i < j < |r| ensures LexLe(r[i], r[j]) {
      assert r[j] == rest[j - 1];
      if i > 0 {
        assert r[i] == rest[i - 1];
      }
    }
  }

  /** A string sorting before `x` and every element of `t` sorts before every element of `t` with `x` inserted. */
  lemma {:induction false} BelowAll(h: string, x: string, t: seq<string>, rest: seq<string>)
    requires LexLe(h, x) && forall j | 0 <= j < |t| :: LexLe(h, t[j])
    requires multiset(rest) == multiset(t) + multiset{x}
    ensures forall j | 0 <= j < |rest| :: LexLe(h, rest[j])
  {
    forall j | 0 <= j < |rest| ensures LexLe(h, rest[j]) {
      assert rest[j] in multiset(rest);
      if rest[j] != x {
        assert rest[j] in multiset(t);
        var i :| 0 <= i < |t| && t[i] == rest[j];
      }
    }
  }

  /** `Array.prototype.sort()` on strings (insertion sort). */
  function SortStrings(s: seq<string>): (r: seq<string>)
    ensures multiset(r) == multiset(s)
    ensures SortedStrings(r)
  {
    if s == [] then []
    else
      assert s == s[..|s| - 1] + [s[|s| - 1]];
      InsertString(s[|s| - 1], SortStrings(s[..|s| - 1]))
  }

  /** Sorted distinct strings are strictly increasing, so the sort of a set of strings is unique. */
  lemma {:induction false} SortedDistinctStrict(s: seq<string>)
    requires SortedStrings(s)
    requires forall i, j | 0 <= i < j < |s| :: s[i] != s[j]
    ensures forall i, j | 0 <= i < j < |s| :: !LexLe(s[j], s[i])
  {
    forall i, j | 0 <= i < j < |s| ensures !LexLe(s[j], s[i]) {
      if LexLe(s[j], s[i]) { LexLeAntisymmetric(s[i], s[j]); }
    }
  }
}
