/**
 * JavaScript `Map` objects: a table of values and the keys in insertion order. `set` on a present
 * key overwrites its value and keeps its position; on a new key it appends the key; iteration
 * follows the key order.
 */
module OrderedMaps {
  import opened Common

  predicate Distinct<T(==)>(s: seq<T>) {
    forall i, j | 0 <= i < j < |s| :: s[i] != s[j]
  }

  /** A `Map`: `keys` in insertion order, `values` the table. */
  datatype OMap<K, V> = OMap(keys: seq<K>, values: map<K, V>)

  /** Exactly the listed keys have values. */
  predicate Valid<K, V>(m: OMap<K, V>) {
    (forall k | k in m.values :: k in m.keys) && (forall k | k in m.keys :: k in m.values)
  }

  /** `new Map()`. */
  function Empty<K, V>(): (m: OMap<K, V>)
    ensures Valid(m) && m.keys == []
  {
    OMap([], map[])
  }

  /** `m.get(k)`: `None` stands for `undefined`. */
  function Get<K, V>(m: OMap<K, V>, k: K): (r: Option<V>)
    ensures Valid(m) ==> (r.Some? <==> k in m.keys)
  {
    if k in m.values then Some(m.values[k]) else None
  }

  /** `m.set(k, v)`. */
  function Put<K, V>(m: OMap<K, V>, k: K, v: V): (r: OMap<K, V>)
    ensures r.keys == if k in m.keys then m.keys else m.keys + [k]
    ensures Get(r, k) == Some(v)
    ensures Valid(m) ==> Valid(r)
  {
    OMap(if k in m.keys then m.keys else m.keys + [k], m.values[k := v])
  }

  /** `m.set(k, v)` leaves every other key's value alone. */
  lemma {:induction false} PutOther<K, V>(m: OMap<K, V>, k: K, v: V, k': K)
    requires k' != k
    ensures Get(Put(m, k, v), k') == Get(m, k')
  {
  }

  /** `for (const [k, v] of m)`: the entries in key order. */
  function Entries<K, V>(m: OMap<K, V>): (es: seq<(K, V)>)
    requires Valid(m)
    ensures |es| == |m.keys|
    ensures forall i | 0 <= i < |es| :: es[i].0 == m.keys[i] && Get(m, es[i].0) == Some(es[i].1)
  {
    seq(|m.keys|, i requires 0 <= i < |m.keys| => (m.keys[i], m.values[m.keys[i]]))
  }

  /** The distinct elements of `s` in order of first appearance (`[...new Set(s)]`). */
  function Dedup<T(==)>(s: seq<T>): (r: seq<T>)
    ensures Distinct(r)
    ensures forall i | 0 <= i < |r| :: r[i] in s
    ensures forall i | 0 <= i < |s| :: s[i] in r
  {
    if s == [] then []
    else
      var d := Dedup(s[..|s| - 1]);
      assert forall i | 0 <= i < |s| - 1 :: s[i] == s[..|s| - 1][i];
      if s[|s| - 1] in d then d else d + [s[|s| - 1]]
  }

  /** `Dedup` of a sequence with one more element. */
  lemma DedupSnoc<T>(s: seq<T>, x: T)
    ensures Dedup(s + [x]) == if x in Dedup(s) then Dedup(s) else Dedup(s) + [x]
  {
    assert (s + [x])[..|s|] == s;
  }

  /** The keys of a list of entries, in order. */
  function Firsts<K, V>(ps: seq<(K, V)>): (ks: seq<K>)
    ensures |ks| == |ps| && forall i | 0 <= i < |ps| :: ks[i] == ps[i].0
  {
    seq(|ps|, i requires 0 <= i < |ps| => ps[i].0)
  }

  /** `new Map(ps)`: the entries set one after the other. */
  function FromEntries<K, V>(ps: seq<(K, V)>): (m: OMap<K, V>)
    ensures Valid(m)
  {
    if ps == [] then Empty() else Put(FromEntries(ps[..|ps| - 1]), ps[|ps| - 1].0, ps[|ps| - 1].1)
  }

  lemma FromEntriesSnoc<K, V>(ps: seq<(K, V)>, x: (K, V))
    ensures FromEntries(ps + [x]) == Put(FromEntries(ps), x.0, x.1)
  {
    assert (ps + [x])[..|ps|] == ps;
  }

  /** The value of the last entry with key `k`. */
  function LastValue<K(==), V>(ps: seq<(K, V)>, k: K): (r: Option<V>)
    ensures r.None? <==> forall i | 0 <= i < |ps| :: ps[i].0 != k
    ensures r.Some? ==> exists i | 0 <= i < |ps| :: ps[i] == (k, r.value) && forall j | i < j < |ps| :: ps[j].0 != k
  {
    if ps == [] then None
    else if ps[|ps| - 1].0 == k then Some(ps[|ps| - 1].1)
    else
      var r := LastValue(ps[..|ps| - 1], k);
      LastValueSnoc(ps, k, r);
      r
  }

  /** The last entry with key `k` lies before a final entry with another key. */
  lemma LastValueSnoc<K, V>(ps: seq<(K, V)>, k: K, r: Option<V>)
    requires ps != [] && ps[|ps| - 1].0 != k
    requires var init := ps[..|ps| - 1];
      (r.None? <==> forall i | 0 <= i < |init| :: init[i].0 != k)
      && (r.Some? ==> exists i | 0 <= i < |init| :: init[i] == (k, r.value) && forall j | i < j < |init| :: init[j].0 != k)
    ensures r.None? <==> forall i | 0 <= i < |ps| :: ps[i].0 != k
    ensures r.Some? ==> exists i | 0 <= i < |ps| :: ps[i] == (k, r.value) && forall j | i < j < |ps| :: ps[j].0 != k
  {
    var init := ps[..|ps| - 1];
    assert forall i | 0 <= i < |init| :: init[i] == ps[i];
    if r.Some? {
      var i :| 0 <= i < |init| && init[i] == (k, r.value) && forall j | i < j < |init| :: init[j].0 != k;
      assert ps[i] == (k, r.value);
      assert forall j | i < j < |ps| :: ps[j].0 != k;
    } else {
      assert forall i | 0 <= i < |ps| :: ps[i].0 != k;
    }
  }

  /** `new Map(ps)` holds the keys by first appearance and, for each, the last value given. */
  lemma {:induction false} FromEntriesSpec<K, V>(ps: seq<(K, V)>)
    ensures FromEntries(ps).keys == Dedup(Firsts(ps))
    ensures forall k :: Get(FromEntries(ps), k) == LastValue(ps, k)
  {
    if ps != [] {
      var init, p := ps[..|ps| - 1], ps[|ps| - 1];
      FromEntriesSpec(init);
      assert Firsts(ps)[..|ps| - 1] == Firsts(init);
      forall k ensures Get(FromEntries(ps), k) == LastValue(ps, k) {
        if k != p.0 {
          PutOther(FromEntries(init), p.0, p.1, k);
        }
      }
    }
  }

  /** Index of the first occurrence of `x` in `s`. */
  function FirstIndex<T(==)>(s: seq<T>, x: T): (i: nat)
    requires x in s
    ensures i < |s| && s[i] == x && forall j | 0 <= j < i :: s[j] != x
  {
    if s[0] == x then 0 else 1 + FirstIndex(s[1..], x)
  }

  lemma {:induction false} FirstIndexPrefix<T>(s: seq<T>, n: nat, x: T)
    requires n <= |s| && x in s[..n]
    ensures FirstIndex(s[..n], x) == FirstIndex(s, x)
  {
    var i := FirstIndex(s[..n], x);
    assert s[i] == x;
    var j := FirstIndex(s, x);
    assert j <= i;
    assert s[..n][j] == x;
  }

  /** `[...new Set(s)]` lists the elements by their first appearance in `s`. */
  lemma {:induction false} DedupOrder<T>(s: seq<T>)
    ensures forall i, j | 0 <= i < j < |Dedup(s)| :: FirstIndex(s, Dedup(s)[i]) < FirstIndex(s, Dedup(s)[j])
  {
    if s != [] {
      var init := s[..|s| - 1];
      var d := Dedup(init);
      DedupOrder(init);
      forall i, j | 0 <= i < j < |Dedup(s)|
        ensures FirstIndex(s, Dedup(s)[i]) < FirstIndex(s, Dedup(s)[j])
      {
        assert Dedup(s)[i] == d[i];
        FirstIndexPrefix(s, |s| - 1, d[i]);
        if j < |d| {
          FirstIndexPrefix(s, |s| - 1, d[j]);
        } else {
          assert Dedup(s)[j] == s[|s| - 1] && s[|s| - 1] !in init;
          assert FirstIndex(s, s[|s| - 1]) == |s| - 1;
        }
      }
    }
  }

  /** A distinct sequence holds each value at most once. */
  lemma {:induction false} DistinctMultiplicity<T>(s: seq<T>, x: T)
    requires Distinct(s)
    ensures multiset(s)[x] <= 1
  {
    if s != [] {
      var init := s[..|s| - 1];
      assert s == init + [s[|s| - 1]];
      assert s[|s| - 1] !in init;
      DistinctMultiplicity(init, x);
    }
  }

  /** A rearrangement of a distinct sequence is distinct. */
  lemma {:induction false} DistinctPermutation<T>(a: seq<T>, b: seq<T>)
    requires Distinct(a) && multiset(a) == multiset(b)
    ensures Distinct(b)
  {
    forall i, j | 0 <= i < j < |b| ensures b[i] != b[j] {
      if b[i] == b[j] {
        var x := b[i];
        assert b == b[..j] + [x] + b[j + 1..];
        assert x in b[..j];
        assert multiset(b)[x] == multiset(b[..j])[x] + 1 + multiset(b[j + 1..])[x];
        DistinctMultiplicity(a, x);
      }
    }
  }
}
