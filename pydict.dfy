/**
 * Python's insertion-ordered dict, as a sequence of (key, value) pairs.
 * Assigning to an existing key replaces its value where it stands;
 * assigning to a new key appends it.
 */
module PyDict {
  import opened Wrappers

  type Dict<K, V> = seq<(K, V)>

  predicate Distinct<T(==)>(s: seq<T>) {
    forall i, j :: 0 <= i < j < |s| ==> s[i] != s[j]
  }

  /** list(d.keys()) */
  function Keys<K, V>(d: Dict<K, V>): (ks: seq<K>)
    ensures |ks| == |d|
    ensures forall i :: 0 <= i < |d| ==> ks[i] == d[i].0
  {
    seq(|d|, i requires 0 <= i < |d| => d[i].0)
  }

  /** A well-formed dict holds each key once. */
  predicate Valid<K(==), V>(d: Dict<K, V>) {
    Distinct(Keys(d))
  }

  /** The first index of x in s (Python's s.index(x)). */
  function IndexOf<T(==)>(s: seq<T>, x: T): (r: nat)
    requires x in s
    ensures r < |s| && s[r] == x
    ensures forall j :: 0 <= j < r ==> s[j] != x
  {
    if s[0] == x then 0 else 1 + IndexOf(s[1..], x)
  }

  /** d.get(k): the value stored under k, None when k is absent. */
  function Get<K(==), V>(d: Dict<K, V>, k: K): Option<V>
  {
    if k in Keys(d) then Some(d[IndexOf(Keys(d), k)].1) else None
  }

  /** Where k stands in the iteration order of d. */
  function Position<K(==), V>(d: Dict<K, V>, k: K): (p: nat)
    requires k in Keys(d)
    ensures p < |d| && d[p].0 == k
  {
    IndexOf(Keys(d), k)
  }

  /** In a well-formed dict the entry at index i is found at index i. */
  lemma GetAt<K, V>(d: Dict<K, V>, i: nat)
    requires Valid(d) && i < |d|
    ensures Position(d, d[i].0) == i
    ensures Get(d, d[i].0) == Some(d[i].1)
  {
  }

  /**
   * d[k] = v: an existing key keeps its place and takes the new value,
   * a new key goes last, and no other key changes.
   */
  function Put<K(==, !new), V>(d: Dict<K, V>, k: K, v: V): (r: Dict<K, V>)
    ensures Keys(r) == if k in Keys(d) then Keys(d) else Keys(d) + [k]
    ensures Get(r, k) == Some(v)
    ensures forall k' :: k' != k ==> Get(r, k') == Get(d, k')
    ensures Valid(d) ==> Valid(r)
    ensures Valid(d) ==> forall i :: 0 <= i < |r| ==> r[i] == if i < |d| && d[i].0 != k then d[i] else (k, v)
  {
    var ks := Keys(d);
    if k in ks then
      var r := d[IndexOf(ks, k) := (k, v)];
      assert Keys(r) == ks;
      r
    else
      var r := d + [(k, v)];
      assert Keys(r) == ks + [k];
      assert forall k' :: k' in ks ==> IndexOf(ks + [k], k') == IndexOf(ks, k') by {
        forall k' | k' in ks { IndexOfPrefix(ks, [k], k'); }
      }
      r
  }

  /** Assigning to a new key appends the entry. */
  lemma PutNew<K(!new), V>(d: Dict<K, V>, k: K, v: V)
    requires k !in Keys(d)
    ensures Put(d, k, v) == d + [(k, v)]
  {
  }

  /** Assigning to the only key of a one-entry dict replaces its value. */
  lemma PutOnly<K(!new), V>(k: K, v: V, w: V)
    ensures Put([(k, v)], k, w) == [(k, w)]
  {
    assert Keys([(k, v)]) == [k];
  }

  /** The distinct elements of s in the order of their first occurrence. */
  function Dedup<T(==, !new)>(s: seq<T>): (r: seq<T>)
    ensures Distinct(r)
    ensures forall x :: x in r <==> x in s
    ensures forall x :: x in s ==> multiset(r)[x] == 1
  {
    if s == [] then []
    else
      var p := Dedup(s[..|s| - 1]);
      var z := s[|s| - 1];
      assert s == s[..|s| - 1] + [z];
      if z in p then p else p + [z]
  }

  /** A sequence without repeats is its own Dedup. */
  lemma {:induction false} DedupOfDistinct<T(!new)>(s: seq<T>)
    requires Distinct(s)
    ensures Dedup(s) == s
  {
    if s != [] {
      var n := |s| - 1;
      var front := s[..n];
      assert Distinct(front);
      DedupOfDistinct(front);
      assert s[n] !in front;
      assert s == front + [s[n]];
    }
  }

  /** The first occurrences of two elements come in the same order in s and in Dedup(s). */
  lemma {:induction false} DedupOrder<T(!new)>(s: seq<T>, x: T, y: T)
    requires x in s && y in s
    ensures IndexOf(Dedup(s), x) < IndexOf(Dedup(s), y) <==> IndexOf(s, x) < IndexOf(s, y)
  {
    var n := |s| - 1;
    var front, z := s[..n], s[n];
    assert s == front + [z];
    var p := Dedup(front);
    if x in front && y in front {
      DedupOrder(front, x, y);
      IndexOfPrefix(front, [z], x);
      IndexOfPrefix(front, [z], y);
      if z !in p {
        IndexOfPrefix(p, [z], x);
        IndexOfPrefix(p, [z], y);
      }
    } else if x in front {
      // y first occurs at the end of s
      IndexOfPrefix(front, [z], x);
      assert y !in p && z == y;
      IndexOfPrefix(p, [z], x);
    } else if y in front {
      IndexOfPrefix(front, [z], y);
      assert x !in p && z == x;
      IndexOfPrefix(p, [z], y);
    }
  }

  lemma IndexOfPrefix<T>(a: seq<T>, b: seq<T>, x: T)
    requires x in a
    ensures IndexOf(a + b, x) == IndexOf(a, x)
  {
    var j := IndexOf(a, x);
    assert (a + b)[j] == x;
  }
}
