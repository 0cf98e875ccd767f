/** Sequence, set and map facts shared by the models. */
module Common {

  datatype Option<+T> = None | Some(value: T)

  type positive = n: nat | n >= 1 witness 1

  function Max(a: int, b: int): int { if a < b then b else a }

  function Min(a: int, b: int): int { if a < b then a else b }

  /** Python's `max(min(n, hi), lo)`. */
  function Clamp(n: int, lo: int, hi: int): int { Max(Min(n, hi), lo) }

  predicate NoDup<T(==)>(s: seq<T>) {
    forall i, j :: 0 <= i < j < |s| ==> s[i] != s[j]
  }

  function Elems<T>(s: seq<T>): set<T> { set x | x in s }

  lemma {:induction false} NoDupSize<T>(s: seq<T>)
    requires NoDup(s)
    ensures |Elems(s)| == |s|
  {
    if s != [] {
      NoDupTail(s);
      NoDupSize(s[1..]);
      assert s == [s[0]] + s[1..];
      assert Elems(s) == {s[0]} + Elems(s[1..]) && s[0] !in Elems(s[1..]);
    }
  }

  lemma NoDupTail<T>(s: seq<T>)
    requires NoDup(s) && s != []
    ensures NoDup(s[1..]) && s[0] !in s[1..]
  {
    forall i | 0 <= i < |s[1..]| ensures s[1..][i] != s[0] {
      assert s[1..][i] == s[i + 1];
    }
  }

  /** `a` can be obtained from `b` by deleting elements. */
  predicate Subsequence<T(==)>(a: seq<T>, b: seq<T>)
    decreases |b|
  {
    a == [] ||
    (b != [] &&
     ((a[|a| - 1] == b[|b| - 1] && Subsequence(a[..|a| - 1], b[..|b| - 1])) || Subsequence(a, b[..|b| - 1])))
  }

  lemma SubsequenceSkip<T>(a: seq<T>, b: seq<T>, x: T)
    requires Subsequence(a, b)
    ensures Subsequence(a, b + [x])
  {
    assert (b + [x])[..|b|] == b;
  }

  lemma SubsequenceKeep<T>(a: seq<T>, b: seq<T>, x: T)
    requires Subsequence(a, b)
    ensures Subsequence(a + [x], b + [x])
  {
    assert (b + [x])[..|b|] == b && (a + [x])[..|a|] == a;
  }

  /** The value stored under `k`, or the empty sequence. */
  function At<K, V>(m: map<K, seq<V>>, k: K): seq<V> { if k in m then m[k] else [] }

  /** Total length of the sequences stored in a map. */
  ghost function TotalLength<K, V>(m: map<K, seq<V>>): nat {
    if m == map[] then 0 else
    var k :| k in m;
    |m[k]| + TotalLength(m - {k})
  }

  lemma TotalLengthSplit<K, V>(m: map<K, seq<V>>, k: K)
    requires k in m
    ensures TotalLength(m) == |m[k]| + TotalLength(m - {k})
    decreases |m|
  {
    var j :| j in m && TotalLength(m) == |m[j]| + TotalLength(m - {j});
    if j != k {
      TotalLengthSplit(m - {j}, k);
      assert m - {j} - {k} == m - {k} - {j};
      TotalLengthSplit(m - {k}, j);
    }
  }

  lemma TotalLengthUpdate<K, V>(m: map<K, seq<V>>, k: K, s: seq<V>)
    ensures TotalLength(m[k := s]) == TotalLength(m) - |At(m, k)| + |s|
  {
    TotalLengthSplit(m[k := s], k);
    assert m[k := s] - {k} == m - {k};
    if k in m { TotalLengthSplit(m, k); } else { assert m - {k} == m; }
  }

  lemma TotalLengthRemove<K, V>(m: map<K, seq<V>>, k: K)
    requires k in m && m[k] == []
    ensures TotalLength(m - {k}) == TotalLength(m)
  {
    TotalLengthSplit(m, k);
  }

  lemma SubsetSize<T>(a: set<T>, b: set<T>)
    requires a <= b
    ensures |a| <= |b|
  {
    assert a + (b - a) == b;
  }

  /** Sum of the counters stored in a map. */
  ghost function SumValues<K>(m: map<K, nat>): nat {
    if m == map[] then 0 else
    var k :| k in m;
    m[k] + SumValues(m - {k})
  }

  lemma SumValuesSplit<K>(m: map<K, nat>, k: K)
    requires k in m
    ensures SumValues(m) == m[k] + SumValues(m - {k})
    decreases |m|
  {
    var j :| j in m && SumValues(m) == m[j] + SumValues(m - {j});
    if j != k {
      SumValuesSplit(m - {j}, k);
      assert m - {j} - {k} == m - {k} - {j};
      SumValuesSplit(m - {k}, j);
    }
  }

  /** `counts[k] = counts.get(k, 0) + n`. */
  function Bump<K>(m: map<K, nat>, k: K, n: nat): map<K, nat> { m[k := (if k in m then m[k] else 0) + n] }

  lemma BumpAdds<K>(m: map<K, nat>, k: K, n: nat)
    ensures SumValues(Bump(m, k, n)) == SumValues(m) + n
  {
    SumValuesSplit(Bump(m, k, n), k);
    assert Bump(m, k, n) - {k} == m - {k};
    if k in m { SumValuesSplit(m, k); } else { assert m - {k} == m; }
  }
}
