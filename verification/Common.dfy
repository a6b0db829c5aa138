/** Shared vocabulary: options, real-valued extrema, first-index search and sums. */
module Common {

  datatype Option<+T> = None | Some(value: T)

  datatype Direction = LONG | SHORT {
    function Flip(): Direction { if LONG? then SHORT else LONG }
  }

  function Max(x: real, y: real): real { if x >= y then x else y }

  function Min(x: real, y: real): real { if x <= y then x else y }

  function Abs(x: real): real { if x >= 0.0 then x else -x }

  /** Product, named so that equal factors are seen to give equal products. */
  function Times(x: real, y: real): real { x * y }

  /** Quotient, named for the same reason. */
  function Over(x: real, d: real): real
    requires d != 0.0
  {
    x / d
  }

  lemma QuotientTimes(x: real, r: real)
    requires r != 0.0
    ensures x / r * r == x
  {
  }

  lemma DivMonotone(x: real, y: real, r: real)
    requires r > 0.0 && x <= y
    ensures x / r <= y / r
  {
    assert (y - x) / r >= 0.0;
  }

  function Sum(s: seq<real>): real {
    if s == [] then 0.0 else Sum(s[..|s| - 1]) + s[|s| - 1]
  }

  lemma {:induction false} SumConcat(a: seq<real>, b: seq<real>)
    ensures Sum(a + b) == Sum(a) + Sum(b)
  {
    if b == [] {
      assert a + b == a;
    } else {
      SumConcat(a, b[..|b| - 1]);
      assert (a + b)[..|a + b| - 1] == a + b[..|b| - 1];
    }
  }

  lemma SumAppend(s: seq<real>, x: real)
    ensures Sum(s + [x]) == Sum(s) + x
  {
    assert (s + [x])[..|s|] == s;
  }

  lemma SumMiddle(u: seq<real>, x: real, v: seq<real>)
    ensures Sum(u + [x] + v) == Sum(u + v) + x
  {
    SumConcat(u + [x], v);
    SumConcat(u, [x]);
    SumConcat(u, v);
    assert Sum([x]) == Sum([]) + x;
  }

  /** Deleting one occurrence of x from two permutations leaves permutations. */
  lemma DropOccurrence<T>(a: seq<T>, x: T, u: seq<T>, v: seq<T>)
    requires multiset(a + [x]) == multiset(u + [x] + v)
    ensures multiset(a) == multiset(u + v)
  {
    assert multiset(a + [x]) == multiset(a) + multiset{x};
    assert multiset(u + [x] + v) == multiset(u + v) + multiset{x};
    forall y ensures multiset(a)[y] == multiset(u + v)[y] {
      assert (multiset(a) + multiset{x})[y] == (multiset(u + v) + multiset{x})[y];
    }
  }

  /** A sum depends only on which numbers occur and how often. */
  lemma {:induction false} SumPermutation(a: seq<real>, b: seq<real>)
    requires multiset(a) == multiset(b)
    ensures Sum(a) == Sum(b)
    decreases |a|
  {
    if a == [] {
      assert |multiset(b)| == 0;
    } else {
      var x, a' := a[|a| - 1], a[..|a| - 1];
      assert a == a' + [x];
      assert x in multiset(b);
      var i :| 0 <= i < |b| && b[i] == x;
      assert b == b[..i] + [x] + b[i + 1..];
      DropOccurrence(a', x, b[..i], b[i + 1..]);
      SumPermutation(a', b[..i] + b[i + 1..]);
      SumMiddle(b[..i], x, b[i + 1..]);
    }
  }

  /** Total of the values of a map, whatever order its keys are visited in. */
  ghost function MapSum<K>(m: map<K, real>): real
    decreases |m|
  {
    if m == map[] then 0.0
    else
      var k :| k in m;
      m[k] + MapSum(m - {k})
  }

  lemma {:induction false} MapSumRemove<K>(m: map<K, real>, k: K)
    requires k in m
    ensures MapSum(m) == m[k] + MapSum(m - {k})
    decreases |m|
  {
    var p :| p in m && MapSum(m) == m[p] + MapSum(m - {p});
    if p != k {
      MapSumRemove(m - {p}, k);
      MapSumRemove(m - {k}, p);
      assert m - {p} - {k} == m - {k} - {p};
    }
  }

  lemma {:induction false} MapSumZero<K>(m: map<K, real>)
    requires forall k :: k in m ==> m[k] == 0.0
    ensures MapSum(m) == 0.0
    decreases |m|
  {
    if m != map[] {
      var k :| k in m && MapSum(m) == m[k] + MapSum(m - {k});
      MapSumZero(m - {k});
    }
  }

  /** Adding d to one entry (a missing entry counts as zero) adds d to the total. */
  lemma MapSumAdd<K>(m: map<K, real>, k: K, d: real)
    ensures MapSum(m[k := (if k in m then m[k] else 0.0) + d]) == MapSum(m) + d
  {
    var m' := m[k := (if k in m then m[k] else 0.0) + d];
    MapSumRemove(m', k);
    assert m' - {k} == m - {k};
    if k in m {
      MapSumRemove(m, k);
    } else {
      assert m - {k} == m;
    }
  }
}
