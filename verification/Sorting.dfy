/** Stable sorting by a comparison, and when two inputs sort to the same sequence. */
module Sorting {

  ghost predicate TotalPreorder<T(!new)>(le: (T, T) -> bool) {
    (forall x, y :: le(x, y) || le(y, x)) &&
    (forall x, y, z :: le(x, y) && le(y, z) ==> le(x, z))
  }

  predicate Same<T>(le: (T, T) -> bool, x: T, y: T) { le(x, y) && le(y, x) }

  ghost predicate Sorted<T(!new)>(le: (T, T) -> bool, s: seq<T>) {
    forall i, j :: 0 <= i < j < |s| ==> le(s[i], s[j])
  }

  /** Places x behind every element that is not greater. */
  function Insert<T>(le: (T, T) -> bool, s: seq<T>, x: T): (r: seq<T>)
    ensures multiset(r) == multiset(s + [x])
  {
    if s == [] || le(s[|s| - 1], x) then s + [x]
    else
      assert s == s[..|s| - 1] + [s[|s| - 1]];
      Insert(le, s[..|s| - 1], x) + [s[|s| - 1]]
  }

  /** Stable sort, as Python's `sorted` with a key. */
  function StableSort<T>(le: (T, T) -> bool, s: seq<T>): (r: seq<T>)
    ensures multiset(r) == multiset(s) && |r| == |s|
  {
    if s == [] then []
    else
      assert s == s[..|s| - 1] + [s[|s| - 1]];
      var r := Insert(le, StableSort(le, s[..|s| - 1]), s[|s| - 1]);
      assert |multiset(r)| == |multiset(s)|;
      r
  }

  /** The elements that compare equal to x, in order of occurrence. */
  function Class<T>(le: (T, T) -> bool, s: seq<T>, x: T): seq<T> {
    if s == [] then []
    else Class(le, s[..|s| - 1], x) + if Same(le, s[|s| - 1], x) then [s[|s| - 1]] else []
  }

  lemma {:induction false} InsertSorted<T(!new)>(le: (T, T) -> bool, s: seq<T>, x: T)
    requires TotalPreorder(le) && Sorted(le, s)
    ensures Sorted(le, Insert(le, s, x))
  {
    if s != [] && !le(s[|s| - 1], x) {
      var s', y := s[..|s| - 1], s[|s| - 1];
      InsertSorted(le, s', x);
      var r := Insert(le, s', x);
      forall i | 0 <= i < |r| ensures le(r[i], y) {
        assert r[i] in multiset(r) && multiset(r) == multiset(s' + [x]);
        assert r[i] in s' + [x];
      }
    }
  }

  lemma {:induction false} InsertKeepsClasses<T(!new)>(le: (T, T) -> bool, s: seq<T>, x: T, z: T)
    requires TotalPreorder(le)
    ensures Class(le, Insert(le, s, x), z) == Class(le, s + [x], z)
  {
    if s != [] && !le(s[|s| - 1], x) {
      var s', y := s[..|s| - 1], s[|s| - 1];
      InsertKeepsClasses(le, s', x, z);
      var r := Insert(le, s', x);
      assert (r + [y])[..|r|] == r && (s + [x])[..|s|] == s && (s' + [x])[..|s'|] == s';
      assert !(Same(le, x, z) && Same(le, y, z));
    }
  }

  lemma {:induction false} SortSorted<T(!new)>(le: (T, T) -> bool, s: seq<T>)
    requires TotalPreorder(le)
    ensures Sorted(le, StableSort(le, s))
  {
    if s != [] {
      SortSorted(le, s[..|s| - 1]);
      InsertSorted(le, StableSort(le, s[..|s| - 1]), s[|s| - 1]);
    }
  }

  /** Stability: elements that compare equal keep their order. */
  lemma {:induction false} SortStable<T(!new)>(le: (T, T) -> bool, s: seq<T>, z: T)
    requires TotalPreorder(le)
    ensures Class(le, StableSort(le, s), z) == Class(le, s, z)
  {
    if s != [] {
      var s', x := s[..|s| - 1], s[|s| - 1];
      var r := StableSort(le, s');
      SortStable(le, s', z);
      InsertKeepsClasses(le, r, x, z);
      assert (r + [x])[..|r|] == r;
    }
  }

  lemma {:induction false} ClassMember<T(!new)>(le: (T, T) -> bool, s: seq<T>, x: T, i: nat)
    requires i < |Class(le, s, x)|
    ensures Class(le, s, x)[i] in s && Same(le, Class(le, s, x)[i], x)
  {
    if i < |Class(le, s[..|s| - 1], x)| {
      ClassMember(le, s[..|s| - 1], x, i);
    }
  }

  lemma ClassInit<T(!new)>(le: (T, T) -> bool, s: seq<T>, z: T)
    requires s != []
    ensures var c := Class(le, s, z);
      Class(le, s[..|s| - 1], z) == if Same(le, s[|s| - 1], z) then c[..|c| - 1] else c
  {
  }

  /** A sorted sequence is determined by its classes. */
  lemma {:induction false} SortedUnique<T(!new)>(le: (T, T) -> bool, a: seq<T>, b: seq<T>)
    requires TotalPreorder(le) && Sorted(le, a) && Sorted(le, b)
    requires forall z :: Class(le, a, z) == Class(le, b, z)
    ensures a == b
    decreases |a|
  {
    if b != [] {
      var y := b[|b| - 1];
      assert |Class(le, b, y)| > 0 && Class(le, a, y) == Class(le, b, y);
    }
    if a != [] {
      var x := a[|a| - 1];
      assert Class(le, a, x) == Class(le, b, x) && |Class(le, a, x)| > 0;
      assert b != [];
      var y := b[|b| - 1];
      assert Class(le, a, y) == Class(le, b, y) && |Class(le, b, y)| > 0;
      ClassMember(le, b, x, |Class(le, b, x)| - 1);
      ClassMember(le, a, y, |Class(le, a, y)| - 1);
      assert le(x, y) && le(y, x);
      assert Class(le, a, x)[|Class(le, a, x)| - 1] == x && Class(le, b, x)[|Class(le, b, x)| - 1] == y;
      var a', b' := a[..|a| - 1], b[..|b| - 1];
      forall z ensures Class(le, a', z) == Class(le, b', z) {
        ClassInit(le, a, z);
        ClassInit(le, b, z);
      }
      SortedUnique(le, a', b');
      assert a == a' + [x] && b == b' + [x];
    }
  }

  ghost predicate SameClasses<T(!new)>(le: (T, T) -> bool, a: seq<T>, b: seq<T>) {
    forall z :: Class(le, a, z) == Class(le, b, z)
  }

  lemma SortKeepsClasses<T(!new)>(le: (T, T) -> bool, s: seq<T>)
    requires TotalPreorder(le)
    ensures SameClasses(le, StableSort(le, s), s)
  {
    forall z ensures Class(le, StableSort(le, s), z) == Class(le, s, z) {
      SortStable(le, s, z);
    }
  }

  /** Two inputs sort alike exactly when they agree on the order inside every tie. */
  lemma SortCanonical<T(!new)>(le: (T, T) -> bool, a: seq<T>, b: seq<T>)
    requires TotalPreorder(le)
    ensures StableSort(le, a) == StableSort(le, b) <==> SameClasses(le, a, b)
  {
    SortKeepsClasses(le, a);
    SortKeepsClasses(le, b);
    SortSorted(le, a);
    SortSorted(le, b);
    var ra, rb := StableSort(le, a), StableSort(le, b);
    if SameClasses(le, a, b) {
      forall z ensures Class(le, ra, z) == Class(le, rb, z) {
        assert Class(le, a, z) == Class(le, b, z);
      }
      SortedUnique(le, ra, rb);
    }
    if ra == rb {
      forall z ensures Class(le, a, z) == Class(le, b, z) {
        assert Class(le, ra, z) == Class(le, a, z);
        assert Class(le, rb, z) == Class(le, b, z);
      }
    }
  }

  ghost predicate NoTies<T(!new)>(le: (T, T) -> bool, s: seq<T>) {
    forall i, j :: 0 <= i < j < |s| ==> !Same(le, s[i], s[j])
  }

  lemma {:induction false} ClassEmpty<T(!new)>(le: (T, T) -> bool, s: seq<T>, x: T)
    requires forall i :: 0 <= i < |s| ==> !Same(le, s[i], x)
    ensures Class(le, s, x) == []
  {
    if s != [] { ClassEmpty(le, s[..|s| - 1], x); }
  }

  lemma {:induction false} NoTiesClass<T(!new)>(le: (T, T) -> bool, s: seq<T>, i: nat)
    requires TotalPreorder(le) && NoTies(le, s) && i < |s|
    ensures Class(le, s, s[i]) == [s[i]]
  {
    if i == |s| - 1 {
      ClassEmpty(le, s[..|s| - 1], s[i]);
    } else {
      assert !Same(le, s[i], s[|s| - 1]);
      NoTiesClass(le, s[..|s| - 1], i);
    }
  }

  /** Without ties, only the elements matter, not their order. */
  lemma SortIgnoresOrder<T(!new)>(le: (T, T) -> bool, a: seq<T>, b: seq<T>)
    requires TotalPreorder(le) && NoTies(le, a) && NoTies(le, b) && multiset(a) == multiset(b)
    ensures StableSort(le, a) == StableSort(le, b)
  {
    forall z ensures Class(le, a, z) == Class(le, b, z) {
      if i :| 0 <= i < |a| && Same(le, a[i], z) {
        assert a[i] in multiset(b);
        var j :| 0 <= j < |b| && b[j] == a[i];
        NoTiesClass(le, a, i);
        NoTiesClass(le, b, j);
        ClassOfEqual(le, a, a[i], z);
        ClassOfEqual(le, b, a[i], z);
      } else {
        ClassEmpty(le, a, z);
        forall j | 0 <= j < |b| ensures !Same(le, b[j], z) {
          assert b[j] in multiset(a);
        }
        ClassEmpty(le, b, z);
      }
    }
    SortCanonical(le, a, b);
  }

  lemma {:induction false} ClassOfEqual<T(!new)>(le: (T, T) -> bool, s: seq<T>, x: T, z: T)
    requires TotalPreorder(le) && Same(le, x, z)
    ensures Class(le, s, x) == Class(le, s, z)
  {
    if s != [] { ClassOfEqual(le, s[..|s| - 1], x, z); }
  }
}
