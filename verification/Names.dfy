/** Lexicographic order on names, and the sorted form of a set of names. */
module Names {
  import opened Sorting

  predicate LexLe(a: string, b: string) {
    a == [] || (b != [] && (a[0] < b[0] || (a[0] == b[0] && LexLe(a[1..], b[1..]))))
  }

  lemma {:induction false} LexTotal(a: string, b: string)
    ensures LexLe(a, b) || LexLe(b, a)
    ensures LexLe(a, b) && LexLe(b, a) ==> a == b
  {
    if a != [] && b != [] {
      LexTotal(a[1..], b[1..]);
      assert a == [a[0]] + a[1..] && b == [b[0]] + b[1..];
    }
  }

  lemma {:induction false} LexTransitive(a: string, b: string, c: string)
    requires LexLe(a, b) && LexLe(b, c)
    ensures LexLe(a, c)
  {
    if a != [] && a[0] == b[0] == c[0] { LexTransitive(a[1..], b[1..], c[1..]); }
  }

  lemma LexOrder()
    ensures TotalPreorder(LexLe)
    ensures forall a: string, b: string :: Same(LexLe, a, b) ==> a == b
  {
    forall a: string, b: string
      ensures LexLe(a, b) || LexLe(b, a)
      ensures Same(LexLe, a, b) ==> a == b
    {
      LexTotal(a, b);
    }
    forall a: string, b: string, c: string | LexLe(a, b) && LexLe(b, c) ensures LexLe(a, c) {
      LexTransitive(a, b, c);
    }
  }

  ghost predicate NoRepeats<T>(s: seq<T>) { forall i, j :: 0 <= i < j < |s| ==> s[i] != s[j] }

  /** The elements of s, each once, in order of first occurrence. */
  function Dedup<T(==, !new)>(s: seq<T>): (r: seq<T>)
    ensures NoRepeats(r)
    ensures forall x :: x in r <==> x in s
  {
    if s == [] then []
    else
      var r, x := Dedup(s[..|s| - 1]), s[|s| - 1];
      if x in r then r else r + [x]
  }

  lemma {:induction false} NoRepeatsCount<T>(s: seq<T>, x: T)
    requires NoRepeats(s)
    ensures multiset(s)[x] == if x in s then 1 else 0
  {
    if s != [] {
      NoRepeatsCount(s[..|s| - 1], x);
      assert s == s[..|s| - 1] + [s[|s| - 1]];
    }
  }

  lemma SameElements<T>(a: seq<T>, b: seq<T>)
    requires NoRepeats(a) && NoRepeats(b) && forall x :: x in a <==> x in b
    ensures multiset(a) == multiset(b)
  {
    forall x ensures multiset(a)[x] == multiset(b)[x] {
      NoRepeatsCount(a, x);
      NoRepeatsCount(b, x);
    }
  }

  /** `sorted(set(names))`. */
  function SortedNames(names: seq<string>): (r: seq<string>)
    ensures forall x :: x in r <==> x in names
  {
    var r := StableSort(LexLe, Dedup(names));
    assert forall x :: x in r <==> x in multiset(r);
    assert forall x :: x in Dedup(names) <==> x in multiset(Dedup(names));
    r
  }

  lemma NamesNeverTie(s: seq<string>)
    requires NoRepeats(s)
    ensures NoTies(LexLe, s)
  {
    forall i, j | 0 <= i < j < |s| ensures !Same(LexLe, s[i], s[j]) {
      LexTotal(s[i], s[j]);
    }
  }

  /** The sorted form depends only on which names occur. */
  lemma SortedNamesCanonical(a: seq<string>, b: seq<string>)
    requires forall x :: x in a <==> x in b
    ensures SortedNames(a) == SortedNames(b)
  {
    LexOrder();
    SameElements(Dedup(a), Dedup(b));
    NamesNeverTie(Dedup(a));
    NamesNeverTie(Dedup(b));
    SortIgnoresOrder(LexLe, Dedup(a), Dedup(b));
  }

  lemma PermutationNoRepeats<T>(a: seq<T>, b: seq<T>)
    requires NoRepeats(a) && multiset(a) == multiset(b)
    ensures NoRepeats(b)
  {
    forall i, j | 0 <= i < j < |b| ensures b[i] != b[j] {
      NoRepeatsCount(a, b[i]);
      assert b == b[..j] + [b[j]] + b[j + 1..];
      assert b[i] in b[..j];
      assert multiset(b[..j])[b[i]] >= 1;
    }
  }

  lemma SortedNamesDistinct(names: seq<string>)
    ensures NoRepeats(SortedNames(names))
  {
    PermutationNoRepeats(Dedup(names), SortedNames(names));
  }
}
