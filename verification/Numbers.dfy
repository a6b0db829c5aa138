/** Numbers as they are read from text: a real, an infinity, or NaN. Rounding and overflow are not modelled. */
module Numbers {
  import opened Common

  datatype Num = NaN | Inf(positive: bool) | Fin(value: real)

  function Add(x: Num, y: Num): Num {
    if x.NaN? || y.NaN? then NaN
    else if x.Inf? && y.Inf? then (if x == y then x else NaN)
    else if x.Inf? then x
    else if y.Inf? then y
    else Fin(x.value + y.value)
  }

  /** Every comparison with NaN is false. */
  predicate Less(x: Num, y: Num) {
    if x.NaN? || y.NaN? then false
    else if x.Fin? && y.Fin? then x.value < y.value
    else if x.Fin? then y.positive
    else !x.positive && (y.Fin? || y.positive)
  }

  predicate AtMost(x: Num, y: Num) { Less(x, y) || (x == y && !x.NaN?) }

  function Magnitude(x: Num): Num { match x case NaN => NaN case Inf(_) => Inf(true) case Fin(v) => Fin(Abs(v)) }

  function Quotient(x: Num, y: Num): Num
    requires y != Fin(0.0)
  {
    if x.NaN? || y.NaN? || (x.Inf? && y.Inf?) then NaN
    else if y.Inf? then Fin(0.0)
    else if x.Inf? then Inf(x.positive == (y.value > 0.0))
    else Fin(x.value / y.value)
  }

  function Total(s: seq<Num>): Num {
    if s == [] then Fin(0.0) else Add(Total(s[..|s| - 1]), s[|s| - 1])
  }

  /** The numbers above zero, and below it, in order. */
  function Positive(s: seq<Num>): seq<Num> {
    if s == [] then []
    else Positive(s[..|s| - 1]) + if Less(Fin(0.0), s[|s| - 1]) then [s[|s| - 1]] else []
  }

  function Negative(s: seq<Num>): seq<Num> {
    if s == [] then []
    else Negative(s[..|s| - 1]) + if Less(s[|s| - 1], Fin(0.0)) then [s[|s| - 1]] else []
  }

  /** The finite numbers of s. */
  function Reals(s: seq<Num>): seq<real> {
    if s == [] then [] else Reals(s[..|s| - 1]) + if s[|s| - 1].Fin? then [s[|s| - 1].value] else []
  }

  /** A total in closed form: which special values occur decides, and otherwise the finite numbers add up. */
  function TotalOf(s: seq<Num>): Num {
    if NaN in s || (Inf(true) in s && Inf(false) in s) then NaN
    else if Inf(true) in s then Inf(true)
    else if Inf(false) in s then Inf(false)
    else Fin(Sum(Reals(s)))
  }

  lemma {:induction false} TotalClosed(s: seq<Num>)
    ensures Total(s) == TotalOf(s)
  {
    if s != [] {
      var init, x := s[..|s| - 1], s[|s| - 1];
      TotalClosed(init);
      assert forall y :: y in s <==> y in init || y == x;
      assert x.Fin? ==> Reals(s) == Reals(init) + [x.value] && Reals(s)[..|Reals(init)|] == Reals(init);
    }
  }

  lemma {:induction false} SpecialsBySign(s: seq<Num>)
    ensures NaN !in Positive(s) && Inf(false) !in Positive(s) && (Inf(true) in Positive(s) <==> Inf(true) in s)
    ensures NaN !in Negative(s) && Inf(true) !in Negative(s) && (Inf(false) in Negative(s) <==> Inf(false) in s)
  {
    if s != [] {
      var init, x := s[..|s| - 1], s[|s| - 1];
      SpecialsBySign(init);
      SignsAppend(init, x);
      assert s == init + [x];
    }
  }

  /** Infinities of one sign swallow the finite numbers of that sign. */
  lemma SignedTotals(s: seq<Num>)
    ensures Total(Positive(s)) == if Inf(true) in s then Inf(true) else Fin(Sum(Reals(Positive(s))))
    ensures Total(Negative(s)) == if Inf(false) in s then Inf(false) else Fin(Sum(Reals(Negative(s))))
  {
    SpecialsBySign(s);
    TotalClosed(Positive(s));
    TotalClosed(Negative(s));
  }

  lemma RealsAppend(s: seq<Num>, x: Num)
    ensures Reals(s + [x]) == if x.Fin? then Reals(s) + [x.value] else Reals(s)
  {
    assert (s + [x])[..|s|] == s;
  }

  lemma SignsAppend(s: seq<Num>, x: Num)
    ensures Positive(s + [x]) == if Less(Fin(0.0), x) then Positive(s) + [x] else Positive(s)
    ensures Negative(s + [x]) == if Less(x, Fin(0.0)) then Negative(s) + [x] else Negative(s)
  {
    assert (s + [x])[..|s|] == s;
  }

  lemma {:induction false} RealsConcat(a: seq<Num>, b: seq<Num>)
    ensures Reals(a + b) == Reals(a) + Reals(b)
  {
    if b == [] {
      assert a + b == a;
    } else {
      RealsConcat(a, b[..|b| - 1]);
      assert (a + b)[..|a + b| - 1] == a + b[..|b| - 1];
    }
  }

  /** Closed forms depend only on which numbers occur and how often. */
  lemma {:induction false} RealsPermutation(a: seq<Num>, b: seq<Num>)
    requires multiset(a) == multiset(b)
    ensures multiset(Reals(a)) == multiset(Reals(b))
    decreases |a|
  {
    if a == [] {
      assert |multiset(b)| == 0;
    } else {
      var x, a' := a[|a| - 1], a[..|a| - 1];
      assert a == a' + [x];
      assert x in multiset(b);
      var i :| 0 <= i < |b| && b[i] == x;
      assert b == b[..i] + [x] + b[i + 1..];
      DropOccurrence(a', x, b[..i], b[i + 1..]);
      RealsPermutation(a', b[..i] + b[i + 1..]);
      RealsMiddle(b[..i], x, b[i + 1..]);
      RealsMiddle(a', x, []);
      assert a' + [x] + [] == a && a' + [] == a';
    }
  }

  lemma RealsMiddle(u: seq<Num>, x: Num, v: seq<Num>)
    ensures multiset(Reals(u + [x] + v)) == multiset(Reals(u + v)) + if x.Fin? then multiset{x.value} else multiset{}
  {
    RealsConcat(u + [x], v);
    RealsConcat(u, [x]);
    RealsConcat(u, v);
    assert [x][..0] == [];
    assert Reals([x]) == if x.Fin? then [x.value] else [];
  }

  lemma SameSpecials(a: seq<Num>, b: seq<Num>)
    requires multiset(a) == multiset(b)
    ensures NaN in a <==> NaN in b
    ensures Inf(true) in a <==> Inf(true) in b
    ensures Inf(false) in a <==> Inf(false) in b
  {
    assert NaN in multiset(a) <==> NaN in multiset(b);
    assert Inf(true) in multiset(a) <==> Inf(true) in multiset(b);
    assert Inf(false) in multiset(a) <==> Inf(false) in multiset(b);
  }

  lemma TotalIgnoresOrder(a: seq<Num>, b: seq<Num>)
    requires multiset(a) == multiset(b)
    ensures Total(a) == Total(b)
  {
    SameSpecials(a, b);
    RealsPermutation(a, b);
    SumPermutation(Reals(a), Reals(b));
    TotalClosed(a);
    TotalClosed(b);
  }
}
