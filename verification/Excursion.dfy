/** Price windows after an entry, and the swing pivots found in them. */
module Excursion {
  import opened Common
  import opened Prices

  /** A candle together with its best and worst distance from the entry, in units of risk. */
  datatype Bar = Bar(hi: real, lo: real, cl: real, atr: real, fav: real, adv: real)

  // ---------- Direction-relative prices ----------

  /** How far `price` lies from the entry in the direction of the trade. */
  function Gain(dir: Direction, price: real, entry: real): real {
    if dir.LONG? then price - entry else entry - price
  }

  /** x is strictly better for the trade than y. */
  predicate Ahead(dir: Direction, x: real, y: real) {
    if dir.LONG? then x > y else x < y
  }

  /** The side of the bar on which a stop of this direction would be hit. */
  function Far(dir: Direction, b: Bar): real { if dir.LONG? then b.lo else b.hi }

  function MakeBar(c: Candle, dir: Direction, entry: real, risk: real): Bar
    requires risk != 0.0
  {
    if dir.LONG? then
      Bar(c.hi, c.lo, c.cl, c.atr, (c.hi - entry) / risk, (entry - c.lo) / risk)
    else
      Bar(c.hi, c.lo, c.cl, c.atr, (entry - c.lo) / risk, (c.hi - entry) / risk)
  }

  function RiskOf(c: Candle): real { if c.atr > 0.0 then c.atr else c.cl * 0.005 }

  /** Number of bars after index i that the window may still show. */
  function WindowLength(n: nat, i: nat, maxBars: int): nat {
    var stop := if i + maxBars < n then i + maxBars else n;
    if stop > i then stop - (i + 1) else 0
  }

  function Window(cache: seq<Candle>, i: nat, dir: Direction, maxBars: int): seq<Bar>
    requires i < |cache| && RiskOf(cache[i]) != 0.0
  {
    seq(WindowLength(|cache|, i, maxBars),
        k requires 0 <= k < WindowLength(|cache|, i, maxBars) =>
          MakeBar(cache[i + 1 + k], dir, cache[i].cl, RiskOf(cache[i])))
  }

  method RawExcursion(cache: seq<Candle>, i: nat, dir: Direction, maxBars: int := 200)
    returns (bars: seq<Bar>, entry: real, risk: real, atrEntry: real)
    requires i < |cache| && RiskOf(cache[i]) != 0.0
    ensures bars == Window(cache, i, dir, maxBars)
    ensures entry == cache[i].cl && risk == RiskOf(cache[i]) && atrEntry == cache[i].atr
  {
    entry := cache[i].cl;
    atrEntry := cache[i].atr;
    risk := if atrEntry > 0.0 then atrEntry else entry * 0.005;
    bars := [];
    var stop := if i + maxBars < |cache| then i + maxBars else |cache|;
    var j := i + 1;
    while j < stop
      invariant |bars| == j - (i + 1)
      invariant i < stop ==> j <= stop
      invariant stop <= i ==> j == i + 1
      invariant forall k :: 0 <= k < |bars| ==> bars[k] == MakeBar(cache[i + 1 + k], dir, entry, risk)
    {
      var c := cache[j];
      if dir == LONG {
        bars := bars + [Bar(c.hi, c.lo, c.cl, c.atr, (c.hi - entry) / risk, (entry - c.lo) / risk)];
      } else {
        bars := bars + [Bar(c.hi, c.lo, c.cl, c.atr, (entry - c.lo) / risk, (c.hi - entry) / risk)];
      }
      j := j + 1;
    }
  }

  /** What a window of well-formed candles measured with a positive risk looks like. */
  ghost predicate Measured(bars: seq<Bar>, dir: Direction, entry: real, risk: real) {
    risk > 0.0 &&
    forall b :: b in bars ==>
      b.lo <= b.cl <= b.hi && b.atr >= 0.0 &&
      b == MakeBar(Candle(b.hi, b.lo, b.cl, b.atr), dir, entry, risk)
  }

  lemma WindowMeasured(cache: seq<Candle>, i: nat, dir: Direction, maxBars: int)
    requires i < |cache| && RiskOf(cache[i]) > 0.0
    requires forall c :: c in cache ==> c.lo <= c.cl <= c.hi && c.atr >= 0.0
    ensures Measured(Window(cache, i, dir, maxBars), dir, cache[i].cl, RiskOf(cache[i]))
  {
    var w := Window(cache, i, dir, maxBars);
    forall b | b in w
      ensures b.lo <= b.cl <= b.hi && b.atr >= 0.0
      ensures b == MakeBar(Candle(b.hi, b.lo, b.cl, b.atr), dir, cache[i].cl, RiskOf(cache[i]))
    {
      var k :| 0 <= k < |w| && w[k] == b;
      assert cache[i + 1 + k] in cache;
      assert b == MakeBar(cache[i + 1 + k], dir, cache[i].cl, RiskOf(cache[i]));
    }
  }

  /** Bar by bar: the window holds exactly the candles after the entry and before `maxBars`, with their prices, and
      both distances from the entry's close in units of its ATR, or of half a percent of the close without one. */
  lemma WindowBars(cache: seq<Candle>, i: nat, dir: Direction, maxBars: int, j: nat)
    requires i < j < |cache| && RiskOf(cache[i]) != 0.0
    ensures var w := Window(cache, i, dir, maxBars);
      && |w| <= |cache| - i - 1
      && (j < i + maxBars <==> j - i - 1 < |w|)
      && (j - i - 1 < |w| ==>
            var b, c, entry := w[j - i - 1], cache[j], cache[i].cl;
            var risk := if cache[i].atr > 0.0 then cache[i].atr else entry / 200.0;
            && Candle(b.hi, b.lo, b.cl, b.atr) == c
            && b.fav * risk == (if dir.LONG? then c.hi - entry else entry - c.lo)
            && b.adv * risk == (if dir.LONG? then entry - c.lo else c.hi - entry))
  {
    var w, c, entry, risk := Window(cache, i, dir, maxBars), cache[j], cache[i].cl, RiskOf(cache[i]);
    if j - i - 1 < |w| {
      assert w[j - i - 1] == MakeBar(c, dir, entry, risk);
      QuotientTimes(c.hi - entry, risk);
      QuotientTimes(entry - c.lo, risk);
    }
  }

  // ---------- Swing pivots ----------

  /** Bar s is strictly more extreme than the n bars on each side of it. */
  predicate IsPivot(bars: seq<Bar>, dir: Direction, n: nat, s: nat) {
    n <= s < |bars| - n &&
    forall i :: s - n <= i <= s + n && i != s ==> Ahead(dir, Far(dir, bars[i]), Far(dir, bars[s]))
  }

  /** The pivots with index below m, in order, with their prices. */
  function Pivots(bars: seq<Bar>, dir: Direction, n: nat, m: nat): seq<(nat, real)> {
    if m == 0 then []
    else
      Pivots(bars, dir, n, m - 1)
      + if IsPivot(bars, dir, n, m - 1) then [(m - 1, Far(dir, bars[m - 1]))] else []
  }

  /** The neighbour scan for one candidate bar. */
  method IsSwingLow(bars: seq<Bar>, n: nat, j: nat) returns (isSwing: bool)
    requires n <= j < |bars| - n
    ensures isSwing == IsPivot(bars, LONG, n, j)
  {
    isSwing := true;
    for k := 1 to n + 1
      invariant isSwing
      invariant forall i :: j - k < i < j + k && i != j ==> bars[j].lo < bars[i].lo
    {
      if bars[j].lo >= bars[j - k].lo || bars[j].lo >= bars[j + k].lo {
        isSwing := false;
        break;
      }
    }
  }

  method FindSwingLows(bars: seq<Bar>, n: nat) returns (swings: seq<(nat, real)>)
    ensures swings == Pivots(bars, LONG, n, |bars|)
  {
    swings := [];
    NoEarlyPivots(bars, LONG, n, n);
    var j := n;
    while j < |bars| - n
      invariant n <= j && (j == n || j <= |bars| - n)
      invariant swings == Pivots(bars, LONG, n, j)
    {
      var isSwing := IsSwingLow(bars, n, j);
      assert Pivots(bars, LONG, n, j + 1)
          == Pivots(bars, LONG, n, j) + if isSwing then [(j, bars[j].lo)] else [];
      if isSwing {
        swings := swings + [(j, bars[j].lo)];
      }
      j := j + 1;
    }
    NoLatePivots(bars, LONG, n, j);
  }

  /** The neighbour scan for one candidate bar. */
  method IsSwingHigh(bars: seq<Bar>, n: nat, j: nat) returns (isSwing: bool)
    requires n <= j < |bars| - n
    ensures isSwing == IsPivot(bars, SHORT, n, j)
  {
    isSwing := true;
    for k := 1 to n + 1
      invariant isSwing
      invariant forall i :: j - k < i < j + k && i != j ==> bars[j].hi > bars[i].hi
    {
      if bars[j].hi <= bars[j - k].hi || bars[j].hi <= bars[j + k].hi {
        isSwing := false;
        break;
      }
    }
  }

  method FindSwingHighs(bars: seq<Bar>, n: nat) returns (swings: seq<(nat, real)>)
    ensures swings == Pivots(bars, SHORT, n, |bars|)
  {
    swings := [];
    NoEarlyPivots(bars, SHORT, n, n);
    var j := n;
    while j < |bars| - n
      invariant n <= j && (j == n || j <= |bars| - n)
      invariant swings == Pivots(bars, SHORT, n, j)
    {
      var isSwing := IsSwingHigh(bars, n, j);
      assert Pivots(bars, SHORT, n, j + 1)
          == Pivots(bars, SHORT, n, j) + if isSwing then [(j, bars[j].hi)] else [];
      if isSwing {
        swings := swings + [(j, bars[j].hi)];
      }
      j := j + 1;
    }
    NoLatePivots(bars, SHORT, n, j);
  }

  lemma {:induction false} NoEarlyPivots(bars: seq<Bar>, dir: Direction, n: nat, m: nat)
    requires m <= n
    ensures Pivots(bars, dir, n, m) == []
  {
    if m > 0 { NoEarlyPivots(bars, dir, n, m - 1); }
  }

  /** No pivot is reported in the last n bars, so stopping the scan early loses none. */
  lemma {:induction false} NoLatePivots(bars: seq<Bar>, dir: Direction, n: nat, m: nat)
    requires |bars| - n <= m
    ensures Pivots(bars, dir, n, m) == Pivots(bars, dir, n, |bars|)
    decreases if m <= |bars| then |bars| - m else m - |bars|
  {
    if m < |bars| {
      NoLatePivots(bars, dir, n, m + 1);
    } else if m > |bars| {
      NoLatePivots(bars, dir, n, m - 1);
    }
  }

  /** Every reported swing is a pivot below m with its own price, and in increasing order of index. */
  lemma {:induction false} SwingsSound(bars: seq<Bar>, dir: Direction, n: nat, m: nat, i: nat)
    requires i < |Pivots(bars, dir, n, m)|
    ensures var (s, price) := Pivots(bars, dir, n, m)[i];
      s < m && IsPivot(bars, dir, n, s) && price == Far(dir, bars[s]) && |Pivots(bars, dir, n, s)| == i
  {
    if i < |Pivots(bars, dir, n, m - 1)| {
      SwingsSound(bars, dir, n, m - 1, i);
    }
  }

  /** Every pivot below m is reported, at the position given by the number of pivots before it. */
  lemma {:induction false} SwingsComplete(bars: seq<Bar>, dir: Direction, n: nat, m: nat, s: nat)
    requires s < m && IsPivot(bars, dir, n, s)
    ensures var i := |Pivots(bars, dir, n, s)|;
      i < |Pivots(bars, dir, n, m)| && Pivots(bars, dir, n, m)[i] == (s, Far(dir, bars[s]))
  {
    if s < m - 1 {
      SwingsComplete(bars, dir, n, m - 1, s);
    }
  }

  /** Two pivots are always more than n bars apart, or each would be more extreme than the other. */
  lemma SwingsSpaced(bars: seq<Bar>, dir: Direction, n: nat, s: nat, t: nat)
    requires IsPivot(bars, dir, n, s) && IsPivot(bars, dir, n, t) && s < t
    ensures t - s > n
  {
    var x, y := Far(dir, bars[s]), Far(dir, bars[t]);
    assert t - s <= n ==> Ahead(dir, x, y) && Ahead(dir, y, x);
  }

  /** Pivots need n bars on each side: those of a prefix are the full window's, up to n bars before its end. */
  lemma PivotNeedsOnlyNeighbours(a: seq<Bar>, b: seq<Bar>, dir: Direction, n: nat, s: nat)
    requires s + n < |a| && s + n < |b| && a[..s + n + 1] == b[..s + n + 1]
    ensures IsPivot(a, dir, n, s) == IsPivot(b, dir, n, s)
  {
    forall i | 0 <= i <= s + n ensures a[i] == b[i] {
      assert a[..s + n + 1][i] == b[..s + n + 1][i];
    }
  }

  lemma {:induction false} PivotsOfPrefix(a: seq<Bar>, b: seq<Bar>, dir: Direction, n: nat, m: nat)
    requires m == 0 || (m + n <= |a| && m + n <= |b| && a[..m + n] == b[..m + n])
    ensures Pivots(a, dir, n, m) == Pivots(b, dir, n, m)
  {
    if m > 0 {
      assert a[..m - 1 + n] == a[..m + n][..m - 1 + n] == b[..m - 1 + n];
      PivotsOfPrefix(a, b, dir, n, m - 1);
      assert a[m - 1] == a[..m + n][m - 1] == b[m - 1];
      PivotNeedsOnlyNeighbours(a, b, dir, n, m - 1);
    }
  }

  /** Number of leading bars whose pivots are confirmed once bar j has closed. */
  function Confirmed(n: nat, j: nat): nat { if j >= n then j - n + 1 else 0 }

  /** The swings of the window cut after bar j are exactly the full window's swings of index at most j - n. */
  lemma ConfirmedSwings(bars: seq<Bar>, dir: Direction, n: nat, j: nat)
    requires j < |bars|
    ensures Pivots(bars[..j + 1], dir, n, j + 1) == Pivots(bars, dir, n, Confirmed(n, j))
  {
    var cut := bars[..j + 1];
    var m := Confirmed(n, j);
    NoLatePivots(cut, dir, n, m);
    if m > 0 {
      assert cut[..m + n] == bars[..m + n];
    }
    PivotsOfPrefix(cut, bars, dir, n, m);
  }

}
