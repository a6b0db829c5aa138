/** The sweep outcome simulator: first touch of stop or target over a clipped forward window. */
module Sweep {
  import opened Common
  import opened Prices

  /** The event fields the simulator reads; None stands for a missing or non-finite value,
      and `side` is the sweep direction in lower case. */
  datatype Payload = Payload(dispI: Option<int>, sweepI: Option<int>, atr: Option<real>, side: string,
                             sweepLow: Option<real>, sweepHigh: Option<real>)

  datatype Result = SlHit | TpHit | Timeout

  datatype Setup = Setup(dir: Direction, dispI: nat, entry: real, sl: real, dist: real, tp: real)

  datatype Sim = Sim(setup: Setup, outcome: Result, pnlR: real, barsHeld: int, exitPrice: real, exitI: nat,
                     clipped: bool)

  // ---------- Stop placement ----------

  function LowestLow(df: seq<Candle>, a: nat, b: nat): real
    requires a <= b < |df|
  {
    if a == b then df[b].lo else Min(LowestLow(df, a, b - 1), df[b].lo)
  }

  function HighestHigh(df: seq<Candle>, a: nat, b: nat): real
    requires a <= b < |df|
  {
    if a == b then df[b].hi else Max(HighestHigh(df, a, b - 1), df[b].hi)
  }

  /** The two extremes are bounds of the range, and each is attained in it. */
  lemma {:induction false} ExtremesOfRange(df: seq<Candle>, a: nat, b: nat, i: nat)
    requires a <= i <= b < |df|
    ensures LowestLow(df, a, b) <= df[i].lo && df[i].hi <= HighestHigh(df, a, b)
    ensures exists k :: a <= k <= b && df[k].lo == LowestLow(df, a, b)
    ensures exists l :: a <= l <= b && df[l].hi == HighestHigh(df, a, b)
  {
    if a < b { ExtremesOfRange(df, a, b - 1, if i < b then i else a); }
  }

  /** The swept extreme the stop goes behind: the payload's, else that of the bars from sweep to displacement. */
  function SweepExtreme(df: seq<Candle>, sweepI: nat, dispI: nat, dir: Direction, p: Payload): real
    requires sweepI < |df| && dispI < |df|
  {
    var b := if dispI < sweepI then sweepI else dispI;
    if dir.LONG? then
      if p.sweepLow.Some? then p.sweepLow.value else LowestLow(df, sweepI, b)
    else
      if p.sweepHigh.Some? then p.sweepHigh.value else HighestHigh(df, sweepI, b)
  }

  function DirectionOf(side: string): Option<Direction> {
    if side == "bearish" then Some(LONG) else if side == "bullish" then Some(SHORT) else None
  }

  /** A usable event: direction, displacement bar, entry price, swept extreme and volatility. */
  datatype Event = Event(dir: Direction, dispI: nat, entry: real, extreme: real, atr: real)

  /** Both indices lie in the series, a bar follows the displacement, and side and volatility are usable. */
  predicate Usable(n: nat, p: Payload) {
    p.dispI.Some? && p.sweepI.Some? && p.atr.Some? && p.atr.value > 0.0 &&
    0 <= p.dispI.value < n && 0 <= p.sweepI.value < n && p.dispI.value + 1 < n && DirectionOf(p.side).Some?
  }

  function Locate(df: seq<Candle>, p: Payload): Event
    requires Usable(|df|, p)
  {
    var dir, d := DirectionOf(p.side).value, p.dispI.value;
    Event(dir, d, df[d].cl, SweepExtreme(df, p.sweepI.value, d, dir, p), p.atr.value)
  }

  /** Stop a buffer beyond the extreme, target tpR stop distances on the other side of the entry. */
  function Place(e: Event, buf: real, tpR: real): (s: Option<Setup>)
    ensures s.Some? ==> s.value.dist > 0.0 && s.value.dispI == e.dispI && s.value.entry == e.entry
  {
    if e.dir.LONG? then
      var dist := e.entry - (e.extreme - buf);
      if dist <= 0.0 then None
      else Some(Setup(e.dir, e.dispI, e.entry, e.extreme - buf, dist, e.entry + Times(tpR, dist)))
    else
      var dist := e.extreme + buf - e.entry;
      if dist <= 0.0 then None
      else Some(Setup(e.dir, e.dispI, e.entry, e.extreme + buf, dist, e.entry - Times(tpR, dist)))
  }

  /** Entry, stop and target of an event, or None when the simulator skips it. */
  function Prepare(df: seq<Candle>, p: Payload, tpR: real, slBufferAtr: real): (s: Option<Setup>)
    ensures s.Some? ==>
      s.value.dispI + 1 < |df| && s.value.dist > 0.0 && s.value.entry == df[s.value.dispI].cl
  {
    if !Usable(|df|, p) then None else Place(Locate(df, p), Times(slBufferAtr, p.atr.value), tpR)
  }

  // ---------- First touch ----------

  predicate StopHit(c: Candle, s: Setup) { if s.dir.LONG? then c.lo <= s.sl else c.hi >= s.sl }

  predicate TargetHit(c: Candle, s: Setup) { if s.dir.LONG? then c.hi >= s.tp else c.lo <= s.tp }

  predicate Touched(c: Candle, s: Setup) { StopHit(c, s) || TargetHit(c, s) }

  /** First bar in [i, last] that touches stop or target, or last + 1. */
  function TouchFrom(df: seq<Candle>, s: Setup, last: nat, i: nat): (x: nat)
    requires i <= last + 1 <= |df|
    ensures i <= x <= last + 1
    ensures x <= last ==> Touched(df[x], s)
    ensures forall k :: i <= k < x ==> !Touched(df[k], s)
    decreases last + 1 - i
  {
    if i == last + 1 || Touched(df[i], s) then i else TouchFrom(df, s, last, i + 1)
  }

  /** Move from entry to `price` in the direction of the trade. */
  function Move(s: Setup, price: real): real { if s.dir.LONG? then price - s.entry else s.entry - price }

  function LastForward(n: nat, dispI: nat, maxBars: nat): nat
    requires n > 0
  {
    if dispI + maxBars >= n then n - 1 else dispI + maxBars
  }

  /** The result when x is the first touch in the window that ends at `last`, or last + 1. */
  function Finish(df: seq<Candle>, s: Setup, tpR: real, last: nat, x: nat, clipped: bool): Sim
    requires s.dispI <= last < |df| && s.dispI < x <= last + 1 && s.dist > 0.0
  {
    if x > last then
      Sim(s, Timeout, Over(Move(s, df[last].cl), s.dist), last - s.dispI, df[last].cl, last, clipped)
    else if StopHit(df[x], s) then
      Sim(s, SlHit, -1.0, x - s.dispI, s.sl, x, clipped)
    else
      Sim(s, TpHit, tpR, x - s.dispI, s.tp, x, clipped)
  }

  function Settle(df: seq<Candle>, s: Setup, tpR: real, maxBars: nat): Sim
    requires s.dispI + 1 < |df| && s.dist > 0.0
  {
    var last := LastForward(|df|, s.dispI, maxBars);
    Finish(df, s, tpR, last, TouchFrom(df, s, last, s.dispI + 1), s.dispI + maxBars >= |df|)
  }

  function Simulate(df: seq<Candle>, p: Payload, tpR: real, slBufferAtr: real, maxBars: nat): Option<Sim> {
    var s := Prepare(df, p, tpR, slBufferAtr);
    if s.None? then None else Some(Settle(df, s.value, tpR, maxBars))
  }

  method SimulateOne(df: seq<Candle>, p: Payload, tpR: real := 1.5, slBufferAtr: real := 0.1, maxBars: nat := 48)
    returns (sim: Option<Sim>)
    ensures sim == Simulate(df, p, tpR, slBufferAtr, maxBars)
  {
    var setup := Prepare(df, p, tpR, slBufferAtr);
    if setup.None? { return None; }
    var o := Replay(df, setup.value, tpR, maxBars);
    sim := Some(o);
  }

  method Replay(df: seq<Candle>, s: Setup, tpR: real, maxBars: nat) returns (sim: Sim)
    requires s.dispI + 1 < |df| && s.dist > 0.0
    ensures sim == Settle(df, s, tpR, maxBars)
  {
    var lastForward, clipped := s.dispI + maxBars, false;
    if lastForward >= |df| {
      lastForward, clipped := |df| - 1, true;
    }
    for i := s.dispI + 1 to lastForward + 1
      invariant TouchFrom(df, s, lastForward, s.dispI + 1) == TouchFrom(df, s, lastForward, i)
    {
      var lo, hi := df[i].lo, df[i].hi;
      if s.dir == LONG {
        if lo <= s.sl { return Sim(s, SlHit, -1.0, i - s.dispI, s.sl, i, clipped); }
        if hi >= s.tp { return Sim(s, TpHit, tpR, i - s.dispI, s.tp, i, clipped); }
      } else {
        if hi >= s.sl { return Sim(s, SlHit, -1.0, i - s.dispI, s.sl, i, clipped); }
        if lo <= s.tp { return Sim(s, TpHit, tpR, i - s.dispI, s.tp, i, clipped); }
      }
    }
    var c := df[lastForward].cl;
    var pnlR;
    if s.dir == LONG {
      pnlR := (c - s.entry) / s.dist;
    } else {
      pnlR := (s.entry - c) / s.dist;
    }
    sim := Sim(s, Timeout, pnlR, lastForward - s.dispI, c, lastForward, clipped);
  }

  // ---------- Exactness and bounds ----------

  ghost predicate WellFormed(df: seq<Candle>) { forall c :: c in df ==> c.lo <= c.cl <= c.hi }

  /** In all three outcomes the reported R multiple is exactly the signed move from entry to exit. */
  lemma PnlIsSignedMove(df: seq<Candle>, p: Payload, tpR: real, slBufferAtr: real, maxBars: nat, o: Sim)
    requires Simulate(df, p, tpR, slBufferAtr, maxBars) == Some(o)
    ensures Times(o.pnlR, o.setup.dist) == Move(o.setup, o.exitPrice)
  {
    LevelsAtDistance(df, p, tpR, slBufferAtr);
    SettleIsSignedMove(df, o.setup, tpR, maxBars);
  }

  lemma SettleIsSignedMove(df: seq<Candle>, s: Setup, tpR: real, maxBars: nat)
    requires s.dispI + 1 < |df| && s.dist > 0.0 && Move(s, s.sl) == -s.dist && Move(s, s.tp) == Times(tpR, s.dist)
    ensures var o := Settle(df, s, tpR, maxBars); Times(o.pnlR, s.dist) == Move(s, o.exitPrice)
  {
    var o := Settle(df, s, tpR, maxBars);
    DivTimes(Move(s, o.exitPrice), s.dist);
  }

  lemma DivTimes(x: real, d: real)
    requires d > 0.0
    ensures x / d * d == x
  {
  }

  lemma DivStrictlyBetween(x: real, d: real, hi: real)
    requires d > 0.0 && -d < x < Times(hi, d)
    ensures -1.0 < x / d < hi
  {
    DivTimes(x, d);
    var q := x / d;
    assert (q + 1.0) * d > 0.0 && (hi - q) * d > 0.0;
  }

  /** The stop sits one risk unit behind the entry and the target tpR units ahead of it. */
  lemma LevelsAtDistance(df: seq<Candle>, p: Payload, tpR: real, slBufferAtr: real)
    requires Prepare(df, p, tpR, slBufferAtr).Some?
    ensures var s := Prepare(df, p, tpR, slBufferAtr).value;
      Move(s, s.sl) == -s.dist && Move(s, s.tp) == Times(tpR, s.dist)
  {
  }

  lemma PnlBounds(df: seq<Candle>, p: Payload, tpR: real, slBufferAtr: real, maxBars: nat, o: Sim)
    requires WellFormed(df) && tpR > 0.0
    requires Simulate(df, p, tpR, slBufferAtr, maxBars) == Some(o)
    ensures -1.0 <= o.pnlR <= tpR && (o.outcome == Timeout ==> -1.0 < o.pnlR < tpR)
  {
    LevelsAtDistance(df, p, tpR, slBufferAtr);
    SettleBounds(df, o.setup, tpR, Times(tpR, o.setup.dist), maxBars);
  }

  lemma SettleBounds(df: seq<Candle>, s: Setup, tpR: real, reach: real, maxBars: nat)
    requires WellFormed(df) && s.dispI + 1 < |df| && s.entry == df[s.dispI].cl
    requires tpR > 0.0 && s.dist > 0.0 && reach == Times(tpR, s.dist)
    requires Move(s, s.sl) == -s.dist && Move(s, s.tp) == reach
    ensures var o := Settle(df, s, tpR, maxBars);
      -1.0 <= o.pnlR <= tpR && (o.outcome == Timeout ==> -1.0 < o.pnlR < tpR)
  {
    var last := LastForward(|df|, s.dispI, maxBars);
    var c := df[last];
    assert c in df;
    assert reach > 0.0;
    if TouchFrom(df, s, last, s.dispI + 1) > last {
      if last > s.dispI {
        assert !Touched(c, s);
      } else {
        assert Move(s, c.cl) == 0.0;
      }
      DivStrictlyBetween(Move(s, c.cl), s.dist, tpR);
    }
  }

  /** The exit is the first touch within the window, and a bar that touches both levels counts as a stop. */
  lemma ExitIsFirstTouch(df: seq<Candle>, p: Payload, tpR: real, slBufferAtr: real, maxBars: nat, o: Sim)
    requires Simulate(df, p, tpR, slBufferAtr, maxBars) == Some(o)
    ensures var s := o.setup;
      && s.dispI <= o.exitI < |df| && o.barsHeld == o.exitI - s.dispI <= maxBars
      && (forall i :: s.dispI < i < o.exitI ==> !Touched(df[i], s))
      && (o.outcome == SlHit <==> o.exitI > s.dispI && StopHit(df[o.exitI], s))
      && (o.outcome == TpHit <==> o.exitI > s.dispI && TargetHit(df[o.exitI], s) && !StopHit(df[o.exitI], s))
      && (o.outcome == Timeout ==> o.exitI == LastForward(|df|, s.dispI, maxBars))
  {
  }

  lemma SimulateIsSettle(df: seq<Candle>, p: Payload, tpR: real, slBufferAtr: real, maxBars: nat, o: Sim)
    requires Simulate(df, p, tpR, slBufferAtr, maxBars) == Some(o)
    ensures Prepare(df, p, tpR, slBufferAtr) == Some(o.setup) && o == Settle(df, o.setup, tpR, maxBars)
  {
  }

  // ---------- The trade of an event, written out ----------

  /** Both indices lie in the series, a bar follows the displacement, and the volatility is positive. */
  predicate InSeries(n: nat, p: Payload) {
    p.dispI.Some? && p.sweepI.Some? && 0 <= p.dispI.value && p.dispI.value + 1 < n && 0 <= p.sweepI.value < n &&
    p.atr.Some? && p.atr.value > 0.0
  }

  /** x is the payload's sweep low, or else the least low from sweep to displacement. */
  ghost predicate IsSweepLow(df: seq<Candle>, p: Payload, x: real)
    requires InSeries(|df|, p)
  {
    var d, w := p.dispI.value, p.sweepI.value;
    var last := if d < w then w else d;
    if p.sweepLow.Some? then x == p.sweepLow.value
    else (forall i :: w <= i <= last ==> x <= df[i].lo) && exists i :: w <= i <= last && x == df[i].lo
  }

  /** x is the payload's sweep high, or else the greatest high from sweep to displacement. */
  ghost predicate IsSweepHigh(df: seq<Candle>, p: Payload, x: real)
    requires InSeries(|df|, p)
  {
    var d, w := p.dispI.value, p.sweepI.value;
    var last := if d < w then w else d;
    if p.sweepHigh.Some? then x == p.sweepHigh.value
    else (forall i :: w <= i <= last ==> x >= df[i].hi) && exists i :: w <= i <= last && x == df[i].hi
  }

  lemma SweepExtremeIs(df: seq<Candle>, p: Payload)
    requires InSeries(|df|, p)
    ensures IsSweepLow(df, p, SweepExtreme(df, p.sweepI.value, p.dispI.value, LONG, p))
    ensures IsSweepHigh(df, p, SweepExtreme(df, p.sweepI.value, p.dispI.value, SHORT, p))
  {
    var d, w := p.dispI.value, p.sweepI.value;
    var last := if d < w then w else d;
    forall i | w <= i <= last ensures LowestLow(df, w, last) <= df[i].lo && df[i].hi <= HighestHigh(df, w, last) {
      ExtremesOfRange(df, w, last, i);
    }
    ExtremesOfRange(df, w, last, w);
  }

  /** A side other than these two, an index outside the series or no volatility: the event is skipped. */
  lemma UnusableIsSkipped(df: seq<Candle>, p: Payload, tpR: real, slBufferAtr: real, maxBars: nat)
    requires !InSeries(|df|, p) || (p.side != "bearish" && p.side != "bullish")
    ensures Simulate(df, p, tpR, slBufferAtr, maxBars) == None
  {
  }

  /** A bearish sweep is bought at the displacement close, with the stop a buffer of ATRs below the swept low and the
      target tpR stop distances above; it is skipped exactly when that stop is not below the entry. */
  lemma BearishIsBought(df: seq<Candle>, p: Payload, tpR: real, slBufferAtr: real, maxBars: nat, low: real)
    requires InSeries(|df|, p) && p.side == "bearish" && IsSweepLow(df, p, low)
    ensures var entry, sl := df[p.dispI.value].cl, low - slBufferAtr * p.atr.value;
      var o := Simulate(df, p, tpR, slBufferAtr, maxBars);
      && (o.Some? <==> sl < entry)
      && (o.Some? ==>
            o.value.setup == Setup(LONG, p.dispI.value, entry, sl, entry - sl, entry + tpR * (entry - sl)))
  {
    SweepExtremeIs(df, p);
    var entry, extreme := df[p.dispI.value].cl, SweepExtreme(df, p.sweepI.value, p.dispI.value, LONG, p);
    assert extreme == low;
    var buf := slBufferAtr * p.atr.value;
    assert entry - (low - buf) == entry - low + buf;
  }

  /** A bullish sweep is sold, with the stop a buffer of ATRs above the swept high. */
  lemma BullishIsSold(df: seq<Candle>, p: Payload, tpR: real, slBufferAtr: real, maxBars: nat, high: real)
    requires InSeries(|df|, p) && p.side == "bullish" && IsSweepHigh(df, p, high)
    ensures var entry, sl := df[p.dispI.value].cl, high + slBufferAtr * p.atr.value;
      var o := Simulate(df, p, tpR, slBufferAtr, maxBars);
      && (o.Some? <==> sl > entry)
      && (o.Some? ==>
            o.value.setup == Setup(SHORT, p.dispI.value, entry, sl, sl - entry, entry - tpR * (sl - entry)))
  {
    SweepExtremeIs(df, p);
    var entry, extreme := df[p.dispI.value].cl, SweepExtreme(df, p.sweepI.value, p.dispI.value, SHORT, p);
    assert extreme == high;
    var buf := slBufferAtr * p.atr.value;
  }

  /** The bar trades at the stop, or at the target, of the trade. */
  predicate AtStop(c: Candle, s: Setup) { if s.dir == LONG then c.lo <= s.sl else s.sl <= c.hi }

  predicate AtTarget(c: Candle, s: Setup) { if s.dir == LONG then s.tp <= c.hi else c.lo <= s.tp }

  /** The trade runs to the first bar after the displacement at its stop or target, at most maxBars on and within the
      series; the stop comes first and costs one, the target pays tpR, and running out pays the close. */
  lemma SimulateExactly(df: seq<Candle>, p: Payload, tpR: real, slBufferAtr: real, maxBars: nat, o: Sim)
    requires Simulate(df, p, tpR, slBufferAtr, maxBars) == Some(o)
    ensures var s, d := o.setup, o.setup.dispI;
      var last := if d + maxBars < |df| then d + maxBars else |df| - 1;
      && d <= o.exitI <= last && o.barsHeld == o.exitI - d
      && (forall i :: d < i < o.exitI ==> !AtStop(df[i], s) && !AtTarget(df[i], s))
      && (o.clipped <==> d + maxBars >= |df|)
      && match o.outcome
         case SlHit => d < o.exitI && AtStop(df[o.exitI], s) && o.pnlR == -1.0 && o.exitPrice == s.sl
         case TpHit =>
           d < o.exitI && AtTarget(df[o.exitI], s) && !AtStop(df[o.exitI], s) && o.pnlR == tpR && o.exitPrice == s.tp
         case Timeout =>
           o.exitI == last && o.exitPrice == df[last].cl &&
           (d < last ==> !AtStop(df[last], s) && !AtTarget(df[last], s)) &&
           o.pnlR == (if s.dir == LONG then df[last].cl - s.entry else s.entry - df[last].cl) / s.dist
  {
    SimulateIsSettle(df, p, tpR, slBufferAtr, maxBars, o);
  }

  // ---------- Slice and shift ----------

  function Shift(p: Payload, off: nat): Payload {
    p.(dispI := if p.dispI.Some? then Some(p.dispI.value + off) else None,
       sweepI := if p.sweepI.Some? then Some(p.sweepI.value + off) else None)
  }

  lemma {:induction false} ExtremesShift(df: seq<Candle>, slice: seq<Candle>, off: nat, a: nat, b: nat)
    requires off + |slice| <= |df| && slice == df[off..off + |slice|] && a <= b < |slice|
    ensures LowestLow(slice, a, b) == LowestLow(df, a + off, b + off)
    ensures HighestHigh(slice, a, b) == HighestHigh(df, a + off, b + off)
  {
    if a < b { ExtremesShift(df, slice, off, a, b - 1); }
  }

  lemma PrepareShift(df: seq<Candle>, slice: seq<Candle>, off: nat, p: Payload, tpR: real, slBufferAtr: real)
    requires off + |slice| <= |df| && slice == df[off..off + |slice|]
    requires Prepare(slice, p, tpR, slBufferAtr).Some?
    ensures var s := Prepare(slice, p, tpR, slBufferAtr).value;
      Prepare(df, Shift(p, off), tpR, slBufferAtr) == Some(s.(dispI := s.dispI + off))
  {
    ExtremeShift(df, slice, off, p);
    var e := Locate(slice, p);
    assert Usable(|df|, Shift(p, off)) && Locate(df, Shift(p, off)) == e.(dispI := e.dispI + off);
    PlaceShift(e, off, Times(slBufferAtr, p.atr.value), tpR);
  }

  lemma ExtremeShift(df: seq<Candle>, slice: seq<Candle>, off: nat, p: Payload)
    requires off + |slice| <= |df| && slice == df[off..off + |slice|] && Usable(|slice|, p)
    ensures var d, w, dir := p.dispI.value, p.sweepI.value, DirectionOf(p.side).value;
      df[d + off] == slice[d] &&
      SweepExtreme(df, w + off, d + off, dir, Shift(p, off)) == SweepExtreme(slice, w, d, dir, p)
  {
    var d, w := p.dispI.value, p.sweepI.value;
    ExtremesShift(df, slice, off, w, if d < w then w else d);
  }

  lemma PlaceShift(e: Event, off: nat, buf: real, tpR: real)
    ensures var s := Place(e, buf, tpR);
      Place(e.(dispI := e.dispI + off), buf, tpR)
      == if s.None? then None else Some(s.value.(dispI := e.dispI + off))
  {
  }

  /** The same trade at indices shifted by off; only the clipping flag may differ. */
  function Shifted(o: Sim, off: nat, clipped: bool): Sim {
    Sim(o.setup.(dispI := o.setup.dispI + off), o.outcome, o.pnlR, o.barsHeld, o.exitPrice, o.exitI + off, clipped)
  }

  /** The run and the one on the longer series are both skipped, or the same trade at shifted indices. */
  predicate SameTrade(o: Option<Sim>, full: Option<Sim>, off: nat) {
    if o.None? || full.None? then o.None? && full.None?
    else full.value == Shifted(o.value, off, full.value.clipped)
  }

  /** Both indices lie among the first n bars, and a bar follows the displacement there. */
  predicate Fits(n: nat, p: Payload) {
    p.dispI.Some? && p.sweepI.Some? && 0 <= p.dispI.value && p.dispI.value + 1 < n && 0 <= p.sweepI.value < n
  }

  /** The window reaches bar `end` or beyond, and no bar before it touches stop or target. */
  ghost predicate CutShort(df: seq<Candle>, end: nat, s: Setup, maxBars: nat)
    requires end <= |df|
  {
    s.dispI + maxBars >= end && forall i :: s.dispI < i < end ==> !Touched(df[i], s)
  }

  lemma FinishShift(df: seq<Candle>, slice: seq<Candle>, off: nat, s: Setup, tpR: real, last: nat, last': nat, x: nat,
                    clipped: bool, clipped': bool)
    requires off + |slice| <= |df| && slice == df[off..off + |slice|]
    requires s.dispI <= last < |slice| && last + off <= last' < |df| && s.dispI < x <= last + 1 && s.dist > 0.0
    requires x <= last || last' == last + off
    ensures Finish(df, s.(dispI := s.dispI + off), tpR, last', x + off, clipped')
         == Shifted(Finish(slice, s, tpR, last, x, clipped), off, clipped')
  {
    assert df[last + off] == slice[last];
    assert x <= last ==> df[x + off] == slice[x];
  }

  lemma FirstTouchShift(df: seq<Candle>, slice: seq<Candle>, off: nat, s: Setup, last: nat, last': nat)
    requires off + |slice| <= |df| && slice == df[off..off + |slice|]
    requires s.dispI <= last < |slice| && last + off <= last' < |df|
    ensures var x := TouchFrom(slice, s, last, s.dispI + 1);
      var x' := TouchFrom(df, s.(dispI := s.dispI + off), last', s.dispI + off + 1);
      x' >= x + off && (x <= last || last' == last + off ==> x' == x + off)
  {
    var s' := s.(dispI := s.dispI + off);
    var x := TouchFrom(slice, s, last, s.dispI + 1);
    forall i | s.dispI + off < i <= last + off ensures Touched(df[i], s') == Touched(slice[i - off], s) {
      assert df[i] == slice[i - off];
    }
    assert forall i :: s.dispI + off < i < x + off ==> !Touched(df[i], s');
    assert x <= last ==> Touched(df[x + off], s');
  }

  lemma TouchedShift(df: seq<Candle>, slice: seq<Candle>, off: nat, s: Setup, i: nat)
    requires off + |slice| <= |df| && slice == df[off..off + |slice|] && i < |slice|
    ensures Touched(df[i + off], s.(dispI := s.dispI + off)) == Touched(slice[i], s)
  {
    assert df[i + off] == slice[i];
  }

  /** Touches do not depend on where the series is cut. */
  lemma CutShortShift(df: seq<Candle>, slice: seq<Candle>, off: nat, s: Setup, maxBars: nat)
    requires off + |slice| <= |df| && slice == df[off..off + |slice|]
    ensures CutShort(slice, |slice|, s, maxBars)
      <==> CutShort(df, off + |slice|, s.(dispI := s.dispI + off), maxBars)
  {
    var s' := s.(dispI := s.dispI + off);
    if CutShort(slice, |slice|, s, maxBars) {
      forall i | s'.dispI < i < off + |slice| ensures !Touched(df[i], s') {
        TouchedShift(df, slice, off, s, i - off);
      }
    }
    if CutShort(df, off + |slice|, s', maxBars) {
      forall i | s.dispI < i < |slice| ensures !Touched(slice[i], s) {
        TouchedShift(df, slice, off, s, i);
      }
    }
  }

  /** Unless the slice cuts the window short, or when both end together, the windows end alike or a touch comes
      first. */
  lemma WindowShift(df: seq<Candle>, slice: seq<Candle>, off: nat, s: Setup, maxBars: nat)
    requires off + |slice| <= |df| && slice == df[off..off + |slice|] && s.dispI + 1 < |slice|
    requires !CutShort(slice, |slice|, s, maxBars) || off + |slice| == |df|
    ensures var last, last' := LastForward(|slice|, s.dispI, maxBars), LastForward(|df|, s.dispI + off, maxBars);
      var x := TouchFrom(slice, s, last, s.dispI + 1);
      && (x <= last || last' == last + off)
      && TouchFrom(df, s.(dispI := s.dispI + off), last', s.dispI + off + 1) == x + off
  {
    var last, last' := LastForward(|slice|, s.dispI, maxBars), LastForward(|df|, s.dispI + off, maxBars);
    var x := TouchFrom(slice, s, last, s.dispI + 1);
    assert x > last && s.dispI + maxBars >= |slice| ==> CutShort(slice, |slice|, s, maxBars);
    FirstTouchShift(df, slice, off, s, last, last');
  }

  /** In these cases the two runs are the same trade. */
  lemma SettleShift(df: seq<Candle>, slice: seq<Candle>, off: nat, s: Setup, tpR: real, maxBars: nat)
    requires off + |slice| <= |df| && slice == df[off..off + |slice|] && s.dispI + 1 < |slice| && s.dist > 0.0
    requires !CutShort(slice, |slice|, s, maxBars) || off + |slice| == |df|
    ensures var full := Settle(df, s.(dispI := s.dispI + off), tpR, maxBars);
      full == Shifted(Settle(slice, s, tpR, maxBars), off, full.clipped)
  {
    var last, last' := LastForward(|slice|, s.dispI, maxBars), LastForward(|df|, s.dispI + off, maxBars);
    var s', x := s.(dispI := s.dispI + off), TouchFrom(slice, s, last, s.dispI + 1);
    var clipped, clipped' := s.dispI + maxBars >= |slice|, s.dispI + off + maxBars >= |df|;
    WindowShift(df, slice, off, s, maxBars);
    FinishShift(df, slice, off, s, tpR, last, last', x, clipped, clipped');
    assert Settle(slice, s, tpR, maxBars) == Finish(slice, s, tpR, last, x, clipped);
    assert Settle(df, s', tpR, maxBars) == Finish(df, s', tpR, last', x + off, clipped');
    assert Finish(df, s', tpR, last', x + off, clipped').clipped == clipped';
  }

  /** A slice that cuts the window short and is not the end of the series loses bars: the full run ends later. */
  lemma SettleExtends(df: seq<Candle>, slice: seq<Candle>, off: nat, s: Setup, tpR: real, maxBars: nat)
    requires off + |slice| < |df| && slice == df[off..off + |slice|] && s.dispI + 1 < |slice| && s.dist > 0.0
    requires CutShort(slice, |slice|, s, maxBars)
    ensures Settle(df, s.(dispI := s.dispI + off), tpR, maxBars).exitI > Settle(slice, s, tpR, maxBars).exitI + off
  {
    var last, last' := |slice| - 1, LastForward(|df|, s.dispI + off, maxBars);
    FirstTouchShift(df, slice, off, s, last, last');
    assert TouchFrom(slice, s, last, s.dispI + 1) == |slice|;
  }

  lemma SettleCompared(df: seq<Candle>, slice: seq<Candle>, off: nat, s: Setup, tpR: real, maxBars: nat)
    requires off + |slice| <= |df| && slice == df[off..off + |slice|] && s.dispI + 1 < |slice| && s.dist > 0.0
    ensures var o, full := Settle(slice, s, tpR, maxBars), Settle(df, s.(dispI := s.dispI + off), tpR, maxBars);
      && (full == Shifted(o, off, full.clipped) <==>
            !CutShort(slice, |slice|, s, maxBars) || off + |slice| == |df|)
      && (full != Shifted(o, off, full.clipped) ==> full.exitI > o.exitI + off)
  {
    if CutShort(slice, |slice|, s, maxBars) && off + |slice| < |df| {
      SettleExtends(df, slice, off, s, tpR, maxBars);
    } else {
      SettleShift(df, slice, off, s, tpR, maxBars);
    }
  }

  /** An event simulated on a slice comes out as on the full series with shifted indices exactly when the slice does
      not cut its window short, or ends where the series does; otherwise the full run ends later. */
  lemma SliceShift(df: seq<Candle>, slice: seq<Candle>, off: nat, p: Payload, tpR: real, slBufferAtr: real,
                   maxBars: nat, o: Sim) returns (full: Sim)
    requires off + |slice| <= |df| && slice == df[off..off + |slice|]
    requires Simulate(slice, p, tpR, slBufferAtr, maxBars) == Some(o)
    ensures Simulate(df, Shift(p, off), tpR, slBufferAtr, maxBars) == Some(full)
    ensures full == Shifted(o, off, full.clipped)
      <==> !CutShort(slice, |slice|, o.setup, maxBars) || off + |slice| == |df|
    ensures full != Shifted(o, off, full.clipped) ==> full.exitI > o.exitI + off
  {
    SimulateIsSettle(slice, p, tpR, slBufferAtr, maxBars, o);
    PrepareShift(df, slice, off, p, tpR, slBufferAtr);
    full := Settle(df, o.setup.(dispI := o.setup.dispI + off), tpR, maxBars);
    SettleCompared(df, slice, off, o.setup, tpR, maxBars);
  }

  /** The slice cuts the window of a simulated event short exactly when its run is a clipped timeout. */
  lemma CutShortIsClippedTimeout(slice: seq<Candle>, p: Payload, tpR: real, slBufferAtr: real, maxBars: nat, o: Sim)
    requires Simulate(slice, p, tpR, slBufferAtr, maxBars) == Some(o)
    ensures CutShort(slice, |slice|, o.setup, maxBars) <==> o.outcome == Timeout && o.clipped
  {
    SimulateIsSettle(slice, p, tpR, slBufferAtr, maxBars, o);
    var s, last := o.setup, LastForward(|slice|, o.setup.dispI, maxBars);
    var x := TouchFrom(slice, s, last, s.dispI + 1);
    assert o == Finish(slice, s, tpR, last, x, s.dispI + maxBars >= |slice|);
  }

  /** The slice simulates exactly those of the full series' events whose indices fit into it. */
  lemma SliceSkips(df: seq<Candle>, slice: seq<Candle>, off: nat, p: Payload, tpR: real, slBufferAtr: real)
    requires off + |slice| <= |df| && slice == df[off..off + |slice|]
    ensures Prepare(slice, p, tpR, slBufferAtr).Some?
      <==> Prepare(df, Shift(p, off), tpR, slBufferAtr).Some? && Fits(|slice|, p)
  {
    if Prepare(slice, p, tpR, slBufferAtr).Some? {
      PrepareShift(df, slice, off, p, tpR, slBufferAtr);
    } else if Prepare(df, Shift(p, off), tpR, slBufferAtr).Some? && Fits(|slice|, p) {
      assert Usable(|slice|, p);
      ExtremeShift(df, slice, off, p);
      var e := Locate(slice, p);
      assert Locate(df, Shift(p, off)) == e.(dispI := e.dispI + off);
      PlaceShift(e, off, Times(slBufferAtr, p.atr.value), tpR);
      assert false;
    }
  }

  /** For every event: slice and full series agree, skipped events included, exactly when an event that the full
      series simulates fits into the slice, and the slice does not cut its window short or ends where the series
      does. */
  lemma SliceAgreesExactly(df: seq<Candle>, slice: seq<Candle>, off: nat, p: Payload, tpR: real, slBufferAtr: real,
                           maxBars: nat)
    requires off + |slice| <= |df| && slice == df[off..off + |slice|]
    ensures var s := Prepare(df, Shift(p, off), tpR, slBufferAtr);
      SameTrade(Simulate(slice, p, tpR, slBufferAtr, maxBars),
                Simulate(df, Shift(p, off), tpR, slBufferAtr, maxBars), off)
      <==> (s.Some? ==> Fits(|slice|, p) &&
                        (!CutShort(df, off + |slice|, s.value, maxBars) || off + |slice| == |df|))
  {
    SliceSkips(df, slice, off, p, tpR, slBufferAtr);
    var o := Simulate(slice, p, tpR, slBufferAtr, maxBars);
    if o.Some? {
      var full := SliceShift(df, slice, off, p, tpR, slBufferAtr, maxBars, o.value);
      SimulateIsSettle(slice, p, tpR, slBufferAtr, maxBars, o.value);
      PrepareShift(df, slice, off, p, tpR, slBufferAtr);
      CutShortShift(df, slice, off, o.value.setup, maxBars);
    }
  }

  /** An event displaced on the last bar of a slice is skipped there, and simulated where the series goes on. */
  lemma LastBarIsSkipped(tpR: real, maxBars: nat)
    ensures var c, p := Candle(1.0, 1.0, 1.0, 1.0), Payload(Some(0), Some(0), Some(1.0), "bearish", None, None);
      && Simulate([c], p, tpR, 0.1, maxBars) == None
      && Simulate([c, c, c], Shift(p, 0), tpR, 0.1, maxBars).Some?
  {
    var c, p := Candle(1.0, 1.0, 1.0, 1.0), Payload(Some(0), Some(0), Some(1.0), "bearish", None, None);
    assert LowestLow([c, c, c], 0, 0) == 1.0;
    assert Times(0.1, 1.0) == 0.1;
  }

  // ---------- Mirror ----------

  function MirrorSide(side: string): string {
    if side == "bearish" then "bullish" else if side == "bullish" then "bearish" else side
  }

  function MirrorPayload(p: Payload, level: real): Payload {
    p.(side := MirrorSide(p.side),
       sweepLow := if p.sweepHigh.Some? then Some(Reflect(level, p.sweepHigh.value)) else None,
       sweepHigh := if p.sweepLow.Some? then Some(Reflect(level, p.sweepLow.value)) else None)
  }

  function MirrorSetup(s: Setup, level: real): Setup {
    Setup(s.dir.Flip(), s.dispI, Reflect(level, s.entry), Reflect(level, s.sl), s.dist, Reflect(level, s.tp))
  }

  lemma {:induction false} ExtremesMirror(df: seq<Candle>, level: real, a: nat, b: nat)
    requires a <= b < |df|
    ensures LowestLow(MirrorSeries(df, level), a, b) == Reflect(level, HighestHigh(df, a, b))
    ensures HighestHigh(MirrorSeries(df, level), a, b) == Reflect(level, LowestLow(df, a, b))
  {
    if a < b { ExtremesMirror(df, level, a, b - 1); }
  }

  function MirrorEvent(e: Event, level: real): Event {
    Event(e.dir.Flip(), e.dispI, Reflect(level, e.entry), Reflect(level, e.extreme), e.atr)
  }

  lemma PlaceMirror(e: Event, buf: real, tpR: real, level: real)
    ensures var s := Place(e, buf, tpR);
      Place(MirrorEvent(e, level), buf, tpR) == if s.None? then None else Some(MirrorSetup(s.value, level))
  {
    assert Reflect(level, e.extreme) + buf - Reflect(level, e.entry) == e.entry - (e.extreme - buf);
    assert Reflect(level, e.entry) - (Reflect(level, e.extreme) - buf) == e.extreme + buf - e.entry;
  }

  lemma ExtremeMirror(df: seq<Candle>, p: Payload, level: real)
    requires Usable(|df|, p)
    ensures var d, w, dir := p.dispI.value, p.sweepI.value, DirectionOf(p.side).value;
      SweepExtreme(MirrorSeries(df, level), w, d, dir.Flip(), MirrorPayload(p, level))
      == Reflect(level, SweepExtreme(df, w, d, dir, p))
  {
    var d, w := p.dispI.value, p.sweepI.value;
    ExtremesMirror(df, level, w, if d < w then w else d);
  }

  lemma PrepareMirror(df: seq<Candle>, p: Payload, tpR: real, slBufferAtr: real, level: real)
    ensures var s := Prepare(df, p, tpR, slBufferAtr);
      Prepare(MirrorSeries(df, level), MirrorPayload(p, level), tpR, slBufferAtr)
      == if s.None? then None else Some(MirrorSetup(s.value, level))
  {
    if Usable(|df|, p) {
      ExtremeMirror(df, p, level);
      assert Locate(MirrorSeries(df, level), MirrorPayload(p, level)) == MirrorEvent(Locate(df, p), level);
      PlaceMirror(Locate(df, p), Times(slBufferAtr, p.atr.value), tpR, level);
    }
  }

  lemma SettleMirror(df: seq<Candle>, s: Setup, tpR: real, maxBars: nat, level: real)
    requires s.dispI + 1 < |df| && s.dist > 0.0
    ensures var o := Settle(df, s, tpR, maxBars);
      Settle(MirrorSeries(df, level), MirrorSetup(s, level), tpR, maxBars)
      == o.(setup := MirrorSetup(s, level), exitPrice := Reflect(level, o.exitPrice))
  {
    var last := LastForward(|df|, s.dispI, maxBars);
    TouchMirror(df, s, last, level);
    FinishMirror(df, s, tpR, last, TouchFrom(df, s, last, s.dispI + 1), s.dispI + maxBars >= |df|, level);
  }

  lemma HitsMirror(c: Candle, s: Setup, level: real)
    ensures StopHit(MirrorCandle(c, level), MirrorSetup(s, level)) == StopHit(c, s)
    ensures TargetHit(MirrorCandle(c, level), MirrorSetup(s, level)) == TargetHit(c, s)
  {
  }

  lemma TouchMirror(df: seq<Candle>, s: Setup, last: nat, level: real)
    requires s.dispI <= last < |df|
    ensures TouchFrom(MirrorSeries(df, level), MirrorSetup(s, level), last, s.dispI + 1)
         == TouchFrom(df, s, last, s.dispI + 1)
  {
    forall i | 0 <= i < |df| ensures Touched(MirrorSeries(df, level)[i], MirrorSetup(s, level)) == Touched(df[i], s) {
      HitsMirror(df[i], s, level);
    }
  }

  lemma FinishMirror(df: seq<Candle>, s: Setup, tpR: real, last: nat, x: nat, clipped: bool, level: real)
    requires s.dispI <= last < |df| && s.dispI < x <= last + 1 && s.dist > 0.0
    ensures var o := Finish(df, s, tpR, last, x, clipped);
      Finish(MirrorSeries(df, level), MirrorSetup(s, level), tpR, last, x, clipped)
      == o.(setup := MirrorSetup(s, level), exitPrice := Reflect(level, o.exitPrice))
  {
    if x <= last { HitsMirror(df[x], s, level); }
    assert Move(MirrorSetup(s, level), Reflect(level, df[last].cl)) == Move(s, df[last].cl);
  }

  /** Reflecting all prices and the sweep side leaves outcome, pay-off, holding time and exit bar unchanged. */
  lemma SimulateMirror(df: seq<Candle>, p: Payload, tpR: real, slBufferAtr: real, maxBars: nat, level: real)
    ensures var o := Simulate(df, p, tpR, slBufferAtr, maxBars);
      Simulate(MirrorSeries(df, level), MirrorPayload(p, level), tpR, slBufferAtr, maxBars)
      == if o.None? then None
         else Some(o.value.(setup := MirrorSetup(o.value.setup, level), exitPrice := Reflect(level, o.value.exitPrice)))
  {
    PrepareMirror(df, p, tpR, slBufferAtr, level);
    var s := Prepare(df, p, tpR, slBufferAtr);
    if s.Some? {
      SettleMirror(df, s.value, tpR, maxBars, level);
    }
  }
}
