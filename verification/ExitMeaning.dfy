/** What each trailing exit does, told bar by bar and without the definitions its loop is proved against. */
module ExitMeaning {
  import opened Common
  import opened Excursion
  import opened Exits
  import opened ExitTheorems

  // ---------- Before breakeven ----------

  /** The bar neither hits the initial stop nor reaches the breakeven trigger. */
  predicate Waits(b: Bar, slR: real, beAt: real) { b.adv < slR && b.fav < beAt }

  ghost predicate Armed(bars: seq<Bar>, slR: real, beAt: real, a: nat) {
    a < |bars| && bars[a].adv < slR && bars[a].fav >= beAt && forall i :: 0 <= i < a ==> Waits(bars[i], slR, beAt)
  }

  ghost predicate Stopped(bars: seq<Bar>, slR: real, beAt: real, s: nat) {
    s < |bars| && bars[s].adv >= slR && forall i :: 0 <= i < s ==> Waits(bars[i], slR, beAt)
  }

  lemma ArmedIsArmedAt(bars: seq<Bar>, slR: real, beAt: real, a: nat)
    requires Armed(bars, slR, beAt, a)
    ensures ArmedAt(bars, slR, beAt, a)
  {
    assert Decides(bars[a], slR, beAt);
    assert forall i :: 0 <= i < a ==> !Decides(bars[i], slR, beAt);
  }

  /** One of the three happens first. */
  lemma FirstEvent(bars: seq<Bar>, slR: real, beAt: real)
    ensures var a := ArmIndex(bars, slR, beAt);
      if a == |bars| then forall i :: 0 <= i < |bars| ==> Waits(bars[i], slR, beAt)
      else if bars[a].adv >= slR then Stopped(bars, slR, beAt, a)
      else Armed(bars, slR, beAt, a)
  {
    var a := ArmIndex(bars, slR, beAt);
    forall i | 0 <= i < a ensures Waits(bars[i], slR, beAt) {
      assert !Decides(bars[i], slR, beAt);
    }
  }

  /** All four exits lose the initial stop at the bar that hits it, before or together with the breakeven trigger. */
  lemma StoppedPays(bars: seq<Bar>, entry: real, risk: real, dir: Direction, slR: real, beAt: real, dist: real,
                    mult: real, partialAt: real, pct: real, n: nat, s: nat)
    requires risk != 0.0 && Stopped(bars, slR, beAt, s)
    ensures FixedExit(bars, slR, beAt, dist) == Fired(s, -slR)
    ensures AtrExit(bars, entry, risk, dir, slR, beAt, mult) == Fired(s, -slR)
    ensures StructureExit(bars, entry, risk, dir, slR, beAt, n) == Fired(s, -slR)
    ensures HybridExit(bars, entry, risk, dir, slR, beAt, partialAt, pct, n) == Fired(s, -slR)
  {
    assert Decides(bars[s], slR, beAt);
    assert ArmIndex(bars, slR, beAt) == s;
  }

  /** A window that only waits pays nothing. */
  lemma WaitingPays(bars: seq<Bar>, entry: real, risk: real, dir: Direction, slR: real, beAt: real, dist: real,
                    mult: real, partialAt: real, pct: real, n: nat)
    requires risk != 0.0 && forall i :: 0 <= i < |bars| ==> Waits(bars[i], slR, beAt)
    ensures FixedExit(bars, slR, beAt, dist) == Expired(0.0)
    ensures AtrExit(bars, entry, risk, dir, slR, beAt, mult) == Expired(0.0)
    ensures StructureExit(bars, entry, risk, dir, slR, beAt, n) == Expired(0.0)
    ensures HybridExit(bars, entry, risk, dir, slR, beAt, partialAt, pct, n) == Expired(0.0)
  {
    assert forall i :: 0 <= i < |bars| ==> !Decides(bars[i], slR, beAt);
    assert ArmIndex(bars, slR, beAt) == |bars|;
  }

  /** The last bar an outcome has seen. */
  function LastSeen(bars: seq<Bar>, o: Outcome): int { if o.Fired? then o.bar else |bars| - 1 }

  // ---------- Fixed-distance trail ----------

  /** The bar trades against the entry, or lies the distance below some excursion since bar a. */
  ghost predicate GivesBack(bars: seq<Bar>, dist: real, a: nat, j: nat)
    requires a <= j < |bars|
  {
    bars[j].adv >= 0.0 || exists i :: a <= i <= j && bars[j].fav <= bars[i].fav - dist
  }

  /** r is the best excursion of bars a..last less the distance, floored at zero. */
  ghost predicate BestFavLess(bars: seq<Bar>, dist: real, a: nat, last: int, r: real)
    requires last < |bars|
  {
    r >= 0.0 && (forall i :: a <= i <= last ==> r >= bars[i].fav - dist) &&
    (r == 0.0 || exists i :: a <= i <= last && r == bars[i].fav - dist)
  }

  lemma {:induction false} PeakFavIsBest(bars: seq<Bar>, a: nat, j: nat) returns (best: nat)
    requires a <= j < |bars|
    ensures a <= best <= j && PeakFav(bars, a, j) == bars[best].fav
    ensures forall i :: a <= i <= j ==> bars[i].fav <= PeakFav(bars, a, j)
  {
    best := j;
    if a < j {
      var b := PeakFavIsBest(bars, a, j - 1);
      if PeakFav(bars, a, j) != bars[j].fav { best := b; }
    }
  }

  lemma GivesBackFires(bars: seq<Bar>, dist: real, a: nat, j: nat)
    requires a < j < |bars|
    ensures FixedFires(bars, dist, a, j) <==> GivesBack(bars, dist, a, j)
  {
    var best := PeakFavIsBest(bars, a, j);
  }

  /** Once armed at bar a, the exit fires at the first later bar that gives back, and pays the best excursion seen
      from a on, less the distance. */
  lemma FixedPaysExactly(bars: seq<Bar>, slR: real, beAt: real, dist: real, a: nat)
    requires Armed(bars, slR, beAt, a)
    ensures var o := FixedExit(bars, slR, beAt, dist);
      && (o.Fired? ==> a < o.bar < |bars| && GivesBack(bars, dist, a, o.bar))
      && (forall j :: a < j < |bars| && (o.Fired? ==> j < o.bar) ==> !GivesBack(bars, dist, a, j))
      && BestFavLess(bars, dist, a, LastSeen(bars, o), o.r)
  {
    ArmedIsArmedAt(bars, slR, beAt, a);
    var o := FixedExit(bars, slR, beAt, dist);
    forall j | a < j < |bars| ensures FixedFires(bars, dist, a, j) <==> GivesBack(bars, dist, a, j) {
      GivesBackFires(bars, dist, a, j);
    }
    var best := PeakFavIsBest(bars, a, LastSeen(bars, o));
  }

  // ---------- ATR trail ----------

  /** The bar reaches some close since bar a, less (for shorts, plus) the bar's own width. */
  ghost predicate AtrReached(bars: seq<Bar>, dir: Direction, mult: real, a: nat, j: nat)
    requires a <= j < |bars|
  {
    exists i :: a <= i <= j &&
      if dir.LONG? then bars[j].lo <= bars[i].cl - mult * bars[j].atr
      else bars[j].hi >= bars[i].cl + mult * bars[j].atr
  }

  /** What a close pays less a width, in units of risk. */
  function ClosePays(b: Bar, dir: Direction, entry: real, risk: real, width: real): real
    requires risk != 0.0
  {
    (Gain(dir, b.cl, entry) - width) / risk
  }

  /** r is what the best close of bars a..last pays less the width of bar `last`, floored at zero. */
  ghost predicate BestCloseLess(bars: seq<Bar>, entry: real, risk: real, dir: Direction, mult: real, a: nat, last: int,
                                r: real)
    requires risk != 0.0 && 0 <= last < |bars|
  {
    var width := mult * bars[last].atr;
    r >= 0.0 && (forall i :: a <= i <= last ==> r >= ClosePays(bars[i], dir, entry, risk, width)) &&
    (r == 0.0 || exists i :: a <= i <= last && r == ClosePays(bars[i], dir, entry, risk, width))
  }

  lemma {:induction false} PeakCloseIsBest(bars: seq<Bar>, dir: Direction, a: nat, j: nat) returns (best: nat)
    requires a <= j < |bars|
    ensures a <= best <= j && PeakClose(bars, dir, a, j) == bars[best].cl
    ensures forall i :: a <= i <= j ==>
      if dir.LONG? then bars[i].cl <= PeakClose(bars, dir, a, j) else bars[i].cl >= PeakClose(bars, dir, a, j)
  {
    best := j;
    if a < j {
      var b := PeakCloseIsBest(bars, dir, a, j - 1);
      if PeakClose(bars, dir, a, j) != bars[j].cl { best := b; }
    }
  }

  lemma AtrReachedFires(bars: seq<Bar>, dir: Direction, mult: real, a: nat, j: nat)
    requires a < j < |bars|
    ensures AtrFires(bars, dir, mult, a, j) <==> AtrReached(bars, dir, mult, a, j)
  {
    var best := PeakCloseIsBest(bars, dir, a, j);
    var width := mult * bars[j].atr;
  }

  lemma AtrLevelPays(bars: seq<Bar>, entry: real, risk: real, dir: Direction, mult: real, a: nat, j: nat)
    requires risk > 0.0 && a <= j < |bars|
    ensures BestCloseLess(bars, entry, risk, dir, mult, a, j,
                          Floored(dir, AtrLevel(bars, dir, mult, a, j), entry, risk))
  {
    var best := PeakCloseIsBest(bars, dir, a, j);
    var width, level := mult * bars[j].atr, AtrLevel(bars, dir, mult, a, j);
    assert Gain(dir, level, entry) == Gain(dir, bars[best].cl, entry) - width;
    forall i | a <= i <= j
      ensures ClosePays(bars[i], dir, entry, risk, width) <= ClosePays(bars[best], dir, entry, risk, width)
    {
      DivMonotone(Gain(dir, bars[i].cl, entry) - width, Gain(dir, bars[best].cl, entry) - width, risk);
    }
  }

  /** Once armed at bar a, the exit fires at the first later bar that reaches a close since a less its own width, and
      pays the best close seen from a on, less that width. */
  lemma AtrPaysExactly(bars: seq<Bar>, entry: real, risk: real, dir: Direction, slR: real, beAt: real, mult: real,
                       a: nat)
    requires risk > 0.0 && Armed(bars, slR, beAt, a)
    ensures var o := AtrExit(bars, entry, risk, dir, slR, beAt, mult);
      && (o.Fired? ==> a < o.bar < |bars| && AtrReached(bars, dir, mult, a, o.bar))
      && (forall j :: a < j < |bars| && (o.Fired? ==> j < o.bar) ==> !AtrReached(bars, dir, mult, a, j))
      && BestCloseLess(bars, entry, risk, dir, mult, a, LastSeen(bars, o), o.r)
  {
    ArmedIsArmedAt(bars, slR, beAt, a);
    var o := AtrExit(bars, entry, risk, dir, slR, beAt, mult);
    forall j | a < j < |bars| ensures AtrFires(bars, dir, mult, a, j) <==> AtrReached(bars, dir, mult, a, j) {
      AtrReachedFires(bars, dir, mult, a, j);
    }
    AtrLevelPays(bars, entry, risk, dir, mult, a, LastSeen(bars, o));
  }

  // ---------- Structure trail ----------

  /** Bar s is the lowest low (for shorts, the highest high) of the n bars on each side, all of them in the window. */
  ghost predicate Swing(bars: seq<Bar>, dir: Direction, n: nat, s: nat) {
    n <= s && s + n < |bars| &&
    forall i :: s - n <= i <= s + n && i != s ==>
      if dir.LONG? then bars[s].lo < bars[i].lo else bars[s].hi > bars[i].hi
  }

  function SwingPrice(b: Bar, dir: Direction): real { if dir.LONG? then b.lo else b.hi }

  predicate Reached(dir: Direction, b: Bar, level: real) { if dir.LONG? then b.lo <= level else b.hi >= level }

  /** The bar reaches the entry, or a swing whose n later bars have closed by then. */
  ghost predicate TrailReached(bars: seq<Bar>, dir: Direction, entry: real, n: nat, j: nat)
    requires j < |bars|
  {
    Reached(dir, bars[j], entry) ||
    exists s: nat :: s + n <= j && Swing(bars, dir, n, s) && Reached(dir, bars[j], SwingPrice(bars[s], dir))
  }

  /** r is what the best swing confirmed by bar `last` pays, floored at zero. */
  ghost predicate BestSwingPays(bars: seq<Bar>, entry: real, risk: real, dir: Direction, n: nat, last: int, r: real)
    requires risk != 0.0 && last < |bars|
  {
    r >= 0.0 &&
    (forall s: nat :: s + n <= last && Swing(bars, dir, n, s) ==>
      r >= Gain(dir, SwingPrice(bars[s], dir), entry) / risk) &&
    (r == 0.0 ||
     exists s: nat ::
       s + n <= last && Swing(bars, dir, n, s) && r == Gain(dir, SwingPrice(bars[s], dir), entry) / risk)
  }

  lemma SwingIsPivot(bars: seq<Bar>, dir: Direction, n: nat, s: nat)
    ensures Swing(bars, dir, n, s) <==> IsPivot(bars, dir, n, s)
  {
  }

  /** The trail of bar j is the best of the entry and the swings confirmed by then. */
  lemma TrailAtIsBest(bars: seq<Bar>, dir: Direction, entry: real, n: nat, j: nat)
    requires j < |bars|
    ensures var t := TrailAt(bars, Plain, dir, entry, n, j);
      && !Ahead(dir, entry, t)
      && (forall s: nat :: s + n <= j && Swing(bars, dir, n, s) ==> !Ahead(dir, SwingPrice(bars[s], dir), t))
      && (t == entry || exists s: nat :: s + n <= j && Swing(bars, dir, n, s) && t == SwingPrice(bars[s], dir))
  {
    var m := Confirmed(n, j);
    TrailIsBest(bars, dir, entry, n, m);
    forall s: nat ensures Swing(bars, dir, n, s) <==> IsPivot(bars, dir, n, s) {
      SwingIsPivot(bars, dir, n, s);
    }
  }

  lemma TrailReachedFires(bars: seq<Bar>, dir: Direction, entry: real, n: nat, j: nat)
    requires j < |bars|
    ensures TrailFires(bars, Plain, dir, entry, n, j) <==> TrailReached(bars, dir, entry, n, j)
  {
    TrailAtIsBest(bars, dir, entry, n, j);
  }

  lemma TrailLevelPays(bars: seq<Bar>, entry: real, risk: real, dir: Direction, n: nat, j: nat)
    requires risk > 0.0 && j < |bars|
    ensures BestSwingPays(bars, entry, risk, dir, n, j,
                          Floored(dir, TrailAt(bars, Plain, dir, entry, n, j), entry, risk))
  {
    TrailAtIsBest(bars, dir, entry, n, j);
    var t := TrailAt(bars, Plain, dir, entry, n, j);
    forall s: nat | s + n <= j && Swing(bars, dir, n, s)
      ensures Gain(dir, SwingPrice(bars[s], dir), entry) / risk <= Gain(dir, t, entry) / risk
    {
      DivMonotone(Gain(dir, SwingPrice(bars[s], dir), entry), Gain(dir, t, entry), risk);
    }
  }

  /** A trail phase begun after bar a ends at bar x, or with the window, and pays r. */
  ghost predicate PhasePays(bars: seq<Bar>, entry: real, risk: real, dir: Direction, n: nat, a: nat, o: Outcome,
                            r: real)
    requires risk != 0.0
  {
    (o.Fired? ==> a < o.bar < |bars| && TrailReached(bars, dir, entry, n, o.bar)) &&
    (forall j :: a < j < |bars| && (o.Fired? ==> j < o.bar) ==> !TrailReached(bars, dir, entry, n, j)) &&
    if o.Expired? && a == |bars| - 1 then r == 0.0
    else BestSwingPays(bars, entry, risk, dir, n, LastSeen(bars, o), r)
  }

  lemma PhaseExactly(bars: seq<Bar>, entry: real, risk: real, dir: Direction, n: nat, a: nat, o: Outcome)
    requires risk > 0.0 && a < |bars|
    requires var x := TrailFrom(bars, Plain, dir, entry, n, a + 1);
      if x < |bars| then o.Fired? && o.bar == x else o.Expired?
    ensures PhasePays(bars, entry, risk, dir, n, a, o,
                      Floored(dir, LastTrail(bars, Plain, dir, entry, n, a), entry, risk))
  {
    forall j: nat | j < |bars|
      ensures TrailFires(bars, Plain, dir, entry, n, j) <==> TrailReached(bars, dir, entry, n, j)
    {
      TrailReachedFires(bars, dir, entry, n, j);
    }
    if !(o.Expired? && a == |bars| - 1) {
      TrailLevelPays(bars, entry, risk, dir, n, LastSeen(bars, o));
    } else {
      assert Gain(dir, entry, entry) == 0.0;
    }
  }

  /** Once armed at bar a, the exit fires at the first later bar that reaches the entry or a confirmed swing, and pays
      the best swing confirmed by then. */
  lemma StructurePaysExactly(bars: seq<Bar>, entry: real, risk: real, dir: Direction, slR: real, beAt: real, n: nat,
                             a: nat)
    requires risk > 0.0 && Armed(bars, slR, beAt, a)
    ensures var o := StructureExit(bars, entry, risk, dir, slR, beAt, n);
      PhasePays(bars, entry, risk, dir, n, a, o, o.r)
  {
    ArmedIsArmedAt(bars, slR, beAt, a);
    PhaseExactly(bars, entry, risk, dir, n, a, StructureExit(bars, entry, risk, dir, slR, beAt, n));
  }

  // ---------- Hybrid exit ----------

  /** Between breakeven and the partial: the bar stays below the target and does not lie wholly beyond the entry. */
  predicate Holds(b: Bar, partialAt: real) { b.fav < partialAt && !(b.adv >= 0.0 && b.fav < 0.0) }

  /** The trade armed at bar a holds until bar p. */
  ghost predicate HoldsUntil(bars: seq<Bar>, slR: real, beAt: real, partialAt: real, a: nat, p: nat) {
    Armed(bars, slR, beAt, a) && a < p <= |bars| && forall i :: a < i < p ==> Holds(bars[i], partialAt)
  }

  lemma HoldsUntilIsPartialFrom(bars: seq<Bar>, slR: real, beAt: real, partialAt: real, a: nat, p: nat)
    requires HoldsUntil(bars, slR, beAt, partialAt, a, p) && (p < |bars| ==> !Holds(bars[p], partialAt))
    ensures ArmedAt(bars, slR, beAt, a) && PartialFrom(bars, partialAt, a + 1) == p
  {
    ArmedIsArmedAt(bars, slR, beAt, a);
    assert forall i :: a < i < p ==> !SecondPhaseEnds(bars[i], partialAt);
    assert p < |bars| ==> SecondPhaseEnds(bars[p], partialAt);
  }

  /** A bar wholly beyond the entry, before any bar on the partial target, closes the trade with nothing. */
  lemma BeyondEntryPaysNothing(bars: seq<Bar>, entry: real, risk: real, dir: Direction, slR: real, beAt: real,
                               partialAt: real, pct: real, n: nat, a: nat, p: nat)
    requires risk != 0.0 && HoldsUntil(bars, slR, beAt, partialAt, a, p)
    requires p < |bars| && bars[p].adv >= 0.0 && bars[p].fav < 0.0 && bars[p].fav < partialAt
    ensures HybridExit(bars, entry, risk, dir, slR, beAt, partialAt, pct, n) == Fired(p, 0.0)
  {
    HoldsUntilIsPartialFrom(bars, slR, beAt, partialAt, a, p);
  }

  /** Without either, the trade pays nothing at the end of the window. */
  lemma HoldingPaysNothing(bars: seq<Bar>, entry: real, risk: real, dir: Direction, slR: real, beAt: real,
                           partialAt: real, pct: real, n: nat, a: nat)
    requires risk != 0.0 && HoldsUntil(bars, slR, beAt, partialAt, a, |bars|)
    ensures HybridExit(bars, entry, risk, dir, slR, beAt, partialAt, pct, n) == Expired(0.0)
  {
    HoldsUntilIsPartialFrom(bars, slR, beAt, partialAt, a, |bars|);
  }

  lemma PartialStartsRunner(bars: seq<Bar>, entry: real, risk: real, dir: Direction, slR: real, beAt: real,
                            partialAt: real, pct: real, n: nat, a: nat, p: nat)
    requires risk != 0.0
    requires HoldsUntil(bars, slR, beAt, partialAt, a, p) && p < |bars| && bars[p].fav >= partialAt
    ensures HybridExit(bars, entry, risk, dir, slR, beAt, partialAt, pct, n)
         == RunnerExit(bars, entry, risk, dir, partialAt, pct, n, p)
  {
    HoldsUntilIsPartialFrom(bars, slR, beAt, partialAt, a, p);
  }

  /** On the first bar at the partial target, reached while holding, that part of the profit is safe, whatever follows
      and wherever the entry lies. */
  lemma PartialIsKept(bars: seq<Bar>, entry: real, risk: real, dir: Direction, slR: real, beAt: real,
                      partialAt: real, pct: real, n: nat, a: nat, p: nat)
    requires risk != 0.0 && 0.0 <= pct <= 1.0
    requires HoldsUntil(bars, slR, beAt, partialAt, a, p) && p < |bars| && bars[p].fav >= partialAt
    ensures HybridExit(bars, entry, risk, dir, slR, beAt, partialAt, pct, n).r >= pct * partialAt
  {
    PartialStartsRunner(bars, entry, risk, dir, slR, beAt, partialAt, pct, n, a, p);
    var runner := Floored(dir, LastTrail(bars, OrEntry, dir, entry, n, p), entry, risk);
    var rest := 1.0 - pct;
    assert rest * runner >= 0.0;
  }

  lemma RunnerExactly(bars: seq<Bar>, entry: real, risk: real, dir: Direction, partialAt: real, pct: real, n: nat,
                      p: nat, o: Outcome) returns (runner: real)
    requires risk > 0.0 && (dir.SHORT? || entry >= 0.0) && p < |bars|
    requires o == RunnerExit(bars, entry, risk, dir, partialAt, pct, n, p)
    ensures PhasePays(bars, entry, risk, dir, n, p, o, runner) && o.r == Blend(partialAt, pct, runner)
  {
    SameRulePhase(bars, dir, entry, n, p);
    runner := Floored(dir, LastTrail(bars, Plain, dir, entry, n, p), entry, risk);
    PhaseExactly(bars, entry, risk, dir, n, p, o);
  }

  /** For shorts and entries not below zero, the part left over is closed as the structure trail closes a position
      begun at that bar, and the two pay-offs add up in proportion. */
  lemma HybridPaysExactly(bars: seq<Bar>, entry: real, risk: real, dir: Direction, slR: real, beAt: real,
                          partialAt: real, pct: real, n: nat, a: nat, p: nat) returns (runner: real)
    requires risk > 0.0 && (dir.SHORT? || entry >= 0.0)
    requires HoldsUntil(bars, slR, beAt, partialAt, a, p) && p < |bars| && bars[p].fav >= partialAt
    ensures var o := HybridExit(bars, entry, risk, dir, slR, beAt, partialAt, pct, n);
      && PhasePays(bars, entry, risk, dir, n, p, o, runner)
      && o.r == pct * partialAt + (1.0 - pct) * runner
  {
    PartialStartsRunner(bars, entry, risk, dir, slR, beAt, partialAt, pct, n, a, p);
    runner := RunnerExactly(bars, entry, risk, dir, partialAt, pct, n, p,
                            RunnerExit(bars, entry, risk, dir, partialAt, pct, n, p));
  }

  lemma SameRulePhase(bars: seq<Bar>, dir: Direction, entry: real, n: nat, p: nat)
    requires p < |bars| && (dir.SHORT? || entry >= 0.0)
    ensures TrailFrom(bars, OrEntry, dir, entry, n, p + 1) == TrailFrom(bars, Plain, dir, entry, n, p + 1)
    ensures LastTrail(bars, OrEntry, dir, entry, n, p) == LastTrail(bars, Plain, dir, entry, n, p)
  {
    forall j: nat ensures TrailAt(bars, OrEntry, dir, entry, n, j) == TrailAt(bars, Plain, dir, entry, n, j) {
      OrEntryAgrees(bars, dir, entry, n, Confirmed(n, j));
    }
    forall j: nat | j < |bars|
      ensures TrailFires(bars, OrEntry, dir, entry, n, j) == TrailFires(bars, Plain, dir, entry, n, j) {}
  }
}
