/** What the trailing exits can pay: they lose exactly when the initial stop comes first, and a
    non-losing result never exceeds the best favourable excursion of the window. */
module ExitBounds {
  import opened Common
  import opened Excursion
  import opened Exits

  /** The initial stop is hit on a bar before which nothing, breakeven included, was reached. */
  ghost predicate StoppedFirst(bars: seq<Bar>, slR: real, beAt: real) {
    exists a :: 0 <= a < |bars| && bars[a].adv >= slR && forall i :: 0 <= i < a ==> !Decides(bars[i], slR, beAt)
  }

  lemma StoppedFirstAtArm(bars: seq<Bar>, slR: real, beAt: real)
    ensures var a := ArmIndex(bars, slR, beAt);
      StoppedFirst(bars, slR, beAt) <==> a < |bars| && bars[a].adv >= slR
  {
    var a := ArmIndex(bars, slR, beAt);
    if StoppedFirst(bars, slR, beAt) {
      var s :| 0 <= s < |bars| && bars[s].adv >= slR && forall i :: 0 <= i < s ==> !Decides(bars[i], slR, beAt);
      assert Decides(bars[s], slR, beAt);
      assert s == a;
    }
  }

  /** Best favourable excursion of the window, never below zero. */
  function BestFav(bars: seq<Bar>): real {
    if bars == [] then 0.0 else Max(BestFav(bars[..|bars| - 1]), bars[|bars| - 1].fav)
  }

  lemma {:induction false} BestFavBounds(bars: seq<Bar>, i: nat)
    requires i < |bars|
    ensures BestFav(bars) >= 0.0 && bars[i].fav <= BestFav(bars)
  {
    if i < |bars| - 1 {
      assert bars[i] == bars[..|bars| - 1][i];
      BestFavBounds(bars[..|bars| - 1], i);
    } else {
      BestFavNonNegative(bars[..|bars| - 1]);
    }
  }

  lemma {:induction false} BestFavNonNegative(bars: seq<Bar>)
    ensures BestFav(bars) >= 0.0
  {
    if bars != [] { BestFavNonNegative(bars[..|bars| - 1]); }
  }

  /** The pay-off of an exit: a full initial loss, or between zero and the best excursion. */
  ghost predicate PaysWithin(r: real, bars: seq<Bar>, slR: real, beAt: real) {
    (StoppedFirst(bars, slR, beAt) ==> r == -slR) &&
    (!StoppedFirst(bars, slR, beAt) ==> 0.0 <= r <= BestFav(bars))
  }

  lemma {:induction false} PeakFavBounded(bars: seq<Bar>, a: nat, j: nat)
    requires a <= j < |bars|
    ensures PeakFav(bars, a, j) <= BestFav(bars)
  {
    BestFavBounds(bars, j);
    if a < j { PeakFavBounded(bars, a, j - 1); }
  }

  lemma FixedPaysWithin(bars: seq<Bar>, slR: real, beAt: real, dist: real)
    requires dist >= 0.0
    ensures PaysWithin(FixedExit(bars, slR, beAt, dist).r, bars, slR, beAt)
  {
    StoppedFirstAtArm(bars, slR, beAt);
    BestFavNonNegative(bars);
    var a := ArmIndex(bars, slR, beAt);
    if a < |bars| && bars[a].adv < slR {
      var x := FixedFrom(bars, dist, a, a + 1);
      PeakFavBounded(bars, a, if x < |bars| then x else |bars| - 1);
    }
  }

  /** The trail distance is always given up: a non-losing trade keeps at most the best excursion less the distance. */
  lemma FixedGivesUpDistance(bars: seq<Bar>, slR: real, beAt: real, dist: real)
    requires !StoppedFirst(bars, slR, beAt)
    ensures FixedExit(bars, slR, beAt, dist).r <= Max(0.0, BestFav(bars) - dist)
  {
    StoppedFirstAtArm(bars, slR, beAt);
    var a := ArmIndex(bars, slR, beAt);
    if a < |bars| {
      var x := FixedFrom(bars, dist, a, a + 1);
      PeakFavBounded(bars, a, if x < |bars| then x else |bars| - 1);
    }
  }

  /** The upper bound is reached, for every excursion and every trail distance. */
  lemma FixedBoundReached(best: real, slR: real, beAt: real, dist: real)
    requires slR > 0.0 && best >= 0.0 && best >= beAt
    ensures var bars := [Bar(0.0, 0.0, 0.0, 0.0, best, 0.0)];
      BestFav(bars) == best && FixedExit(bars, slR, beAt, dist).r == Max(0.0, best - dist)
  {
    var bars := [Bar(0.0, 0.0, 0.0, 0.0, best, 0.0)];
    assert bars[..0] == [];
    assert ArmIndex(bars, slR, beAt) == 0;
    assert PeakFav(bars, 0, 0) == best;
  }

  /** A price no better than the favourable extreme of some bar pays at most the best excursion. */
  lemma LevelPaysWithin(bars: seq<Bar>, dir: Direction, entry: real, risk: real, i: nat, level: real)
    requires Measured(bars, dir, entry, risk) && i < |bars|
    requires Gain(dir, level, entry) <= Gain(dir, if dir.LONG? then bars[i].hi else bars[i].lo, entry)
    ensures Gain(dir, level, entry) / risk <= bars[i].fav
    ensures 0.0 <= Floored(dir, level, entry, risk) <= BestFav(bars)
  {
    var best := if dir.LONG? then bars[i].hi else bars[i].lo;
    assert bars[i] in bars;
    DivMonotone(Gain(dir, level, entry), Gain(dir, best, entry), risk);
    BestFavBounds(bars, i);
  }

  lemma {:induction false} PeakCloseIsClose(bars: seq<Bar>, dir: Direction, a: nat, j: nat) returns (i: nat)
    requires a <= j < |bars|
    ensures a <= i <= j && PeakClose(bars, dir, a, j) == bars[i].cl
  {
    if a == j {
      i := j;
    } else {
      i := PeakCloseIsClose(bars, dir, a, j - 1);
      if PeakClose(bars, dir, a, j) == bars[j].cl { i := j; }
    }
  }

  lemma AtrPaysWithin(bars: seq<Bar>, entry: real, risk: real, dir: Direction, slR: real, beAt: real, mult: real)
    requires Measured(bars, dir, entry, risk) && mult >= 0.0
    ensures PaysWithin(AtrExit(bars, entry, risk, dir, slR, beAt, mult).r, bars, slR, beAt)
  {
    StoppedFirstAtArm(bars, slR, beAt);
    BestFavNonNegative(bars);
    var a := ArmIndex(bars, slR, beAt);
    if a < |bars| && bars[a].adv < slR {
      var x := AtrFrom(bars, dir, mult, a, a + 1);
      var last := if x < |bars| then x else |bars| - 1;
      AtrLevelPaysWithin(bars, entry, risk, dir, mult, a, last);
    }
  }

  lemma AtrLevelPaysWithin(bars: seq<Bar>, entry: real, risk: real, dir: Direction, mult: real, a: nat, j: nat)
    requires Measured(bars, dir, entry, risk) && mult >= 0.0 && a <= j < |bars|
    ensures 0.0 <= Floored(dir, AtrLevel(bars, dir, mult, a, j), entry, risk) <= BestFav(bars)
  {
    var i := PeakCloseIsClose(bars, dir, a, j);
    assert bars[i] in bars && bars[j] in bars;
    assert mult * bars[j].atr >= 0.0;
    LevelPaysWithin(bars, dir, entry, risk, i, AtrLevel(bars, dir, mult, a, j));
  }

  lemma {:induction false} TrailIsEntryOrFar(bars: seq<Bar>, rule: Rule, dir: Direction, entry: real, n: nat, m: nat)
    ensures var t := Trail(bars, rule, dir, entry, n, m);
      t == entry || exists s: nat :: s < |bars| && t == Far(dir, bars[s])
  {
    if m > 0 { TrailIsEntryOrFar(bars, rule, dir, entry, n, m - 1); }
  }

  lemma TrailPaysWithin(bars: seq<Bar>, entry: real, risk: real, rule: Rule, dir: Direction, n: nat, a: nat)
    requires Measured(bars, dir, entry, risk) && a < |bars|
    ensures 0.0 <= Floored(dir, LastTrail(bars, rule, dir, entry, n, a), entry, risk) <= BestFav(bars)
  {
    var t := LastTrail(bars, rule, dir, entry, n, a);
    BestFavNonNegative(bars);
    if t != entry {
      var x := TrailFrom(bars, rule, dir, entry, n, a + 1);
      TrailIsEntryOrFar(bars, rule, dir, entry, n, Confirmed(n, if x < |bars| then x else |bars| - 1));
      var s: nat :| s < |bars| && t == Far(dir, bars[s]);
      assert bars[s] in bars;
      LevelPaysWithin(bars, dir, entry, risk, s, t);
    }
  }

  lemma StructurePaysWithin(bars: seq<Bar>, entry: real, risk: real, dir: Direction, slR: real, beAt: real, n: nat)
    requires Measured(bars, dir, entry, risk)
    ensures PaysWithin(StructureExit(bars, entry, risk, dir, slR, beAt, n).r, bars, slR, beAt)
  {
    StoppedFirstAtArm(bars, slR, beAt);
    BestFavNonNegative(bars);
    var a := ArmIndex(bars, slR, beAt);
    if a < |bars| && bars[a].adv < slR {
      TrailPaysWithin(bars, entry, risk, Plain, dir, n, a);
    }
  }

  lemma BlendWithin(partialAt: real, pct: real, runner: real, best: real)
    requires 0.0 <= pct <= 1.0 && 0.0 <= partialAt <= best && 0.0 <= runner <= best
    ensures 0.0 <= Blend(partialAt, pct, runner) <= best
  {
    var rest := 1.0 - pct;
    assert pct * (best - partialAt) >= 0.0 && rest * (best - runner) >= 0.0;
    assert pct * best + rest * best == best;
    assert pct * partialAt >= 0.0 && rest * runner >= 0.0;
  }

  lemma HybridPaysWithin(bars: seq<Bar>, entry: real, risk: real, dir: Direction, slR: real, beAt: real,
                         partialAt: real, pct: real, n: nat)
    requires Measured(bars, dir, entry, risk) && 0.0 <= pct <= 1.0 && partialAt >= 0.0
    ensures PaysWithin(HybridExit(bars, entry, risk, dir, slR, beAt, partialAt, pct, n).r, bars, slR, beAt)
  {
    StoppedFirstAtArm(bars, slR, beAt);
    BestFavNonNegative(bars);
    var a := ArmIndex(bars, slR, beAt);
    if a < |bars| && bars[a].adv < slR {
      var p := PartialFrom(bars, partialAt, a + 1);
      if p < |bars| && bars[p].fav >= partialAt {
        TrailPaysWithin(bars, entry, risk, OrEntry, dir, n, p);
        BestFavBounds(bars, p);
        var runner := Floored(dir, LastTrail(bars, OrEntry, dir, entry, n, p), entry, risk);
        BlendWithin(partialAt, pct, runner, BestFav(bars));
      }
    }
  }

  /** A runner kept in part is worth no more than the part of its best. */
  lemma BlendGrows(partialAt: real, pct: real, runner: real, best: real)
    requires pct <= 1.0 && runner <= best
    ensures Blend(partialAt, pct, runner) <= Blend(partialAt, pct, best)
  {
    var rest := 1.0 - pct;
    assert rest * (best - runner) >= 0.0;
    assert rest * best - rest * runner == rest * (best - runner);
  }

  lemma BlendNonNegative(partialAt: real, pct: real, runner: real)
    requires 0.0 <= pct <= 1.0 && 0.0 <= partialAt && 0.0 <= runner
    ensures Blend(partialAt, pct, runner) >= 0.0
  {
    var rest := 1.0 - pct;
    assert pct * partialAt >= 0.0 && rest * runner >= 0.0;
  }

  /** The part closed at the partial target earns no more than that: the bound is blended as the pay-off is. */
  lemma HybridPaysBlended(bars: seq<Bar>, entry: real, risk: real, dir: Direction, slR: real, beAt: real,
                          partialAt: real, pct: real, n: nat)
    requires Measured(bars, dir, entry, risk) && 0.0 <= pct <= 1.0 && partialAt >= 0.0
    requires !StoppedFirst(bars, slR, beAt)
    ensures HybridExit(bars, entry, risk, dir, slR, beAt, partialAt, pct, n).r <= Blend(partialAt, pct, BestFav(bars))
  {
    StoppedFirstAtArm(bars, slR, beAt);
    BestFavNonNegative(bars);
    BlendNonNegative(partialAt, pct, BestFav(bars));
    var a := ArmIndex(bars, slR, beAt);
    if a < |bars| {
      var p := PartialFrom(bars, partialAt, a + 1);
      if p < |bars| && bars[p].fav >= partialAt {
        TrailPaysWithin(bars, entry, risk, OrEntry, dir, n, p);
        var runner := Floored(dir, LastTrail(bars, OrEntry, dir, entry, n, p), entry, risk);
        BlendGrows(partialAt, pct, runner, BestFav(bars));
      }
    }
  }

  /** With a positive stop the four exits lose on exactly the same windows, and then all lose slR. */
  lemma ExitsLoseTogether(bars: seq<Bar>, entry: real, risk: real, dir: Direction, slR: real, beAt: real,
                          dist: real, mult: real, partialAt: real, pct: real, n: nat)
    requires Measured(bars, dir, entry, risk) && slR > 0.0
    requires dist >= 0.0 && mult >= 0.0 && 0.0 <= pct <= 1.0 && partialAt >= 0.0
    ensures FixedExit(bars, slR, beAt, dist).r < 0.0 <==> StoppedFirst(bars, slR, beAt)
    ensures AtrExit(bars, entry, risk, dir, slR, beAt, mult).r < 0.0 <==> StoppedFirst(bars, slR, beAt)
    ensures StructureExit(bars, entry, risk, dir, slR, beAt, n).r < 0.0 <==> StoppedFirst(bars, slR, beAt)
    ensures HybridExit(bars, entry, risk, dir, slR, beAt, partialAt, pct, n).r < 0.0 <==> StoppedFirst(bars, slR, beAt)
  {
    FixedPaysWithin(bars, slR, beAt, dist);
    AtrPaysWithin(bars, entry, risk, dir, slR, beAt, mult);
    StructurePaysWithin(bars, entry, risk, dir, slR, beAt, n);
    HybridPaysWithin(bars, entry, risk, dir, slR, beAt, partialAt, pct, n);
  }
}
