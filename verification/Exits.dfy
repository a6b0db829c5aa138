/** The trailing-stop exits: each loop refines a definition that looks every level up from scratch. */
module Exits {
  import opened Common
  import opened Excursion

  /** How a replay of one exit over a window ends: at a bar, or because the window ran out. */
  datatype Outcome = Fired(bar: nat, r: real) | Expired(r: real)

  // ---------- Arming ----------

  predicate Decides(b: Bar, slR: real, beAt: real) { b.adv >= slR || b.fav >= beAt }

  function ArmFrom(bars: seq<Bar>, slR: real, beAt: real, j: nat): (a: nat)
    requires j <= |bars|
    ensures j <= a <= |bars|
    ensures a < |bars| ==> Decides(bars[a], slR, beAt)
    ensures forall i :: j <= i < a ==> !Decides(bars[i], slR, beAt)
    decreases |bars| - j
  {
    if j == |bars| || Decides(bars[j], slR, beAt) then j else ArmFrom(bars, slR, beAt, j + 1)
  }

  /** First bar that hits the initial stop or reaches the breakeven trigger. */
  function ArmIndex(bars: seq<Bar>, slR: real, beAt: real): (a: nat)
    ensures a <= |bars|
    ensures a < |bars| ==> Decides(bars[a], slR, beAt)
    ensures forall i :: 0 <= i < a ==> !Decides(bars[i], slR, beAt)
  {
    ArmFrom(bars, slR, beAt, 0)
  }

  /** Bar a reaches the breakeven trigger, unstopped, before anything else happens. */
  predicate ArmedAt(bars: seq<Bar>, slR: real, beAt: real, a: nat) {
    a == ArmIndex(bars, slR, beAt) < |bars| && bars[a].adv < slR
  }

  // ---------- Fixed-distance trail ----------

  /** Best favourable excursion over bars a..j. */
  function PeakFav(bars: seq<Bar>, a: nat, j: nat): real
    requires a <= j < |bars|
  {
    if j == a then bars[a].fav else Max(PeakFav(bars, a, j - 1), bars[j].fav)
  }

  predicate FixedFires(bars: seq<Bar>, dist: real, a: nat, j: nat) {
    a < j < |bars| && (bars[j].fav <= PeakFav(bars, a, j) - dist || bars[j].adv >= 0.0)
  }

  /** First bar from j on at which the trail fires. */
  function FixedFrom(bars: seq<Bar>, dist: real, a: nat, j: nat): (x: nat)
    requires j <= |bars|
    ensures j <= x <= |bars|
    ensures x < |bars| ==> FixedFires(bars, dist, a, x)
    ensures forall i :: j <= i < x ==> !FixedFires(bars, dist, a, i)
    decreases |bars| - j
  {
    if j == |bars| || FixedFires(bars, dist, a, j) then j else FixedFrom(bars, dist, a, j + 1)
  }

  function FixedExit(bars: seq<Bar>, slR: real, beAt: real, dist: real): Outcome {
    var a := ArmIndex(bars, slR, beAt);
    if a == |bars| then Expired(0.0)
    else if bars[a].adv >= slR then Fired(a, -slR)
    else
      var x := FixedFrom(bars, dist, a, a + 1);
      if x < |bars| then Fired(x, Max(0.0, PeakFav(bars, a, x) - dist))
      else Expired(Max(0.0, PeakFav(bars, a, |bars| - 1) - dist))
  }

  method ExitFixedTrail(bars: seq<Bar>, slR: real := 1.0, beAt: real := 1.0, trailDist: real := 1.5)
    returns (r: real)
    ensures r == FixedExit(bars, slR, beAt, trailDist).r
  {
    var beMoved, peakFav := false, 0.0;
    ghost var a := 0;
    for j := 0 to |bars|
      invariant !beMoved ==> forall i :: 0 <= i < j ==> !Decides(bars[i], slR, beAt)
      invariant beMoved ==> a < j && ArmedAt(bars, slR, beAt, a)
      invariant beMoved ==> peakFav == PeakFav(bars, a, j - 1)
      invariant beMoved ==> forall i :: a < i < j ==> !FixedFires(bars, trailDist, a, i)
    {
      var b := bars[j];
      if !beMoved {
        if b.adv >= slR { return -slR; }
        if b.fav >= beAt {
          beMoved, peakFav := true, b.fav;
          a := j;
        }
      } else {
        peakFav := Max(peakFav, b.fav);
        var trailLevel := peakFav - trailDist;
        if b.fav <= trailLevel || b.adv >= 0.0 {
          assert FixedFires(bars, trailDist, a, j);
          return Max(0.0, trailLevel);
        }
      }
    }
    if beMoved { return Max(0.0, peakFav - trailDist); }
    return 0.0;
  }

  // ---------- ATR trail ----------

  /** Best close over bars a..j, in the direction of the trade. */
  function PeakClose(bars: seq<Bar>, dir: Direction, a: nat, j: nat): real
    requires a <= j < |bars|
  {
    if j == a then bars[a].cl
    else
      var p := PeakClose(bars, dir, a, j - 1);
      if dir.LONG? then Max(p, bars[j].cl) else Min(p, bars[j].cl)
  }

  function AtrLevel(bars: seq<Bar>, dir: Direction, mult: real, a: nat, j: nat): real
    requires a <= j < |bars|
  {
    var p := PeakClose(bars, dir, a, j);
    if dir.LONG? then p - mult * bars[j].atr else p + mult * bars[j].atr
  }

  /** The far side of the bar does not stay ahead of the level. */
  predicate Touches(dir: Direction, b: Bar, level: real) { !Ahead(dir, Far(dir, b), level) }

  predicate AtrFires(bars: seq<Bar>, dir: Direction, mult: real, a: nat, j: nat) {
    a < j < |bars| && Touches(dir, bars[j], AtrLevel(bars, dir, mult, a, j))
  }

  function AtrFrom(bars: seq<Bar>, dir: Direction, mult: real, a: nat, j: nat): (x: nat)
    requires j <= |bars|
    ensures j <= x <= |bars|
    ensures x < |bars| ==> AtrFires(bars, dir, mult, a, x)
    ensures forall i :: j <= i < x ==> !AtrFires(bars, dir, mult, a, i)
    decreases |bars| - j
  {
    if j == |bars| || AtrFires(bars, dir, mult, a, j) then j else AtrFrom(bars, dir, mult, a, j + 1)
  }

  /** Profit in units of risk of closing at `level`, never counted below zero. */
  function Floored(dir: Direction, level: real, entry: real, risk: real): real
    requires risk != 0.0
  {
    Max(0.0, Gain(dir, level, entry) / risk)
  }

  function AtrExit(bars: seq<Bar>, entry: real, risk: real, dir: Direction, slR: real, beAt: real, mult: real): Outcome
    requires risk != 0.0
  {
    var a := ArmIndex(bars, slR, beAt);
    if a == |bars| then Expired(0.0)
    else if bars[a].adv >= slR then Fired(a, -slR)
    else
      var x := AtrFrom(bars, dir, mult, a, a + 1);
      if x < |bars| then Fired(x, Floored(dir, AtrLevel(bars, dir, mult, a, x), entry, risk))
      else Expired(Floored(dir, AtrLevel(bars, dir, mult, a, |bars| - 1), entry, risk))
  }

  /** `max(0, r)` of the move from entry to the trail price. */
  method TrailPay(dir: Direction, trail: real, entry: real, risk: real) returns (r: real)
    requires risk != 0.0
    ensures r == Floored(dir, trail, entry, risk)
  {
    if dir == LONG {
      r := Max(0.0, (trail - entry) / risk);
    } else {
      r := Max(0.0, (entry - trail) / risk);
    }
  }

  /** Once bar x is known to be the first to touch the trail (or |bars| if none does), the result is settled. */
  lemma AtrSettles(bars: seq<Bar>, entry: real, risk: real, dir: Direction, slR: real, beAt: real, mult: real,
                   a: nat, x: nat)
    requires risk != 0.0 && ArmedAt(bars, slR, beAt, a) && a < x <= |bars|
    requires x < |bars| ==> AtrFires(bars, dir, mult, a, x)
    requires forall i :: a < i < x ==> !AtrFires(bars, dir, mult, a, i)
    ensures AtrExit(bars, entry, risk, dir, slR, beAt, mult).r
         == Floored(dir, AtrLevel(bars, dir, mult, a, if x < |bars| then x else |bars| - 1), entry, risk)
  {
  }

  /** The trail phase begun at bar a, at the head of bar j: no bar has touched its level, `peak` is the best close. */
  ghost predicate AtrTrailing(bars: seq<Bar>, dir: Direction, mult: real, a: nat, j: nat, peak: real) {
    a < j <= |bars| && peak == PeakClose(bars, dir, a, j - 1) &&
    forall i :: a < i < j ==> !AtrFires(bars, dir, mult, a, i)
  }

  /** With the best close updated for bar j, the level is the definition's, and an untouched level carries on. */
  lemma AtrStep(bars: seq<Bar>, dir: Direction, mult: real, a: nat, j: nat, peak: real, level: real)
    requires a < j < |bars| && peak == PeakClose(bars, dir, a, j)
    requires forall i :: a < i < j ==> !AtrFires(bars, dir, mult, a, i)
    requires level == if dir.LONG? then peak - mult * bars[j].atr else peak + mult * bars[j].atr
    ensures level == AtrLevel(bars, dir, mult, a, j)
    ensures AtrFires(bars, dir, mult, a, j) <==> Touches(dir, bars[j], level)
    ensures !Touches(dir, bars[j], level) ==> AtrTrailing(bars, dir, mult, a, j + 1, peak)
  {
  }

  method ExitAtrTrail(bars: seq<Bar>, entry: real, risk: real, dir: Direction,
                      slR: real := 1.0, beAt: real := 1.0, atrMult: real := 2.0)
    returns (r: real)
    requires risk != 0.0
    ensures r == AtrExit(bars, entry, risk, dir, slR, beAt, atrMult).r
  {
    var beMoved, peakClose := false, entry;
    ghost var a := 0;
    for j := 0 to |bars|
      invariant !beMoved ==> forall i :: 0 <= i < j ==> !Decides(bars[i], slR, beAt)
      invariant beMoved ==> ArmedAt(bars, slR, beAt, a) && AtrTrailing(bars, dir, atrMult, a, j, peakClose)
    {
      var b := bars[j];
      if !beMoved {
        if b.adv >= slR { return -slR; }
        if b.fav >= beAt {
          beMoved, peakClose := true, b.cl;
          a := j;
        }
      } else {
        peakClose := if dir == LONG then Max(peakClose, b.cl) else Min(peakClose, b.cl);
        var trailPrice := if dir == LONG then peakClose - atrMult * b.atr else peakClose + atrMult * b.atr;
        AtrStep(bars, dir, atrMult, a, j, peakClose, trailPrice);
        if (dir == LONG && b.lo <= trailPrice) || (dir == SHORT && b.hi >= trailPrice) {
          AtrSettles(bars, entry, risk, dir, slR, beAt, atrMult, a, j);
          r := TrailPay(dir, trailPrice, entry, risk);
          return;
        }
      }
    }
    if beMoved {
      AtrSettles(bars, entry, risk, dir, slR, beAt, atrMult, a, |bars|);
      var lastAtr := bars[|bars| - 1].atr;
      var trailPrice := if dir == LONG then peakClose - atrMult * lastAtr else peakClose + atrMult * lastAtr;
      r := TrailPay(dir, trailPrice, entry, risk);
      return;
    }
    return 0.0;
  }

  // ---------- Structure trail ----------

  /** The structure exit compares a new swing with the trail; the hybrid one with `trail or entry`,
      which for a long trade falls back to the entry when the trail price is exactly zero. */
  datatype Rule = Plain | OrEntry

  predicate Accepts(rule: Rule, dir: Direction, entry: real, trail: real, price: real) {
    Ahead(dir, price, if rule == OrEntry && dir == LONG && trail == 0.0 then entry else trail)
  }

  /** Trail price recomputed from scratch: every pivot of index below m offered in turn. */
  function Trail(bars: seq<Bar>, rule: Rule, dir: Direction, entry: real, n: nat, m: nat): real {
    if m == 0 then entry
    else
      var t := Trail(bars, rule, dir, entry, n, m - 1);
      if IsPivot(bars, dir, n, m - 1) && Accepts(rule, dir, entry, t, Far(dir, bars[m - 1]))
      then Far(dir, bars[m - 1]) else t
  }

  /** Trail price in force at bar j: only pivots confirmed by then count. */
  function TrailAt(bars: seq<Bar>, rule: Rule, dir: Direction, entry: real, n: nat, j: nat): real {
    Trail(bars, rule, dir, entry, n, Confirmed(n, j))
  }

  predicate TrailFires(bars: seq<Bar>, rule: Rule, dir: Direction, entry: real, n: nat, j: nat) {
    j < |bars| && Touches(dir, bars[j], TrailAt(bars, rule, dir, entry, n, j))
  }

  /** First bar from j on whose far side reaches the trail in force there. */
  function TrailFrom(bars: seq<Bar>, rule: Rule, dir: Direction, entry: real, n: nat, j: nat): (x: nat)
    requires j <= |bars|
    ensures j <= x <= |bars|
    ensures x < |bars| ==> TrailFires(bars, rule, dir, entry, n, x)
    ensures forall i :: j <= i < x ==> !TrailFires(bars, rule, dir, entry, n, i)
    decreases |bars| - j
  {
    if j == |bars| || TrailFires(bars, rule, dir, entry, n, j) then j
    else TrailFrom(bars, rule, dir, entry, n, j + 1)
  }

  /** The level at which a trail phase that starts after bar a is settled. */
  function LastTrail(bars: seq<Bar>, rule: Rule, dir: Direction, entry: real, n: nat, a: nat): real
    requires a < |bars|
  {
    var x := TrailFrom(bars, rule, dir, entry, n, a + 1);
    if x < |bars| then TrailAt(bars, rule, dir, entry, n, x)
    else if a == |bars| - 1 then entry
    else TrailAt(bars, rule, dir, entry, n, |bars| - 1)
  }

  function StructureExit(bars: seq<Bar>, entry: real, risk: real, dir: Direction, slR: real, beAt: real,
                         n: nat): Outcome
    requires risk != 0.0
  {
    var a := ArmIndex(bars, slR, beAt);
    if a == |bars| then Expired(0.0)
    else if bars[a].adv >= slR then Fired(a, -slR)
    else
      var x := TrailFrom(bars, Plain, dir, entry, n, a + 1);
      var r := Floored(dir, LastTrail(bars, Plain, dir, entry, n, a), entry, risk);
      if x < |bars| then Fired(x, r) else Expired(r)
  }

  // ---------- The cursor over precomputed swings ----------

  lemma {:induction false} PivotsGrow(bars: seq<Bar>, dir: Direction, n: nat, m: nat, k: nat)
    requires m <= k
    ensures |Pivots(bars, dir, n, m)| <= |Pivots(bars, dir, n, k)|
  {
    if m < k { PivotsGrow(bars, dir, n, m, k - 1); }
  }

  /** Between two pivots the trail does not move. */
  lemma {:induction false} TrailWaits(bars: seq<Bar>, rule: Rule, dir: Direction, entry: real, n: nat, m: nat, k: nat)
    requires m <= k && |Pivots(bars, dir, n, m)| == |Pivots(bars, dir, n, k)|
    ensures Trail(bars, rule, dir, entry, n, m) == Trail(bars, rule, dir, entry, n, k)
  {
    if m < k {
      PivotsGrow(bars, dir, n, m, k - 1);
      TrailWaits(bars, rule, dir, entry, n, m, k - 1);
    }
  }

  /** The cursor has consumed exactly the pivots below m, and `trail` is what they amount to. */
  ghost predicate CursorAt(bars: seq<Bar>, rule: Rule, dir: Direction, entry: real, n: nat, m: nat,
                           idx: nat, trail: real)
  {
    idx == |Pivots(bars, dir, n, m)| && trail == Trail(bars, rule, dir, entry, n, m)
  }

  /** The `while` over confirmed swings: advancing the cursor gives the from-scratch trail of bar j. */
  method AdvanceCursor(ghost bars: seq<Bar>, swings: seq<(nat, real)>, rule: Rule, dir: Direction, entry: real,
                       n: nat, j: nat, idx0: nat, trail0: real, ghost m0: nat)
    returns (idx: nat, trail: real)
    requires j < |bars| && swings == Pivots(bars, dir, n, |bars|)
    requires m0 <= Confirmed(n, j) && CursorAt(bars, rule, dir, entry, n, m0, idx0, trail0)
    ensures CursorAt(bars, rule, dir, entry, n, Confirmed(n, j), idx, trail)
  {
    idx, trail := idx0, trail0;
    ghost var m, c := m0, Confirmed(n, j);
    PivotsGrow(bars, dir, n, m, |bars|);
    while idx < |swings| && swings[idx].0 <= j - n
      invariant m <= c && idx <= |swings| && CursorAt(bars, rule, dir, entry, n, m, idx, trail)
      decreases |swings| - idx
    {
      var (s, swingPrice) := swings[idx];
      SwingsSound(bars, dir, n, |bars|, idx);
      if s < m {
        SwingsComplete(bars, dir, n, m, s);
        assert false;
      }
      TrailWaits(bars, rule, dir, entry, n, m, s);
      if dir == LONG && swingPrice > (if rule == OrEntry && trail == 0.0 then entry else trail) {
        trail := swingPrice;
      } else if dir == SHORT && swingPrice < trail {
        trail := swingPrice;
      }
      idx, m := idx + 1, s + 1;
      PivotsGrow(bars, dir, n, m, |bars|);
    }
    PivotsGrow(bars, dir, n, m, c);
    if idx < |swings| {
      SwingsSound(bars, dir, n, |bars|, idx);
      PivotsGrow(bars, dir, n, c, swings[idx].0);
    } else {
      PivotsGrow(bars, dir, n, c, |bars|);
    }
    TrailWaits(bars, rule, dir, entry, n, m, c);
  }

  ghost predicate Quiet(bars: seq<Bar>, rule: Rule, dir: Direction, entry: real, n: nat, a: nat, j: nat) {
    forall i :: a < i < j ==> !TrailFires(bars, rule, dir, entry, n, i)
  }

  /** Bar x ends the trail phase begun after bar a; `trail` is the cursor's price when it does. */
  ghost predicate Settled(bars: seq<Bar>, rule: Rule, dir: Direction, entry: real, n: nat, a: nat, x: nat,
                          trail: real)
  {
    a < x <= |bars| && Quiet(bars, rule, dir, entry, n, a, x) &&
    (x < |bars| ==> TrailFires(bars, rule, dir, entry, n, x) && trail == TrailAt(bars, rule, dir, entry, n, x)) &&
    (x == |bars| ==>
      trail == if a + 1 == |bars| then entry else TrailAt(bars, rule, dir, entry, n, |bars| - 1))
  }

  lemma PhaseSettles(bars: seq<Bar>, rule: Rule, dir: Direction, entry: real, n: nat, a: nat, x: nat, trail: real)
    requires Settled(bars, rule, dir, entry, n, a, x, trail)
    ensures TrailFrom(bars, rule, dir, entry, n, a + 1) == x && LastTrail(bars, rule, dir, entry, n, a) == trail
  {
  }

  lemma StructureSettles(bars: seq<Bar>, entry: real, risk: real, dir: Direction, slR: real, beAt: real, n: nat,
                         a: nat, x: nat, trail: real)
    requires risk != 0.0 && ArmedAt(bars, slR, beAt, a) && Settled(bars, Plain, dir, entry, n, a, x, trail)
    ensures StructureExit(bars, entry, risk, dir, slR, beAt, n).r == Floored(dir, trail, entry, risk)
  {
    PhaseSettles(bars, Plain, dir, entry, n, a, x, trail);
  }

  /** The cursor during the trail phase begun after bar a, at the head of bar j: not moved yet at the first bar. */
  ghost predicate Trailing(bars: seq<Bar>, rule: Rule, dir: Direction, entry: real, n: nat, a: nat, j: nat,
                           idx: nat, trail: real)
  {
    a < j <= |bars| && Quiet(bars, rule, dir, entry, n, a, j) &&
    CursorAt(bars, rule, dir, entry, n, if a + 1 < j then Confirmed(n, j - 1) else 0, idx, trail)
  }

  /** One bar of the trail phase: the cursor is advanced, and the trail is either reached there or not. */
  method TrailStep(bars: seq<Bar>, swings: seq<(nat, real)>, rule: Rule, dir: Direction, entry: real, n: nat,
                   ghost a: nat, j: nat, idx0: nat, trail0: real)
    returns (idx: nat, trail: real, fires: bool)
    requires j < |bars| && swings == Pivots(bars, dir, n, |bars|)
    requires Trailing(bars, rule, dir, entry, n, a, j, idx0, trail0)
    ensures if fires then Settled(bars, rule, dir, entry, n, a, j, trail)
            else Trailing(bars, rule, dir, entry, n, a, j + 1, idx, trail)
  {
    idx, trail := AdvanceCursor(bars, swings, rule, dir, entry, n, j, idx0, trail0,
                                if a + 1 < j then Confirmed(n, j - 1) else 0);
    fires := (dir == LONG && bars[j].lo <= trail) || (dir == SHORT && bars[j].hi >= trail);
  }

  method ExitStructureTrail(bars: seq<Bar>, entry: real, risk: real, dir: Direction,
                            slR: real := 1.0, beAt: real := 1.0, pivotN: nat := 2)
    returns (r: real)
    requires risk != 0.0
    ensures r == StructureExit(bars, entry, risk, dir, slR, beAt, pivotN).r
  {
    var swings;
    if dir == LONG { swings := FindSwingLows(bars, pivotN); } else { swings := FindSwingHighs(bars, pivotN); }
    var beMoved, swingIdx, trail, fires := false, 0, entry, false;
    ghost var a := 0;
    for j := 0 to |bars|
      invariant !beMoved ==> swingIdx == 0 && trail == entry
      invariant !beMoved ==> forall i :: 0 <= i < j ==> !Decides(bars[i], slR, beAt)
      invariant beMoved ==> ArmedAt(bars, slR, beAt, a)
      invariant beMoved ==> Trailing(bars, Plain, dir, entry, pivotN, a, j, swingIdx, trail)
    {
      if !beMoved {
        if bars[j].adv >= slR { return -slR; }
        if bars[j].fav >= beAt {
          beMoved, a := true, j;
        }
      } else {
        swingIdx, trail, fires := TrailStep(bars, swings, Plain, dir, entry, pivotN, a, j, swingIdx, trail);
        if fires {
          StructureSettles(bars, entry, risk, dir, slR, beAt, pivotN, a, j, trail);
          r := TrailPay(dir, trail, entry, risk);
          return;
        }
      }
    }
    if beMoved {
      StructureSettles(bars, entry, risk, dir, slR, beAt, pivotN, a, |bars|, trail);
      r := TrailPay(dir, trail, entry, risk);
      return;
    }
    return 0.0;
  }

  // ---------- Hybrid three-phase exit ----------

  /** While breakeven is armed and no partial is taken: the partial target, or a bar wholly beyond the entry. */
  predicate SecondPhaseEnds(b: Bar, partialAt: real) { b.fav >= partialAt || (b.adv >= 0.0 && b.fav < 0.0) }

  function PartialFrom(bars: seq<Bar>, partialAt: real, j: nat): (p: nat)
    requires j <= |bars|
    ensures j <= p <= |bars|
    ensures p < |bars| ==> SecondPhaseEnds(bars[p], partialAt)
    ensures forall i :: j <= i < p ==> !SecondPhaseEnds(bars[i], partialAt)
    decreases |bars| - j
  {
    if j == |bars| || SecondPhaseEnds(bars[j], partialAt) then j else PartialFrom(bars, partialAt, j + 1)
  }

  /** Part of the position closed at the partial target, the rest at the runner's result. */
  function Blend(partialAt: real, pct: real, runner: real): real { pct * partialAt + (1.0 - pct) * runner }

  /** Third phase, after the partial taken at bar p. */
  function RunnerExit(bars: seq<Bar>, entry: real, risk: real, dir: Direction, partialAt: real, pct: real,
                      n: nat, p: nat): Outcome
    requires risk != 0.0 && p < |bars|
  {
    var x := TrailFrom(bars, OrEntry, dir, entry, n, p + 1);
    var r := Blend(partialAt, pct, Floored(dir, LastTrail(bars, OrEntry, dir, entry, n, p), entry, risk));
    if x < |bars| then Fired(x, r) else Expired(r)
  }

  function HybridExit(bars: seq<Bar>, entry: real, risk: real, dir: Direction, slR: real, beAt: real,
                      partialAt: real, pct: real, n: nat): Outcome
    requires risk != 0.0
  {
    var a := ArmIndex(bars, slR, beAt);
    if a == |bars| then Expired(0.0)
    else if bars[a].adv >= slR then Fired(a, -slR)
    else
      var p := PartialFrom(bars, partialAt, a + 1);
      if p == |bars| then Expired(0.0)
      else if bars[p].fav < partialAt then Fired(p, 0.0)
      else
        RunnerExit(bars, entry, risk, dir, partialAt, pct, n, p)
  }

  /** Bar p takes the partial of the trade armed at bar a. */
  predicate PartialAt(bars: seq<Bar>, slR: real, beAt: real, partialAt: real, a: nat, p: nat) {
    ArmedAt(bars, slR, beAt, a) && p == PartialFrom(bars, partialAt, a + 1) < |bars| && bars[p].fav >= partialAt
  }

  lemma HybridSettles(bars: seq<Bar>, entry: real, risk: real, dir: Direction, slR: real, beAt: real,
                      partialAt: real, pct: real, n: nat, a: nat, p: nat, x: nat, trail: real)
    requires risk != 0.0 && PartialAt(bars, slR, beAt, partialAt, a, p)
    requires Settled(bars, OrEntry, dir, entry, n, p, x, trail)
    ensures HybridExit(bars, entry, risk, dir, slR, beAt, partialAt, pct, n).r
         == Blend(partialAt, pct, Floored(dir, trail, entry, risk))
  {
    PhaseSettles(bars, OrEntry, dir, entry, n, p, x, trail);
  }

  /** The pay-out once the partial is taken and the runner is closed at the trail price. */
  method RunnerPay(dir: Direction, trail: real, entry: real, risk: real, partialAt: real, partialPct: real)
    returns (r: real)
    requires risk != 0.0
    ensures r == Blend(partialAt, partialPct, Floored(dir, trail, entry, risk))
  {
    var runner := TrailPay(dir, trail, entry, risk);
    r := partialPct * partialAt + (1.0 - partialPct) * runner;
  }

  /** Breakeven was armed at bar a, and no bar before j has ended the second phase. */
  ghost predicate Holding(bars: seq<Bar>, slR: real, beAt: real, partialAt: real, a: nat, j: nat) {
    a < j <= |bars| && ArmedAt(bars, slR, beAt, a) && forall i :: a < i < j ==> !SecondPhaseEnds(bars[i], partialAt)
  }

  /** Where the second phase ends: at the partial, at the entry with nothing, or with the window. */
  lemma HoldingEnds(bars: seq<Bar>, entry: real, risk: real, dir: Direction, slR: real, beAt: real,
                    partialAt: real, pct: real, n: nat, a: nat, j: nat)
    requires risk != 0.0 && Holding(bars, slR, beAt, partialAt, a, j)
    requires j < |bars| ==> SecondPhaseEnds(bars[j], partialAt)
    ensures j < |bars| && bars[j].fav >= partialAt ==> PartialAt(bars, slR, beAt, partialAt, a, j)
    ensures !(j < |bars| && bars[j].fav >= partialAt) ==>
              HybridExit(bars, entry, risk, dir, slR, beAt, partialAt, pct, n).r == 0.0
  {
  }

  method ExitHybrid3Phase(bars: seq<Bar>, entry: real, risk: real, dir: Direction, slR: real := 1.0, beAt: real := 1.0,
                          partialAt: real := 2.0, partialPct: real := 0.4, pivotN: nat := 2)
    returns (r: real)
    requires risk != 0.0
    ensures r == HybridExit(bars, entry, risk, dir, slR, beAt, partialAt, partialPct, pivotN).r
  {
    var swings;
    if dir == LONG { swings := FindSwingLows(bars, pivotN); } else { swings := FindSwingHighs(bars, pivotN); }
    var beMoved, partialTaken, swingIdx, trail, fires := false, false, 0, entry, false;
    ghost var a, p := 0, 0;
    for j := 0 to |bars|
      invariant partialTaken ==> beMoved
      invariant !partialTaken ==> swingIdx == 0 && trail == entry
      invariant !beMoved ==> forall i :: 0 <= i < j ==> !Decides(bars[i], slR, beAt)
      invariant beMoved && !partialTaken ==> Holding(bars, slR, beAt, partialAt, a, j)
      invariant partialTaken ==> PartialAt(bars, slR, beAt, partialAt, a, p)
      invariant partialTaken ==> Trailing(bars, OrEntry, dir, entry, pivotN, p, j, swingIdx, trail)
    {
      var b := bars[j];
      if !beMoved {
        if b.adv >= slR { return -slR; }
        if b.fav >= beAt {
          beMoved, a := true, j;
        }
      } else if !partialTaken {
        if b.fav >= partialAt {
          HoldingEnds(bars, entry, risk, dir, slR, beAt, partialAt, partialPct, pivotN, a, j);
          partialTaken, p := true, j;
        } else if b.adv >= 0.0 && b.fav < 0.0 {
          HoldingEnds(bars, entry, risk, dir, slR, beAt, partialAt, partialPct, pivotN, a, j);
          return 0.0;
        }
      } else {
        swingIdx, trail, fires := TrailStep(bars, swings, OrEntry, dir, entry, pivotN, p, j, swingIdx, trail);
        if fires {
          HybridSettles(bars, entry, risk, dir, slR, beAt, partialAt, partialPct, pivotN, a, p, j, trail);
          r := RunnerPay(dir, trail, entry, risk, partialAt, partialPct);
          return;
        }
      }
    }
    if partialTaken {
      HybridSettles(bars, entry, risk, dir, slR, beAt, partialAt, partialPct, pivotN, a, p, |bars|, trail);
      r := RunnerPay(dir, trail, entry, risk, partialAt, partialPct);
      return;
    }
    if beMoved { HoldingEnds(bars, entry, risk, dir, slR, beAt, partialAt, partialPct, pivotN, a, |bars|); }
    return 0.0;
  }
}
