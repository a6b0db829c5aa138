/** The near-copies of the exits in the other scripts, each tied to the fixed-distance trail. */
module ExitCopies {
  import opened Common
  import opened Excursion
  import opened Exits
  import opened ExitBounds

  /** Favourable and adverse excursion of one bar; prices are already divided out. */
  datatype Exc = Exc(fav: real, adv: real)

  /** The window as the fixed-trail exit would see it: that exit reads only the two excursions. */
  function AsBars(exc: seq<Exc>): (bars: seq<Bar>)
    ensures |bars| == |exc|
    ensures forall i :: 0 <= i < |exc| ==> bars[i].fav == exc[i].fav && bars[i].adv == exc[i].adv
  {
    seq(|exc|, i requires 0 <= i < |exc| => Bar(0.0, 0.0, 0.0, 0.0, exc[i].fav, exc[i].adv))
  }

  /** The fixed trail gives the same result on any window with the same excursions. */
  lemma FixedReadsExcursions(a: seq<Bar>, b: seq<Bar>, slR: real, beAt: real, dist: real)
    requires |a| == |b| && forall i :: 0 <= i < |a| ==> a[i].fav == b[i].fav && a[i].adv == b[i].adv
    ensures FixedExit(a, slR, beAt, dist) == FixedExit(b, slR, beAt, dist)
  {
    forall s: nat, i: nat | s <= i < |a| ensures PeakFav(a, s, i) == PeakFav(b, s, i) {
      SamePeaks(a, b, s, i);
    }
    assert forall i :: 0 <= i < |a| ==> Decides(a[i], slR, beAt) == Decides(b[i], slR, beAt);
    var s := ArmIndex(a, slR, beAt);
    assert s == ArmIndex(b, slR, beAt);
    if s < |a| {
      assert forall i :: s < i < |a| ==> FixedFires(a, dist, s, i) == FixedFires(b, dist, s, i);
      assert FixedFrom(a, dist, s, s + 1) == FixedFrom(b, dist, s, s + 1);
    }
  }

  lemma {:induction false} SamePeaks(a: seq<Bar>, b: seq<Bar>, s: nat, i: nat)
    requires |a| == |b| && s <= i < |a| && forall k :: 0 <= k < |a| ==> a[k].fav == b[k].fav
    ensures PeakFav(a, s, i) == PeakFav(b, s, i)
  {
    if s < i { SamePeaks(a, b, s, i - 1); }
  }

  /** The half position is closed at the partial target: the window arms before it stops. */
  predicate Fills(bars: seq<Bar>, slR: real, partialAt: real) {
    var a := ArmIndex(bars, slR, partialAt);
    a < |bars| && bars[a].adv < slR
  }

  /** Half at the partial target, half on the fixed trail. */
  function HalfTrail(bars: seq<Bar>, slR: real, partialAt: real, trailR: real): real {
    var fixed := FixedExit(bars, slR, partialAt, trailR).r;
    if Fills(bars, slR, partialAt) then (partialAt + fixed) / 2.0 else fixed
  }

  /** The partial fills and the trail never fires before the window ends. */
  predicate RunsOut(bars: seq<Bar>, slR: real, partialAt: real, trailR: real) {
    Fills(bars, slR, partialAt) && FixedExit(bars, slR, partialAt, trailR).Expired?
  }

  function LastPeak(bars: seq<Bar>, slR: real, partialAt: real): real
    requires Fills(bars, slR, partialAt)
  {
    PeakFav(bars, ArmIndex(bars, slR, partialAt), |bars| - 1)
  }

  /** The later copy floors the sum of both halves at the end of the window, not the trailing half alone. */
  function LooseHalfTrail(bars: seq<Bar>, slR: real, partialAt: real, trailR: real): real {
    if RunsOut(bars, slR, partialAt, trailR)
    then Max(0.0, partialAt * 0.5 + (LastPeak(bars, slR, partialAt) - trailR) * 0.5)
    else HalfTrail(bars, slR, partialAt, trailR)
  }

  /** How far the shared loop of all partial-trail copies has got by bar j. */
  ghost predicate LoopState(bars: seq<Bar>, slR: real, at: real, trailR: real, j: nat, filled: bool, a: nat,
                            peak: real)
  {
    j <= |bars| &&
    (!filled ==> forall i :: 0 <= i < j ==> !Decides(bars[i], slR, at)) &&
    (filled ==>
      a < j && ArmedAt(bars, slR, at, a) && peak == PeakFav(bars, a, j - 1) &&
      forall i :: a < i < j ==> !FixedFires(bars, trailR, a, i))
  }

  method ExitPartialTrail(exc: seq<Exc>, slR: real := 1.0, partialAt: real := 1.0, trailR: real := 1.5)
    returns (r: real)
    ensures r == HalfTrail(AsBars(exc), slR, partialAt, trailR)
  {
    var partialFilled, peak := false, 0.0;
    ghost var bars, a := AsBars(exc), 0;
    for j := 0 to |exc|
      invariant LoopState(bars, slR, partialAt, trailR, j, partialFilled, a, peak)
    {
      var fav, adv := exc[j].fav, exc[j].adv;
      if !partialFilled {
        if adv >= slR { return -slR; }
        if fav >= partialAt {
          partialFilled, peak := true, fav;
          a := j;
        }
      } else {
        peak := Max(peak, fav);
        var drawback := peak - fav;
        if drawback >= trailR || adv >= 0.0 {
          assert FixedFires(bars, trailR, a, j);
          var trailExit := Max(0.0, peak - trailR);
          return partialAt * 0.5 + trailExit * 0.5;
        }
      }
    }
    if partialFilled {
      var trailExit := Max(0.0, peak - trailR);
      return partialAt * 0.5 + trailExit * 0.5;
    }
    return 0.0;
  }

  method ExitPartialTrailLoose(exc: seq<Exc>, slR: real := 1.0, partialAt: real := 1.0, trailR: real := 1.5)
    returns (r: real)
    ensures r == LooseHalfTrail(AsBars(exc), slR, partialAt, trailR)
  {
    var partialFilled, peak := false, 0.0;
    ghost var bars, a := AsBars(exc), 0;
    for j := 0 to |exc|
      invariant LoopState(bars, slR, partialAt, trailR, j, partialFilled, a, peak)
    {
      var fav, adv := exc[j].fav, exc[j].adv;
      if !partialFilled {
        if adv >= slR { return -slR; }
        if fav >= partialAt {
          partialFilled, peak := true, fav;
          a := j;
        }
      } else {
        peak := Max(peak, fav);
        var drawback := peak - fav;
        if drawback >= trailR || adv >= 0.0 {
          assert FixedFires(bars, trailR, a, j);
          var trailExit := Max(0.0, peak - trailR);
          return partialAt * 0.5 + trailExit * 0.5;
        }
      }
    }
    if partialFilled {
      return Max(0.0, partialAt * 0.5 + (peak - trailR) * 0.5);
    }
    return 0.0;
  }

  /** `bars` counts the bars held; the peak is reported only when the trade ends on its trail. */
  datatype VariantResult = VariantResult(result: string, profitR: real, bars: nat, peakR: Option<real>)

  /** What variant C reports about the production partial trail. */
  function VariantC(bars: seq<Bar>, slR: real, partialAt: real, trailR: real): VariantResult {
    var o := FixedExit(bars, slR, partialAt, trailR);
    var r, a := HalfTrail(bars, slR, partialAt, trailR), ArmIndex(bars, slR, partialAt);
    if !Fills(bars, slR, partialAt) then
      if o.Fired? then VariantResult("LOSS", r, o.bar + 1, None) else VariantResult("TIMEOUT", r, |bars|, None)
    else
      assert o.Fired? ==> a <= o.bar < |bars|;
      if o.Fired? then VariantResult("TRAIL", r, o.bar + 1, Some(PeakFav(bars, a, o.bar)))
      else VariantResult("TIMEOUT_T", r, |bars|, Some(LastPeak(bars, slR, partialAt)))
  }

  method ExitVariantC(excursion: seq<Exc>, slR: real := 1.0, partialAt: real := 1.0, trailR: real := 1.5)
    returns (v: VariantResult)
    ensures v == VariantC(AsBars(excursion), slR, partialAt, trailR)
  {
    var partialFilled, peakFav := false, 0.0;
    ghost var bars, a := AsBars(excursion), 0;
    for j := 0 to |excursion|
      invariant LoopState(bars, slR, partialAt, trailR, j, partialFilled, a, peakFav)
    {
      var bar := excursion[j];
      if !partialFilled {
        if bar.adv >= slR { return VariantResult("LOSS", -slR, j + 1, None); }
        if bar.fav >= partialAt {
          partialFilled, peakFav := true, bar.fav;
          a := j;
        }
      } else {
        peakFav := Max(peakFav, bar.fav);
        var drawbackFromPeak := peakFav - bar.fav;
        if drawbackFromPeak >= trailR || bar.adv >= 0.0 {
          assert FixedFires(bars, trailR, a, j);
          var trailExit := Max(0.0, peakFav - trailR);
          return VariantResult("TRAIL", partialAt * 0.5 + trailExit * 0.5, j + 1, Some(peakFav));
        }
      }
    }
    if partialFilled {
      var trailExit := Max(0.0, peakFav - trailR);
      return VariantResult("TIMEOUT_T", partialAt * 0.5 + trailExit * 0.5, |excursion|, Some(peakFav));
    }
    return VariantResult("TIMEOUT", 0.0, |excursion|, None);
  }

  /** The later copy never pays more, and pays less exactly when the window runs out below the trail. */
  lemma LooseNeverPaysMore(bars: seq<Bar>, slR: real, partialAt: real, trailR: real)
    requires partialAt > 0.0
    ensures LooseHalfTrail(bars, slR, partialAt, trailR) <= HalfTrail(bars, slR, partialAt, trailR)
    ensures LooseHalfTrail(bars, slR, partialAt, trailR) < HalfTrail(bars, slR, partialAt, trailR)
      <==> RunsOut(bars, slR, partialAt, trailR) && LastPeak(bars, slR, partialAt) < trailR
  {
    if RunsOut(bars, slR, partialAt, trailR) {
      var peak := LastPeak(bars, slR, partialAt);
      assert FixedExit(bars, slR, partialAt, trailR).r == Max(0.0, peak - trailR);
    }
  }

  // ---------- Fixed target and stop; the production dispatch ----------

  /** Pay-off at the first bar that resolves the trade, the stop taking priority. */
  function BaselineFrom(exc: seq<Exc>, tpR: real, slR: real, j: nat): (o: Outcome)
    requires j <= |exc|
    ensures o.Fired? ==> j <= o.bar < |exc| && (exc[o.bar].adv >= slR || exc[o.bar].fav >= tpR)
    ensures o.Fired? ==> o.r == (if exc[o.bar].adv >= slR then -slR else tpR)
    ensures o.Fired? ==> forall i :: j <= i < o.bar ==> exc[i].adv < slR && exc[i].fav < tpR
    ensures o.Expired? ==> o.r == 0.0 && forall i :: j <= i < |exc| ==> exc[i].adv < slR && exc[i].fav < tpR
    decreases |exc| - j
  {
    if j == |exc| then Expired(0.0)
    else if exc[j].adv >= slR then Fired(j, -slR)
    else if exc[j].fav >= tpR then Fired(j, tpR)
    else BaselineFrom(exc, tpR, slR, j + 1)
  }

  method ExitBaseline(exc: seq<Exc>, tpR: real := 2.0, slR: real := 1.0) returns (r: real)
    ensures r == BaselineFrom(exc, tpR, slR, 0).r
  {
    for j := 0 to |exc|
      invariant BaselineFrom(exc, tpR, slR, 0) == BaselineFrom(exc, tpR, slR, j)
    {
      if exc[j].adv >= slR { return -slR; }
      if exc[j].fav >= tpR { return tpR; }
    }
    return 0.0;
  }

  function Dynamic(exc: seq<Exc>, isExpNy: bool): real {
    if isExpNy then BaselineFrom(exc, 2.0, 1.0, 0).r else LooseHalfTrail(AsBars(exc), 1.0, 1.0, 1.5)
  }

  /** The dispatching form. */
  method ExitDynamic(exc: seq<Exc>, isExpNy: bool) returns (r: real)
    ensures r == Dynamic(exc, isExpNy)
  {
    if isExpNy {
      r := ExitBaseline(exc, 2.0, 1.0);
    } else {
      r := ExitPartialTrailLoose(exc, 1.0, 1.0, 1.5);
    }
  }

  /** The form with the partial trail written out with literal constants; it computes the same pay-off. */
  method ExitDynamicInlined(exc: seq<Exc>, isExpNy: bool) returns (r: real)
    ensures r == Dynamic(exc, isExpNy)
  {
    if isExpNy {
      r := ExitBaseline(exc, 2.0, 1.0);
      return;
    }
    var partialFilled, peak := false, 0.0;
    ghost var bars, a := AsBars(exc), 0;
    for j := 0 to |exc|
      invariant LoopState(bars, 1.0, 1.0, 1.5, j, partialFilled, a, peak)
    {
      var fav, adv := exc[j].fav, exc[j].adv;
      if !partialFilled {
        if adv >= 1.0 { return -1.0; }
        if fav >= 1.0 {
          partialFilled, peak := true, fav;
          a := j;
        }
      } else {
        peak := Max(peak, fav);
        var drawback := peak - fav;
        if drawback >= 1.5 || adv >= 0.0 {
          assert FixedFires(bars, 1.5, a, j);
          var trailExit := Max(0.0, peak - 1.5);
          return 1.0 * 0.5 + trailExit * 0.5;
        }
      }
    }
    if partialFilled { return Max(0.0, 1.0 * 0.5 + (peak - 1.5) * 0.5); }
    return 0.0;
  }

  // ---------- Runner ----------

  /** Best favourable excursion over bars 0..j, never below zero. */
  function RunningPeak(exc: seq<Exc>, j: nat): real
    requires j <= |exc|
  {
    if j == 0 then 0.0 else Max(RunningPeak(exc, j - 1), exc[j - 1].fav)
  }

  predicate RunnerFires(exc: seq<Exc>, slR: real, start: real, dist: real, j: nat) {
    j < |exc| &&
    (exc[j].adv >= slR ||
     (RunningPeak(exc, j + 1) >= start && RunningPeak(exc, j + 1) - exc[j].fav >= dist))
  }

  function RunnerFrom(exc: seq<Exc>, slR: real, start: real, dist: real, j: nat): (o: Outcome)
    requires j <= |exc|
    ensures o.Fired? ==> j <= o.bar < |exc|
    decreases |exc| - j
  {
    if j == |exc| then
      Expired(if j > 0 && RunningPeak(exc, j) >= start then Max(0.0, RunningPeak(exc, j) - dist) else 0.0)
    else if RunnerFires(exc, slR, start, dist, j) then
      Fired(j, if exc[j].adv >= slR then -slR else Max(0.0, RunningPeak(exc, j + 1) - dist))
    else RunnerFrom(exc, slR, start, dist, j + 1)
  }

  /** The flag `trailing` is only a latch for "the running peak has reached the start level". */
  method ExitRunner(exc: seq<Exc>, slR: real := 1.0, trailStart: real := 1.5, trailDist: real := 1.0)
    returns (r: real)
    ensures r == RunnerFrom(exc, slR, trailStart, trailDist, 0).r
  {
    var peak, trailing := 0.0, false;
    for j := 0 to |exc|
      invariant peak == RunningPeak(exc, j) && trailing == (j > 0 && peak >= trailStart)
      invariant RunnerFrom(exc, slR, trailStart, trailDist, 0) == RunnerFrom(exc, slR, trailStart, trailDist, j)
    {
      var fav, adv := exc[j].fav, exc[j].adv;
      if adv >= slR { return -slR; }
      peak := Max(peak, fav);
      if !trailing && peak >= trailStart { trailing := true; }
      if trailing {
        if peak - fav >= trailDist { return Max(0.0, peak - trailDist); }
      }
    }
    if trailing { return Max(0.0, peak - trailDist); }
    return 0.0;
  }

  /** What variant D reports about the production runner. */
  function VariantD(exc: seq<Exc>, slR: real, start: real, dist: real): VariantResult {
    match RunnerFrom(exc, slR, start, dist, 0)
    case Fired(j, r) =>
      if exc[j].adv >= slR then VariantResult("LOSS", r, j + 1, None)
      else VariantResult("TRAIL", r, j + 1, Some(RunningPeak(exc, j + 1)))
    case Expired(r) =>
      if exc != [] && RunningPeak(exc, |exc|) >= start
      then VariantResult("TIMEOUT_T", r, |exc|, Some(RunningPeak(exc, |exc|)))
      else VariantResult("TIMEOUT", r, |exc|, None)
  }

  method ExitVariantD(excursion: seq<Exc>, slR: real := 1.0, trailStart: real := 1.5, trailDistance: real := 1.0)
    returns (v: VariantResult)
    ensures v == VariantD(excursion, slR, trailStart, trailDistance)
  {
    var peakFav, trailing := 0.0, false;
    for j := 0 to |excursion|
      invariant peakFav == RunningPeak(excursion, j) && trailing == (j > 0 && peakFav >= trailStart)
      invariant RunnerFrom(excursion, slR, trailStart, trailDistance, 0)
             == RunnerFrom(excursion, slR, trailStart, trailDistance, j)
    {
      var bar := excursion[j];
      if bar.adv >= slR { return VariantResult("LOSS", -slR, j + 1, None); }
      peakFav := Max(peakFav, bar.fav);
      if !trailing && peakFav >= trailStart { trailing := true; }
      if trailing {
        var drawback := peakFav - bar.fav;
        if drawback >= trailDistance {
          return VariantResult("TRAIL", Max(0.0, peakFav - trailDistance), j + 1, Some(peakFav));
        }
      }
    }
    if trailing {
      return VariantResult("TIMEOUT_T", Max(0.0, peakFav - trailDistance), |excursion|, Some(peakFav));
    }
    return VariantResult("TIMEOUT", 0.0, |excursion|, None);
  }

  /** A runner that ever reached its trail start and is not stopped out keeps at least trailStart - trailDist. */
  lemma {:induction false} RunnerKeepsTrail(exc: seq<Exc>, slR: real, start: real, dist: real, j: nat)
    requires j <= |exc| && RunningPeak(exc, j) >= start && j > 0
    ensures var o := RunnerFrom(exc, slR, start, dist, j);
      o.r >= Max(0.0, start - dist) || (o.Fired? && exc[o.bar].adv >= slR && o.r == -slR)
    decreases |exc| - j
  {
    if j < |exc| && !RunnerFires(exc, slR, start, dist, j) {
      RunnerKeepsTrail(exc, slR, start, dist, j + 1);
    }
  }

  /** Unlike the trailing exits above, a runner keeps its initial stop for good: it can lose after any peak. */
  lemma RunnerCanLoseAfterAnyPeak(peak: real, slR: real, start: real, dist: real)
    requires slR > 0.0 && dist > 0.0 && peak >= start > 0.0
    ensures RunnerFrom([Exc(peak, -peak), Exc(peak, slR)], slR, start, dist, 0).r == -slR
  {
    var exc := [Exc(peak, -peak), Exc(peak, slR)];
    assert RunningPeak(exc, 1) == peak;
    assert !RunnerFires(exc, slR, start, dist, 0);
    assert RunnerFires(exc, slR, start, dist, 1);
  }

  // ---------- The improved NAS exit ----------

  /** Replay from bar i; `partial` is the peak since the half position was closed at 0.5R, if it was. */
  function NasFrom(exc: seq<Exc>, slR: real, i: nat, partial: Option<real>): Outcome
    requires i <= |exc|
    decreases |exc| - i
  {
    if i == |exc| then
      Expired(if partial.None? then 0.0 else if i == 0 then 0.25 else 0.25 + exc[i - 1].fav * 0.5)
    else
      var e := exc[i];
      if e.adv >= slR then Fired(i, if partial.Some? then 0.25 - slR * 0.5 else -slR)
      else if partial.None? && e.fav >= 0.5 then NasFrom(exc, slR, i + 1, Some(e.fav))
      else
        var partial' := if partial.Some? then Some(Max(partial.value, e.fav)) else None;
        if partial'.Some? && partial'.value - e.fav >= 1.0 then
          Fired(i, 0.25 + Max(0.0, partial'.value - 1.0) * 0.5)
        else if i >= 20 then Fired(i, if partial'.Some? then 0.25 + e.fav * 0.5 else e.fav)
        else NasFrom(exc, slR, i + 1, partial')
  }

  method ExitNasImproved(exc: seq<Exc>, slR: real := 1.0) returns (r: real)
    ensures r == NasFrom(exc, slR, 0, None).r
  {
    var partialTaken, peak := false, 0.0;
    for i := 0 to |exc|
      invariant i == 0 ==> !partialTaken
      invariant NasFrom(exc, slR, 0, None) == NasFrom(exc, slR, i, if partialTaken then Some(peak) else None)
    {
      var fav, adv := exc[i].fav, exc[i].adv;
      if adv >= slR {
        if partialTaken { return 0.5 * 0.5 + (-slR) * 0.5; }
        return -slR;
      }
      if !partialTaken && fav >= 0.5 {
        partialTaken, peak := true, fav;
        continue;
      }
      if partialTaken {
        peak := Max(peak, fav);
        var drawback := peak - fav;
        if drawback >= 1.0 { return 0.5 * 0.5 + Max(0.0, peak - 1.0) * 0.5; }
      }
      if i >= 20 {
        if partialTaken { return 0.5 * 0.5 + fav * 0.5; }
        return if fav > 0.0 then fav else Min(0.0, fav);
      }
    }
    if partialTaken {
      var lastFav := if |exc| > 0 then exc[|exc| - 1].fav else 0.0;
      return 0.5 * 0.5 + lastFav * 0.5;
    }
    return 0.0;
  }

  /** Every outcome lies between a full loss and the best excursion, and above 0.25 - slR/2 after the partial.
      Windows of real bars satisfy the hypothesis: fav + adv is the bar's range over the risk. */
  lemma {:induction false} NasBounds(exc: seq<Exc>, slR: real, i: nat, partial: Option<real>)
    requires slR >= 0.0 && i <= |exc|
    requires forall e :: e in exc ==> e.fav + e.adv >= 0.0
    requires partial.Some? ==> i > 0 && 0.5 <= partial.value <= BestFav(AsBars(exc)) && exc[i - 1].fav > -slR
    ensures var r := NasFrom(exc, slR, i, partial).r;
      -slR <= r <= BestFav(AsBars(exc)) && (partial.Some? ==> r >= 0.25 - slR * 0.5)
    decreases |exc| - i
  {
    var best := BestFav(AsBars(exc));
    BestFavNonNegative(AsBars(exc));
    if i > 0 { BestFavBounds(AsBars(exc), i - 1); }
    if i < |exc| {
      var e := exc[i];
      assert e in exc;
      BestFavBounds(AsBars(exc), i);
      if e.adv < slR {
        if partial.None? && e.fav >= 0.5 {
          NasBounds(exc, slR, i + 1, Some(e.fav));
        } else if i < 20 {
          var partial' := if partial.Some? then Some(Max(partial.value, e.fav)) else None;
          if !(partial'.Some? && partial'.value - e.fav >= 1.0) {
            NasBounds(exc, slR, i + 1, partial');
          }
        }
      }
    }
  }

  /** Bars below the partial target and never stopped only pass the time until the partial is taken. */
  lemma {:induction false} NasReachesPartial(exc: seq<Exc>, slR: real, i: nat, k: nat)
    requires i <= k < |exc| && k <= 20 && exc[k].fav >= 0.5
    requires forall j :: i <= j < k ==> exc[j].fav < 0.5
    requires forall j :: i <= j <= k ==> exc[j].adv < slR
    ensures NasFrom(exc, slR, i, None) == NasFrom(exc, slR, k + 1, Some(exc[k].fav))
    decreases k - i
  {
    if i < k { NasReachesPartial(exc, slR, i + 1, k); }
  }

  /** A trade that reaches 0.5R, unstopped, while the exit still waits keeps at least 0.25 - slR/2. */
  lemma NasFloorAfterPartial(exc: seq<Exc>, slR: real, k: nat)
    requires slR >= 0.0 && forall e :: e in exc ==> e.fav + e.adv >= 0.0
    requires k < |exc| && k <= 20 && exc[k].fav >= 0.5
    requires forall j :: 0 <= j < k ==> exc[j].fav < 0.5
    requires forall j :: 0 <= j <= k ==> exc[j].adv < slR
    ensures NasFrom(exc, slR, 0, None).r >= 0.25 - slR * 0.5
  {
    NasReachesPartial(exc, slR, 0, k);
    BestFavBounds(AsBars(exc), k);
    NasBounds(exc, slR, k + 1, Some(exc[k].fav));
  }

  /** The trade is decided by bar index 21: later bars are never looked at. */
  lemma {:induction false} NasDecidesEarly(a: seq<Exc>, b: seq<Exc>, slR: real, i: nat, partial: Option<real>)
    requires |a| >= 22 && |b| >= 22 && a[..22] == b[..22]
    requires i <= 21 && (i == 21 ==> partial.Some?)
    ensures NasFrom(a, slR, i, partial) == NasFrom(b, slR, i, partial)
    ensures NasFrom(a, slR, i, partial).Fired? && NasFrom(a, slR, i, partial).bar <= 21
    decreases 22 - i
  {
    assert a[i] == a[..22][i] == b[..22][i] == b[i];
    var e := a[i];
    if e.adv < slR {
      if partial.None? && e.fav >= 0.5 {
        NasDecidesEarly(a, b, slR, i + 1, Some(e.fav));
      } else if i < 20 {
        NasDecidesEarly(a, b, slR, i + 1, if partial.Some? then Some(Max(partial.value, e.fav)) else None);
      }
    }
  }
}
