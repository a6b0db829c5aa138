/** What the exits of the other scripts do, told bar by bar. */
module CopyMeaning {
  import opened Common
  import opened Excursion
  import opened Exits
  import opened ExitCopies
  import opened ExitMeaning

  // ---------- Partial and trail ----------

  /** Once the partial is filled at bar a, both halves add up: the target, and the fixed trail from there on. */
  lemma HalfTrailPaysExactly(bars: seq<Bar>, slR: real, partialAt: real, trailR: real, a: nat) returns (trail: real)
    requires Armed(bars, slR, partialAt, a)
    ensures var o := FixedExit(bars, slR, partialAt, trailR);
      && HalfTrail(bars, slR, partialAt, trailR) == partialAt * 0.5 + trail * 0.5
      && BestFavLess(bars, trailR, a, LastSeen(bars, o), trail)
  {
    ArmedIsArmedAt(bars, slR, partialAt, a);
    FixedPaysExactly(bars, slR, partialAt, trailR, a);
    trail := FixedExit(bars, slR, partialAt, trailR).r;
  }

  /** A window that runs out pays, in the later copy, the best sum of both halves, floored at zero. */
  lemma LooseTrailPaysExactly(bars: seq<Bar>, slR: real, partialAt: real, trailR: real, a: nat)
    requires Armed(bars, slR, partialAt, a) && FixedExit(bars, slR, partialAt, trailR).Expired?
    ensures var r := LooseHalfTrail(bars, slR, partialAt, trailR);
      && r >= 0.0
      && (forall i :: a <= i < |bars| ==> r >= partialAt * 0.5 + (bars[i].fav - trailR) * 0.5)
      && (r == 0.0 || exists i :: a <= i < |bars| && r == partialAt * 0.5 + (bars[i].fav - trailR) * 0.5)
  {
    ArmedIsArmedAt(bars, slR, partialAt, a);
    var best := PeakFavIsBest(bars, a, |bars| - 1);
  }

  /** Before the partial is filled both copies do what the fixed trail does. */
  lemma UnfilledPays(bars: seq<Bar>, slR: real, partialAt: real, trailR: real)
    requires forall a: nat :: !Armed(bars, slR, partialAt, a)
    ensures HalfTrail(bars, slR, partialAt, trailR) == LooseHalfTrail(bars, slR, partialAt, trailR)
         == FixedExit(bars, slR, partialAt, trailR).r
    ensures FixedExit(bars, slR, partialAt, trailR).r
         == if exists s: nat :: Stopped(bars, slR, partialAt, s) then -slR else 0.0
  {
    FirstEvent(bars, slR, partialAt);
    if s: nat :| Stopped(bars, slR, partialAt, s) {
      assert Decides(bars[s], slR, partialAt);
    }
  }

  /** In expansion sessions of New York the fixed target is 2; elsewhere half is taken at 1 and half trails by 1.5. */
  lemma DynamicConstants()
    ensures Dynamic([Exc(2.0, 0.5)], true) == 2.0 && Dynamic([Exc(1.9, 0.5), Exc(0.0, 1.0)], true) == -1.0
    ensures Dynamic([Exc(4.0, -1.0), Exc(2.5, -1.0)], false) == 1.75
    ensures Dynamic([Exc(0.9, 0.5), Exc(0.0, 1.0)], false) == -1.0
  {
    var trails, stops := AsBars([Exc(4.0, -1.0), Exc(2.5, -1.0)]), AsBars([Exc(0.9, 0.5), Exc(0.0, 1.0)]);
    assert BaselineFrom([Exc(1.9, 0.5), Exc(0.0, 1.0)], 2.0, 1.0, 1).r == -1.0;
    assert ArmFrom(trails, 1.0, 1.0, 0) == 0;
    assert PeakFav(trails, 0, 1) == 4.0 && FixedFires(trails, 1.5, 0, 1);
    assert FixedExit(trails, 1.0, 1.0, 1.5) == Fired(1, 2.5);
    assert ArmFrom(stops, 1.0, 1.0, 0) == ArmFrom(stops, 1.0, 1.0, 1) == 1;
  }

  // ---------- Runner ----------

  /** The excursions have reached the start level, which a level at or below zero is from the outset. */
  ghost predicate Started(exc: seq<Exc>, start: real, j: int)
    requires j < |exc|
  {
    start <= 0.0 || exists i :: 0 <= i <= j && exc[i].fav >= start
  }

  /** A started runner lies the distance below some excursion, or below the entry. */
  ghost predicate RunnerGivesBack(exc: seq<Exc>, start: real, dist: real, j: nat)
    requires j < |exc|
  {
    Started(exc, start, j) && (-exc[j].fav >= dist || exists i :: 0 <= i <= j && exc[i].fav - exc[j].fav >= dist)
  }

  /** r is the best excursion so far, or the entry, less the distance, floored at zero. */
  ghost predicate BestRunLess(exc: seq<Exc>, dist: real, last: int, r: real)
    requires last < |exc|
  {
    r >= 0.0 && r >= -dist && (forall i :: 0 <= i <= last ==> r >= exc[i].fav - dist) &&
    (r == 0.0 || r == -dist || exists i :: 0 <= i <= last && r == exc[i].fav - dist)
  }

  lemma {:induction false} RunningPeakIsBest(exc: seq<Exc>, j: nat) returns (best: nat)
    requires j <= |exc|
    ensures RunningPeak(exc, j) >= 0.0 && forall i :: 0 <= i < j ==> exc[i].fav <= RunningPeak(exc, j)
    ensures RunningPeak(exc, j) == 0.0 || (best < j && RunningPeak(exc, j) == exc[best].fav)
  {
    best := 0;
    if j > 0 {
      best := RunningPeakIsBest(exc, j - 1);
      if RunningPeak(exc, j) == exc[j - 1].fav { best := j - 1; }
    }
  }

  lemma RunnerFiresMeans(exc: seq<Exc>, slR: real, start: real, dist: real, j: nat)
    requires j < |exc|
    ensures RunnerFires(exc, slR, start, dist, j) <==> exc[j].adv >= slR || RunnerGivesBack(exc, start, dist, j)
  {
    var best := RunningPeakIsBest(exc, j + 1);
  }

  /** The runner is closed by the first bar that hits the stop, or gives back once started; the stop costs slR, and
      otherwise a started runner is paid its best excursion less the distance. */
  ghost predicate RunnerPays(exc: seq<Exc>, slR: real, start: real, dist: real, o: Outcome) {
    match o
    case Fired(x, r) =>
      x < |exc| && (exc[x].adv >= slR || RunnerGivesBack(exc, start, dist, x)) &&
      (forall j :: 0 <= j < x ==> exc[j].adv < slR && !RunnerGivesBack(exc, start, dist, j)) &&
      if exc[x].adv >= slR then r == -slR else BestRunLess(exc, dist, x, r)
    case Expired(r) =>
      (forall j :: 0 <= j < |exc| ==> exc[j].adv < slR && !RunnerGivesBack(exc, start, dist, j)) &&
      if exc != [] && Started(exc, start, |exc| - 1) then BestRunLess(exc, dist, |exc| - 1, r) else r == 0.0
  }

  lemma {:induction false} RunnerPaysExactly(exc: seq<Exc>, slR: real, start: real, dist: real, j: nat)
    requires j <= |exc|
    requires forall i :: 0 <= i < j ==> exc[i].adv < slR && !RunnerGivesBack(exc, start, dist, i)
    ensures RunnerPays(exc, slR, start, dist, RunnerFrom(exc, slR, start, dist, j))
    decreases |exc| - j
  {
    if j == |exc| {
      var best := RunningPeakIsBest(exc, j);
    } else {
      RunnerFiresMeans(exc, slR, start, dist, j);
      var best := RunningPeakIsBest(exc, j + 1);
      if !RunnerFires(exc, slR, start, dist, j) { RunnerPaysExactly(exc, slR, start, dist, j + 1); }
    }
  }

  // ---------- The improved NAS exit ----------

  /** The half position is closed at bar k: the first to reach 0.5, by index 20, unstopped until then. */
  ghost predicate NasTakes(exc: seq<Exc>, slR: real, k: nat) {
    k < |exc| && k <= 20 && exc[k].fav >= 0.5 &&
    (forall j :: 0 <= j < k ==> exc[j].fav < 0.5) && forall j :: 0 <= j <= k ==> exc[j].adv < slR
  }

  /** The bar lies 1.0 or more below an excursion since bar k. */
  ghost predicate NasGivesBack(exc: seq<Exc>, k: nat, j: nat)
    requires k <= j < |exc|
  {
    exists i :: k <= i <= j && exc[i].fav - exc[j].fav >= 1.0
  }

  ghost predicate NasEnds(exc: seq<Exc>, slR: real, k: nat, j: nat)
    requires k <= j < |exc|
  {
    exc[j].adv >= slR || NasGivesBack(exc, k, j) || j >= 20
  }

  /** r is 0.25 plus half of the best excursion of bars k..x less 1.0, floored at zero. */
  ghost predicate NasTrailPays(exc: seq<Exc>, k: nat, x: nat, r: real)
    requires k <= x < |exc|
  {
    r >= 0.25 && (forall i :: k <= i <= x ==> r >= 0.25 + (exc[i].fav - 1.0) * 0.5) &&
    (r == 0.25 || exists i :: k <= i <= x && r == 0.25 + (exc[i].fav - 1.0) * 0.5)
  }

  /** After the partial at bar k: the first later bar that is stopped, gives back, or has index 20 or more ends the
      trade, in this order of priority; otherwise the window does, at its last excursion. */
  ghost predicate NasPays(exc: seq<Exc>, slR: real, k: nat, o: Outcome) {
    match o
    case Fired(x, r) =>
      k < x < |exc| && NasEnds(exc, slR, k, x) && (forall j :: k < j < x ==> !NasEnds(exc, slR, k, j)) &&
      (if exc[x].adv >= slR then r == 0.25 - slR * 0.5
       else if NasGivesBack(exc, k, x) then NasTrailPays(exc, k, x, r)
       else r == 0.25 + exc[x].fav * 0.5)
    case Expired(r) =>
      k < |exc| && (forall j :: k < j < |exc| ==> !NasEnds(exc, slR, k, j)) && r == 0.25 + exc[|exc| - 1].fav * 0.5
  }

  lemma {:induction false} NasRuns(exc: seq<Exc>, slR: real, k: nat, i: nat, best: nat)
    requires k <= best < i <= |exc| && forall j :: k <= j < i ==> exc[j].fav <= exc[best].fav
    requires forall j :: k < j < i ==> !NasEnds(exc, slR, k, j)
    ensures NasPays(exc, slR, k, NasFrom(exc, slR, i, Some(exc[best].fav)))
    decreases |exc| - i
  {
    if i < |exc| {
      var best' := if exc[i].fav > exc[best].fav then i else best;
      assert Max(exc[best].fav, exc[i].fav) == exc[best'].fav;
      assert NasGivesBack(exc, k, i) <==> exc[best'].fav - exc[i].fav >= 1.0;
      if !NasEnds(exc, slR, k, i) { NasRuns(exc, slR, k, i + 1, best'); }
    }
  }

  lemma NasPaysExactly(exc: seq<Exc>, slR: real, k: nat)
    requires NasTakes(exc, slR, k)
    ensures NasPays(exc, slR, k, NasFrom(exc, slR, 0, None))
  {
    NasReachesPartial(exc, slR, 0, k);
    NasRuns(exc, slR, k, k + 1, k);
  }

  /** Without the partial: the stop costs slR, the bar of index 20 pays its excursion, and a shorter window nothing. */
  lemma {:induction false} NasWithoutPartial(exc: seq<Exc>, slR: real, i: nat, x: nat)
    requires i <= x <= |exc| && x <= 20
    requires forall j :: i <= j < x ==> exc[j].adv < slR && exc[j].fav < 0.5
    requires x < |exc| ==> exc[x].adv >= slR || (x == 20 && exc[x].fav < 0.5)
    ensures NasFrom(exc, slR, i, None)
         == if x == |exc| then Expired(0.0) else Fired(x, if exc[x].adv >= slR then -slR else exc[x].fav)
    decreases x - i
  {
    if i < x { NasWithoutPartial(exc, slR, i + 1, x); }
  }
}
