/** Theorems about the trailing exits: ratchet, causality and mirror symmetry. */
module ExitTheorems {
  import opened Common
  import opened Prices
  import opened Excursion
  import opened Exits

  // ---------- The trail is the best confirmed swing ----------

  /** The from-scratch trail is the best of the entry and all pivots below m, and it is one of them. */
  lemma {:induction false} TrailIsBest(bars: seq<Bar>, dir: Direction, entry: real, n: nat, m: nat)
    ensures var t := Trail(bars, Plain, dir, entry, n, m);
      && !Ahead(dir, entry, t)
      && (forall s: nat :: s < m && IsPivot(bars, dir, n, s) ==> !Ahead(dir, Far(dir, bars[s]), t))
      && (t == entry || exists s: nat :: s < m && IsPivot(bars, dir, n, s) && t == Far(dir, bars[s]))
  {
    if m > 0 {
      TrailIsBest(bars, dir, entry, n, m - 1);
    }
  }

  /** As bars pass, the trail only moves in the trade's favour. */
  lemma {:induction false} TrailRatchets(bars: seq<Bar>, dir: Direction, entry: real, n: nat, m: nat, k: nat)
    requires m <= k
    ensures !Ahead(dir, Trail(bars, Plain, dir, entry, n, m), Trail(bars, Plain, dir, entry, n, k))
  {
    if m < k { TrailRatchets(bars, dir, entry, n, m, k - 1); }
  }

  /** `trail or entry` is harmless for short trades and for entries at or above zero. */
  lemma {:induction false} OrEntryAgrees(bars: seq<Bar>, dir: Direction, entry: real, n: nat, m: nat)
    requires dir.SHORT? || entry >= 0.0
    ensures Trail(bars, OrEntry, dir, entry, n, m) == Trail(bars, Plain, dir, entry, n, m)
  {
    if m > 0 {
      OrEntryAgrees(bars, dir, entry, n, m - 1);
      TrailIsBest(bars, dir, entry, n, m - 1);
    }
  }

  function Flat(lo: real): Bar { Bar(1.0, lo, lo, 0.0, 0.0, 0.0) }

  function DipAt(entry: real, n: nat, i: int): real {
    if i == n then 0.0 else if i == 2 * n + 1 then entry / 2.0 else 1.0
  }

  /** Two swing lows, at zero and half-way down to a negative entry, each n bars from its neighbours. */
  function ZeroThenBelow(entry: real, n: nat): seq<Bar> {
    seq(3 * n + 2, i requires 0 <= i < 3 * n + 2 => Flat(DipAt(entry, n, i)))
  }

  lemma DipPivots(entry: real, n: nat, s: nat)
    requires entry < 0.0
    ensures IsPivot(ZeroThenBelow(entry, n), LONG, n, s) <==> s == n || s == 2 * n + 1
  {
    var bars := ZeroThenBelow(entry, n);
    assert forall i :: 0 <= i < |bars| ==> bars[i].lo == DipAt(entry, n, i);
    if s != n && s != 2 * n + 1 && n <= s < |bars| - n {
      assert bars[if s <= 2 * n then n else 2 * n + 1].lo <= bars[s].lo;
    }
  }

  lemma {:induction false} NoPivotSpan(bars: seq<Bar>, rule: Rule, entry: real, n: nat, m: nat, k: nat)
    requires m <= k && forall s: nat :: m <= s < k ==> !IsPivot(bars, LONG, n, s)
    ensures Trail(bars, rule, LONG, entry, n, k) == Trail(bars, rule, LONG, entry, n, m)
  {
    if m < k { NoPivotSpan(bars, rule, entry, n, m, k - 1); }
  }

  /** A swing at zero, then one half-way down to the entry: the hybrid's rule falls back, the plain one does not. */
  lemma TwoSwings(bars: seq<Bar>, rule: Rule, entry: real, n: nat, m: nat)
    requires entry < 0.0 && 2 * n + 2 <= m && 2 * n + 2 <= |bars|
    requires forall s: nat :: IsPivot(bars, LONG, n, s) <==> s == n || s == 2 * n + 1
    requires bars[n].lo == 0.0 && bars[2 * n + 1].lo == entry / 2.0
    ensures Trail(bars, rule, LONG, entry, n, n + 1) == 0.0
    ensures Trail(bars, rule, LONG, entry, n, m) == if rule == OrEntry then entry / 2.0 else 0.0
  {
    NoPivotSpan(bars, rule, entry, n, 0, n);
    assert Trail(bars, rule, LONG, entry, n, n + 1) == 0.0;
    NoPivotSpan(bars, rule, entry, n, n + 1, 2 * n + 1);
    assert Trail(bars, rule, LONG, entry, n, 2 * n + 2) == if rule == OrEntry then entry / 2.0 else 0.0;
    NoPivotSpan(bars, rule, entry, n, 2 * n + 2, m);
  }

  lemma DipTrail(entry: real, n: nat, rule: Rule)
    requires entry < 0.0
    ensures var bars := ZeroThenBelow(entry, n);
      Trail(bars, rule, LONG, entry, n, n + 1) == 0.0 &&
      Trail(bars, rule, LONG, entry, n, 3 * n + 2) == if rule == OrEntry then entry / 2.0 else 0.0
  {
    var bars := ZeroThenBelow(entry, n);
    forall s: nat ensures IsPivot(bars, LONG, n, s) <==> s == n || s == 2 * n + 1 {
      DipPivots(entry, n, s);
    }
    TwoSwings(bars, rule, entry, n, 3 * n + 2);
  }

  /** Below zero the hybrid's comparison lets the trail of a long trade fall back from 0 towards the entry,
      where the plain one stays. */
  lemma OrEntryRetreats(entry: real, n: nat)
    requires entry < 0.0
    ensures var bars := ZeroThenBelow(entry, n);
      && Trail(bars, OrEntry, LONG, entry, n, n + 1) == Trail(bars, Plain, LONG, entry, n, n + 1) == 0.0
      && Trail(bars, OrEntry, LONG, entry, n, 3 * n + 2) == entry / 2.0
      && Trail(bars, Plain, LONG, entry, n, 3 * n + 2) == 0.0
  {
    DipTrail(entry, n, OrEntry);
    DipTrail(entry, n, Plain);
  }

  /** For every pivot width: the hybrid's trail is the best confirmed swing on all windows exactly when the
      entry price is not negative. */
  lemma HybridTrailExact(entry: real, n: nat)
    ensures entry >= 0.0 <==>
      forall bars: seq<Bar>, m: nat ::
        Trail(bars, OrEntry, LONG, entry, n, m) == Trail(bars, Plain, LONG, entry, n, m)
  {
    if entry >= 0.0 {
      forall bars: seq<Bar>, m: nat
        ensures Trail(bars, OrEntry, LONG, entry, n, m) == Trail(bars, Plain, LONG, entry, n, m)
      {
        OrEntryAgrees(bars, LONG, entry, n, m);
      }
    } else {
      OrEntryRetreats(entry, n);
    }
  }

  // ---------- No lookahead ----------

  lemma {:induction false} TrailOfPrefix(a: seq<Bar>, b: seq<Bar>, rule: Rule, dir: Direction, entry: real,
                                         n: nat, m: nat)
    requires m == 0 || (m + n <= |a| && m + n <= |b| && a[..m + n] == b[..m + n])
    ensures Trail(a, rule, dir, entry, n, m) == Trail(b, rule, dir, entry, n, m)
  {
    if m > 0 {
      assert a[..m - 1 + n] == a[..m + n][..m - 1 + n] == b[..m - 1 + n];
      TrailOfPrefix(a, b, rule, dir, entry, n, m - 1);
      assert a[m - 1] == a[..m + n][m - 1] == b[m - 1];
      PivotNeedsOnlyNeighbours(a, b, dir, n, m - 1);
    }
  }

  /** The two windows show the same bars 0..j. */
  ghost predicate SameUpTo(a: seq<Bar>, b: seq<Bar>, j: nat) {
    j < |a| && j < |b| && a[..j + 1] == b[..j + 1]
  }

  lemma SameBars(a: seq<Bar>, b: seq<Bar>, j: nat)
    requires SameUpTo(a, b, j)
    ensures forall i :: 0 <= i <= j ==> a[i] == b[i]
  {
    forall i | 0 <= i <= j ensures a[i] == b[i] {
      assert a[..j + 1][i] == b[..j + 1][i];
    }
  }

  /** The trail in force at bar i, although read off swings of the whole window, needs only bars 0..i. */
  lemma TrailAtCausal(a: seq<Bar>, b: seq<Bar>, rule: Rule, dir: Direction, entry: real, n: nat, j: nat)
    requires SameUpTo(a, b, j)
    ensures forall i :: 0 <= i <= j ==> TrailAt(a, rule, dir, entry, n, i) == TrailAt(b, rule, dir, entry, n, i)
  {
    forall i: nat | i <= j ensures TrailAt(a, rule, dir, entry, n, i) == TrailAt(b, rule, dir, entry, n, i) {
      var m := Confirmed(n, i);
      if m > 0 {
        assert a[..m + n] == a[..j + 1][..m + n] == b[..m + n];
      }
      TrailOfPrefix(a, b, rule, dir, entry, n, m);
    }
  }

  /** Once armed before bar j, a trail phase that ends at bar j ends there, and at the same level, in both windows. */
  lemma PhaseCausal(a: seq<Bar>, b: seq<Bar>, rule: Rule, dir: Direction, entry: real, n: nat, s: nat, j: nat)
    requires SameUpTo(a, b, j) && s < j && TrailFrom(a, rule, dir, entry, n, s + 1) == j
    ensures TrailFrom(b, rule, dir, entry, n, s + 1) == j
    ensures LastTrail(b, rule, dir, entry, n, s) == LastTrail(a, rule, dir, entry, n, s)
  {
    SameBars(a, b, j);
    TrailAtCausal(a, b, rule, dir, entry, n, j);
    forall i | 0 <= i <= j ensures TrailFires(a, rule, dir, entry, n, i) == TrailFires(b, rule, dir, entry, n, i) {}
  }

  /** Arming and the partial, when they happen by bar j, are seen at the same bars. */
  lemma EventsCausal(a: seq<Bar>, b: seq<Bar>, slR: real, beAt: real, partialAt: real, j: nat)
    requires SameUpTo(a, b, j)
    ensures forall s :: 0 <= s <= j ==> a[s] == b[s]
    ensures ArmIndex(a, slR, beAt) <= j ==> ArmIndex(b, slR, beAt) == ArmIndex(a, slR, beAt)
    ensures forall s: nat :: s <= j && PartialFrom(a, partialAt, s) <= j ==>
      PartialFrom(b, partialAt, s) == PartialFrom(a, partialAt, s)
  {
    SameBars(a, b, j);
  }

  lemma StructureNoLookahead(a: seq<Bar>, b: seq<Bar>, entry: real, risk: real, dir: Direction,
                             slR: real, beAt: real, n: nat, j: nat)
    requires risk != 0.0 && SameUpTo(a, b, j)
    requires var o := StructureExit(a, entry, risk, dir, slR, beAt, n); o.Fired? && o.bar == j
    ensures StructureExit(b, entry, risk, dir, slR, beAt, n) == StructureExit(a, entry, risk, dir, slR, beAt, n)
  {
    EventsCausal(a, b, slR, beAt, 0.0, j);
    var s := ArmIndex(a, slR, beAt);
    if a[s].adv < slR {
      PhaseCausal(a, b, Plain, dir, entry, n, s, j);
    }
  }

  lemma HybridNoLookahead(a: seq<Bar>, b: seq<Bar>, entry: real, risk: real, dir: Direction, slR: real, beAt: real,
                          partialAt: real, pct: real, n: nat, j: nat)
    requires risk != 0.0 && SameUpTo(a, b, j)
    requires var o := HybridExit(a, entry, risk, dir, slR, beAt, partialAt, pct, n); o.Fired? && o.bar == j
    ensures HybridExit(b, entry, risk, dir, slR, beAt, partialAt, pct, n)
         == HybridExit(a, entry, risk, dir, slR, beAt, partialAt, pct, n)
  {
    EventsCausal(a, b, slR, beAt, partialAt, j);
    var s := ArmIndex(a, slR, beAt);
    if a[s].adv < slR {
      var p := PartialFrom(a, partialAt, s + 1);
      if a[p].fav >= partialAt {
        PhaseCausal(a, b, OrEntry, dir, entry, n, p, j);
      }
    }
  }

  lemma {:induction false} PeaksCausal(a: seq<Bar>, b: seq<Bar>, dir: Direction, s: nat, i: nat, j: nat)
    requires SameUpTo(a, b, j) && s <= i <= j
    ensures PeakFav(a, s, i) == PeakFav(b, s, i)
    ensures PeakClose(a, dir, s, i) == PeakClose(b, dir, s, i)
  {
    SameBars(a, b, j);
    if s < i { PeaksCausal(a, b, dir, s, i - 1, j); }
  }

  lemma AtrLevelCausal(a: seq<Bar>, b: seq<Bar>, dir: Direction, mult: real, s: nat, i: nat, j: nat)
    requires SameUpTo(a, b, j) && s <= i <= j
    ensures AtrLevel(a, dir, mult, s, i) == AtrLevel(b, dir, mult, s, i)
  {
    SameBars(a, b, j);
    PeaksCausal(a, b, dir, s, i, j);
  }

  lemma FixedNoLookahead(a: seq<Bar>, b: seq<Bar>, slR: real, beAt: real, dist: real, j: nat)
    requires SameUpTo(a, b, j)
    requires var o := FixedExit(a, slR, beAt, dist); o.Fired? && o.bar == j
    ensures FixedExit(b, slR, beAt, dist) == FixedExit(a, slR, beAt, dist)
  {
    EventsCausal(a, b, slR, beAt, 0.0, j);
    var s := ArmIndex(a, slR, beAt);
    if a[s].adv < slR {
      assert FixedFrom(a, dist, s, s + 1) == j;
      forall i | s <= i <= j
        ensures PeakFav(a, s, i) == PeakFav(b, s, i) && FixedFires(a, dist, s, i) == FixedFires(b, dist, s, i)
      {
        PeaksCausal(a, b, LONG, s, i, j);
      }
      assert FixedFrom(b, dist, s, s + 1) == j;
      assert PeakFav(a, s, j) == PeakFav(b, s, j);
    }
  }

  lemma AtrNoLookahead(a: seq<Bar>, b: seq<Bar>, entry: real, risk: real, dir: Direction,
                       slR: real, beAt: real, mult: real, j: nat)
    requires risk != 0.0 && SameUpTo(a, b, j)
    requires var o := AtrExit(a, entry, risk, dir, slR, beAt, mult); o.Fired? && o.bar == j
    ensures AtrExit(b, entry, risk, dir, slR, beAt, mult) == AtrExit(a, entry, risk, dir, slR, beAt, mult)
  {
    EventsCausal(a, b, slR, beAt, 0.0, j);
    var s := ArmIndex(a, slR, beAt);
    if a[s].adv < slR {
      assert AtrFrom(a, dir, mult, s, s + 1) == j;
      forall i | s <= i <= j
        ensures AtrLevel(a, dir, mult, s, i) == AtrLevel(b, dir, mult, s, i)
        ensures AtrFires(a, dir, mult, s, i) == AtrFires(b, dir, mult, s, i)
      {
        AtrLevelCausal(a, b, dir, mult, s, i, j);
      }
      assert AtrFrom(b, dir, mult, s, s + 1) == j;
      assert AtrLevel(a, dir, mult, s, j) == AtrLevel(b, dir, mult, s, j);
    }
  }

  // ---------- Mirror symmetry ----------

  function MirrorBar(b: Bar, entry: real): Bar {
    b.(hi := Reflect(entry, b.lo), lo := Reflect(entry, b.hi), cl := Reflect(entry, b.cl))
  }

  function Mirror(bars: seq<Bar>, entry: real): seq<Bar> {
    seq(|bars|, i requires 0 <= i < |bars| => MirrorBar(bars[i], entry))
  }

  /** Trading the reflected candles in the other direction measures the reflected window. */
  lemma WindowMirror(cache: seq<Candle>, i: nat, dir: Direction, maxBars: int)
    requires i < |cache| && RiskOf(cache[i]) != 0.0
    ensures var e := cache[i].cl;
      var cache' := MirrorSeries(cache, e);
      RiskOf(cache'[i]) == RiskOf(cache[i]) && cache'[i].cl == e &&
      Window(cache', i, dir.Flip(), maxBars) == Mirror(Window(cache, i, dir, maxBars), e)
  {
    var e := cache[i].cl;
    var cache' := MirrorSeries(cache, e);
    assert cache'[i].cl == e && cache'[i].atr == cache[i].atr;
    var w, w' := Window(cache, i, dir, maxBars), Window(cache', i, dir.Flip(), maxBars);
    forall k | 0 <= k < |w| ensures w'[k] == MirrorBar(w[k], e) {
      assert w'[k] == MakeBar(MirrorCandle(cache[i + 1 + k], e), dir.Flip(), e, RiskOf(cache[i]));
    }
    assert w' == Mirror(w, e);
  }

  lemma MirrorAhead(dir: Direction, entry: real, x: real, y: real)
    ensures Ahead(dir.Flip(), Reflect(entry, x), Reflect(entry, y)) == Ahead(dir, x, y)
  {
  }

  lemma MirrorPivots(bars: seq<Bar>, dir: Direction, entry: real, n: nat, s: nat)
    ensures IsPivot(Mirror(bars, entry), dir.Flip(), n, s) == IsPivot(bars, dir, n, s)
  {
    var mb := Mirror(bars, entry);
    if n <= s < |bars| - n {
      forall i | s - n <= i <= s + n
        ensures Ahead(dir.Flip(), Far(dir.Flip(), mb[i]), Far(dir.Flip(), mb[s]))
             == Ahead(dir, Far(dir, bars[i]), Far(dir, bars[s]))
      {
        MirrorAhead(dir, entry, Far(dir, bars[i]), Far(dir, bars[s]));
      }
    }
  }

  lemma {:induction false} MirrorTrail(bars: seq<Bar>, dir: Direction, entry: real, n: nat, m: nat)
    ensures Trail(Mirror(bars, entry), Plain, dir.Flip(), entry, n, m)
         == Reflect(entry, Trail(bars, Plain, dir, entry, n, m))
  {
    if m > 0 {
      MirrorTrail(bars, dir, entry, n, m - 1);
      MirrorPivots(bars, dir, entry, n, m - 1);
      if m - 1 < |bars| {
        MirrorAhead(dir, entry, Far(dir, bars[m - 1]), Trail(bars, Plain, dir, entry, n, m - 1));
      }
    }
  }

  lemma MirrorTrailPhase(bars: seq<Bar>, rule: Rule, dir: Direction, entry: real, n: nat, a: nat)
    requires a < |bars| && (rule == Plain || entry >= 0.0)
    ensures var mb := Mirror(bars, entry);
      && TrailFrom(mb, rule, dir.Flip(), entry, n, a + 1) == TrailFrom(bars, rule, dir, entry, n, a + 1)
      && LastTrail(mb, rule, dir.Flip(), entry, n, a) == Reflect(entry, LastTrail(bars, rule, dir, entry, n, a))
  {
    var mb := Mirror(bars, entry);
    forall j | 0 <= j < |bars|
      ensures TrailAt(mb, rule, dir.Flip(), entry, n, j) == Reflect(entry, TrailAt(bars, rule, dir, entry, n, j))
      ensures TrailFires(mb, rule, dir.Flip(), entry, n, j) == TrailFires(bars, rule, dir, entry, n, j)
    {
      var m := Confirmed(n, j);
      MirrorTrail(bars, dir, entry, n, m);
      if rule == OrEntry {
        OrEntryAgrees(bars, dir, entry, n, m);
        OrEntryAgrees(mb, dir.Flip(), entry, n, m);
      }
      MirrorAhead(dir, entry, Far(dir, bars[j]), TrailAt(bars, rule, dir, entry, n, j));
    }
  }

  lemma MirrorArm(bars: seq<Bar>, entry: real, slR: real, beAt: real, partialAt: real)
    ensures ArmIndex(Mirror(bars, entry), slR, beAt) == ArmIndex(bars, slR, beAt)
    ensures forall j: nat :: j <= |bars| ==>
      PartialFrom(Mirror(bars, entry), partialAt, j) == PartialFrom(bars, partialAt, j)
  {
    var mb := Mirror(bars, entry);
    assert forall i :: 0 <= i < |bars| ==> mb[i].fav == bars[i].fav && mb[i].adv == bars[i].adv;
    assert forall i :: 0 <= i < |bars| ==> Decides(mb[i], slR, beAt) == Decides(bars[i], slR, beAt);
    assert forall i :: 0 <= i < |bars| ==> SecondPhaseEnds(mb[i], partialAt) == SecondPhaseEnds(bars[i], partialAt);
  }

  lemma MirrorFloored(dir: Direction, level: real, entry: real, risk: real)
    requires risk != 0.0
    ensures Floored(dir.Flip(), Reflect(entry, level), entry, risk) == Floored(dir, level, entry, risk)
  {
    assert Gain(dir.Flip(), Reflect(entry, level), entry) == Gain(dir, level, entry);
  }

  lemma StructureMirror(bars: seq<Bar>, entry: real, risk: real, dir: Direction, slR: real, beAt: real, n: nat)
    requires risk != 0.0
    ensures StructureExit(Mirror(bars, entry), entry, risk, dir.Flip(), slR, beAt, n)
         == StructureExit(bars, entry, risk, dir, slR, beAt, n)
  {
    MirrorArm(bars, entry, slR, beAt, 0.0);
    var a := ArmIndex(bars, slR, beAt);
    if a < |bars| {
      MirrorTrailPhase(bars, Plain, dir, entry, n, a);
      MirrorFloored(dir, LastTrail(bars, Plain, dir, entry, n, a), entry, risk);
    }
  }

  lemma RunnerMirror(bars: seq<Bar>, entry: real, risk: real, dir: Direction, partialAt: real, pct: real,
                     n: nat, p: nat)
    requires risk != 0.0 && entry >= 0.0 && p < |bars|
    ensures RunnerExit(Mirror(bars, entry), entry, risk, dir.Flip(), partialAt, pct, n, p)
         == RunnerExit(bars, entry, risk, dir, partialAt, pct, n, p)
  {
    MirrorTrailPhase(bars, OrEntry, dir, entry, n, p);
    MirrorFloored(dir, LastTrail(bars, OrEntry, dir, entry, n, p), entry, risk);
  }

  lemma HybridMirror(bars: seq<Bar>, entry: real, risk: real, dir: Direction, slR: real, beAt: real,
                     partialAt: real, pct: real, n: nat)
    requires risk != 0.0 && entry >= 0.0
    ensures HybridExit(Mirror(bars, entry), entry, risk, dir.Flip(), slR, beAt, partialAt, pct, n)
         == HybridExit(bars, entry, risk, dir, slR, beAt, partialAt, pct, n)
  {
    MirrorArm(bars, entry, slR, beAt, partialAt);
    var a := ArmIndex(bars, slR, beAt);
    if a < |bars| {
      var p := PartialFrom(bars, partialAt, a + 1);
      if p < |bars| {
        RunnerMirror(bars, entry, risk, dir, partialAt, pct, n, p);
      }
    }
  }

  lemma {:induction false} MirrorPeakClose(bars: seq<Bar>, dir: Direction, entry: real, a: nat, j: nat)
    requires a <= j < |bars|
    ensures PeakClose(Mirror(bars, entry), dir.Flip(), a, j) == Reflect(entry, PeakClose(bars, dir, a, j))
  {
    if a < j { MirrorPeakClose(bars, dir, entry, a, j - 1); }
  }

  lemma MirrorAtrLevel(bars: seq<Bar>, dir: Direction, entry: real, mult: real, a: nat, j: nat)
    requires a <= j < |bars|
    ensures AtrLevel(Mirror(bars, entry), dir.Flip(), mult, a, j) == Reflect(entry, AtrLevel(bars, dir, mult, a, j))
    ensures AtrFires(Mirror(bars, entry), dir.Flip(), mult, a, j) == AtrFires(bars, dir, mult, a, j)
  {
    MirrorPeakClose(bars, dir, entry, a, j);
    assert Mirror(bars, entry)[j] == MirrorBar(bars[j], entry);
    var width := mult * bars[j].atr;
    MirrorAhead(dir, entry, Far(dir, bars[j]), AtrLevel(bars, dir, mult, a, j));
  }

  lemma MirrorAtrPhase(bars: seq<Bar>, dir: Direction, entry: real, mult: real, a: nat)
    requires a < |bars|
    ensures AtrFrom(Mirror(bars, entry), dir.Flip(), mult, a, a + 1) == AtrFrom(bars, dir, mult, a, a + 1)
  {
    forall j | a <= j < |bars|
      ensures AtrFires(Mirror(bars, entry), dir.Flip(), mult, a, j) == AtrFires(bars, dir, mult, a, j)
    {
      MirrorAtrLevel(bars, dir, entry, mult, a, j);
    }
  }

  lemma AtrMirror(bars: seq<Bar>, entry: real, risk: real, dir: Direction, slR: real, beAt: real, mult: real)
    requires risk != 0.0
    ensures AtrExit(Mirror(bars, entry), entry, risk, dir.Flip(), slR, beAt, mult)
         == AtrExit(bars, entry, risk, dir, slR, beAt, mult)
  {
    MirrorArm(bars, entry, slR, beAt, 0.0);
    var a := ArmIndex(bars, slR, beAt);
    if a < |bars| {
      MirrorAtrPhase(bars, dir, entry, mult, a);
      var x := AtrFrom(bars, dir, mult, a, a + 1);
      var last := if x < |bars| then x else |bars| - 1;
      MirrorAtrLevel(bars, dir, entry, mult, a, last);
      MirrorFloored(dir, AtrLevel(bars, dir, mult, a, last), entry, risk);
    }
  }
}
