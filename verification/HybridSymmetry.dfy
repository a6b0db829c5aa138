/** When the hybrid exit treats a long trade and its mirror image alike: the exact condition on its parameters. */
module HybridSymmetry {
  import opened Common
  import opened Prices
  import opened Excursion
  import opened Exits
  import opened ExitTheorems

  // ---------- Reflection ----------

  lemma MirrorMeasured(bars: seq<Bar>, dir: Direction, entry: real, risk: real)
    requires Measured(bars, dir, entry, risk)
    ensures Measured(Mirror(bars, entry), dir.Flip(), entry, risk)
  {
    var mb := Mirror(bars, entry);
    forall b | b in mb
      ensures b.lo <= b.cl <= b.hi && b.atr >= 0.0
      ensures b == MakeBar(Candle(b.hi, b.lo, b.cl, b.atr), dir.Flip(), entry, risk)
    {
      var i :| 0 <= i < |mb| && mb[i] == b;
      assert bars[i] in bars;
    }
  }

  lemma MirrorTwice(bars: seq<Bar>, entry: real)
    ensures Mirror(Mirror(bars, entry), entry) == bars
  {
  }

  /** A long trail phase that ends at bar x under the plain rule ends there, reflected, for the short trade. */
  lemma MirrorSettles(bars: seq<Bar>, entry: real, n: nat, p: nat, x: nat, trail: real)
    requires Settled(bars, Plain, LONG, entry, n, p, x, trail)
    ensures Settled(Mirror(bars, entry), OrEntry, SHORT, entry, n, p, x, Reflect(entry, trail))
  {
    var mb := Mirror(bars, entry);
    forall j: nat | j < |bars|
      ensures TrailAt(mb, OrEntry, SHORT, entry, n, j) == Reflect(entry, TrailAt(bars, Plain, LONG, entry, n, j))
      ensures TrailFires(mb, OrEntry, SHORT, entry, n, j) == TrailFires(bars, Plain, LONG, entry, n, j)
    {
      var m := Confirmed(n, j);
      MirrorTrail(bars, LONG, entry, n, m);
      OrEntryAgrees(mb, SHORT, entry, n, m);
      assert LONG.Flip() == SHORT;
      MirrorAhead(LONG, entry, Far(LONG, bars[j]), TrailAt(bars, Plain, LONG, entry, n, j));
    }
  }

  /** A long window whose trail phase comes out under the plain rule as it does under the hybrid's own. */
  lemma SettledAlikeIsSymmetric(bars: seq<Bar>, entry: real, risk: real, slR: real, beAt: real, partialAt: real,
                                pct: real, n: nat, a: nat, p: nat, x: nat, trail: real)
    requires risk != 0.0 && PartialAt(bars, slR, beAt, partialAt, a, p)
    requires Settled(bars, OrEntry, LONG, entry, n, p, x, trail) && Settled(bars, Plain, LONG, entry, n, p, x, trail)
    ensures HybridExit(Mirror(bars, entry), entry, risk, SHORT, slR, beAt, partialAt, pct, n)
         == HybridExit(bars, entry, risk, LONG, slR, beAt, partialAt, pct, n)
  {
    var mb := Mirror(bars, entry);
    MirrorArm(bars, entry, slR, beAt, partialAt);
    MirrorSettles(bars, entry, n, p, x, trail);
    PhaseSettles(bars, OrEntry, LONG, entry, n, p, x, trail);
    PhaseSettles(mb, OrEntry, SHORT, entry, n, p, x, Reflect(entry, trail));
    MirrorFloored(LONG, trail, entry, risk);
  }

  // ---------- Far below zero: no swing at zero can come before the partial ----------

  predicate FarBelowZero(entry: real, risk: real, beAt: real, partialAt: real, n: nat) {
    n > 0 && entry <= -Max(beAt, partialAt) * risk
  }

  /** Every bar wholly at or above zero is past the trigger. */
  ghost predicate ZeroIsPast(bars: seq<Bar>, trigger: real) {
    forall i :: 0 <= i < |bars| && bars[i].lo >= 0.0 ==> bars[i].fav >= trigger
  }

  lemma FarBelowMeansPast(bars: seq<Bar>, entry: real, risk: real, trigger: real)
    requires Measured(bars, LONG, entry, risk) && entry <= -trigger * risk
    ensures ZeroIsPast(bars, trigger)
  {
    forall i | 0 <= i < |bars| && bars[i].lo >= 0.0 ensures bars[i].fav >= trigger {
      assert bars[i] in bars;
      DivMonotone(trigger * risk, bars[i].hi - entry, risk);
      assert trigger * risk / risk == trigger;
    }
  }

  /** Then a second swing after one at zero lies behind the bar that takes the partial. */
  lemma SecondSwingIsLate(bars: seq<Bar>, slR: real, beAt: real, partialAt: real, n: nat,
                          a: nat, p: nat, i: nat, k: nat)
    requires n > 0 && ZeroIsPast(bars, Max(beAt, partialAt)) && PartialAt(bars, slR, beAt, partialAt, a, p)
    requires IsPivot(bars, LONG, n, i) && bars[i].lo == 0.0 && IsPivot(bars, LONG, n, k) && i < k
    ensures k > p
  {
    SwingsSpaced(bars, LONG, n, i, k);
    var j := if i == a then i + 1 else i;
    assert bars[j].lo >= 0.0;
    if k <= p {
      assert j < a ==> Decides(bars[j], slR, beAt);
      assert a < j < p ==> SecondPhaseEnds(bars[j], partialAt);
      assert false;
    }
  }

  /** While the phase runs, the hybrid's rule and the plain one have given the same trail. */
  lemma {:induction false} TrailsAgreeInPhase(bars: seq<Bar>, entry: real, slR: real, beAt: real,
                                              partialAt: real, n: nat, a: nat, p: nat, j: nat, m: nat)
    requires n > 0 && ZeroIsPast(bars, Max(beAt, partialAt)) && entry < 0.0
    requires PartialAt(bars, slR, beAt, partialAt, a, p)
    requires p < j < |bars| && Quiet(bars, Plain, LONG, entry, n, p, j) && m <= Confirmed(n, j)
    ensures Trail(bars, OrEntry, LONG, entry, n, m) == Trail(bars, Plain, LONG, entry, n, m)
  {
    if m > 0 {
      TrailsAgreeInPhase(bars, entry, slR, beAt, partialAt, n, a, p, j, m - 1);
      var k, t := m - 1, Trail(bars, Plain, LONG, entry, n, m - 1);
      if IsPivot(bars, LONG, n, k) && t == 0.0 && entry < bars[k].lo < 0.0 {
        assert k > p ==> !TrailFires(bars, Plain, LONG, entry, n, k);
        TrailIsBest(bars, LONG, entry, n, k);
        var i: nat :| i < k && IsPivot(bars, LONG, n, i) && t == Far(LONG, bars[i]);
        SecondSwingIsLate(bars, slR, beAt, partialAt, n, a, p, i, k);
        SwingsSpaced(bars, LONG, n, i, k);
        TrailIsBest(bars, LONG, entry, n, Confirmed(n, k));
        assert false;
      }
    }
  }

  lemma PhasesAgree(bars: seq<Bar>, entry: real, slR: real, beAt: real, partialAt: real, n: nat,
                    a: nat, p: nat) returns (x: nat, trail: real)
    requires n > 0 && ZeroIsPast(bars, Max(beAt, partialAt)) && entry < 0.0
    requires PartialAt(bars, slR, beAt, partialAt, a, p)
    ensures Settled(bars, OrEntry, LONG, entry, n, p, x, trail) && Settled(bars, Plain, LONG, entry, n, p, x, trail)
  {
    x := TrailFrom(bars, Plain, LONG, entry, n, p + 1);
    trail := LastTrail(bars, Plain, LONG, entry, n, p);
    forall j: nat | p < j <= x && j < |bars|
      ensures TrailAt(bars, OrEntry, LONG, entry, n, j) == TrailAt(bars, Plain, LONG, entry, n, j)
      ensures TrailFires(bars, OrEntry, LONG, entry, n, j) == TrailFires(bars, Plain, LONG, entry, n, j)
    {
      TrailsAgreeInPhase(bars, entry, slR, beAt, partialAt, n, a, p, j, Confirmed(n, j));
    }
  }

  lemma SymmetricPastZero(bars: seq<Bar>, entry: real, risk: real, slR: real, beAt: real, partialAt: real,
                          pct: real, n: nat)
    requires risk != 0.0 && entry < 0.0 && n > 0 && ZeroIsPast(bars, Max(beAt, partialAt))
    ensures HybridExit(Mirror(bars, entry), entry, risk, SHORT, slR, beAt, partialAt, pct, n)
         == HybridExit(bars, entry, risk, LONG, slR, beAt, partialAt, pct, n)
  {
    MirrorArm(bars, entry, slR, beAt, partialAt);
    var a := ArmIndex(bars, slR, beAt);
    if a < |bars| && bars[a].adv < slR {
      var p := PartialFrom(bars, partialAt, a + 1);
      if p < |bars| && bars[p].fav >= partialAt {
        var x, trail := PhasesAgree(bars, entry, slR, beAt, partialAt, n, a, p);
        SettledAlikeIsSymmetric(bars, entry, risk, slR, beAt, partialAt, pct, n, a, p, x, trail);
      }
    }
  }

  lemma SymmetricFarBelowZero(bars: seq<Bar>, entry: real, risk: real, slR: real, beAt: real, partialAt: real,
                              pct: real, n: nat)
    requires Measured(bars, LONG, entry, risk) && FarBelowZero(entry, risk, beAt, partialAt, n) && entry < 0.0
    ensures HybridExit(Mirror(bars, entry), entry, risk, SHORT, slR, beAt, partialAt, pct, n)
         == HybridExit(bars, entry, risk, LONG, slR, beAt, partialAt, pct, n)
  {
    FarBelowMeansPast(bars, entry, risk, Max(beAt, partialAt));
    SymmetricPastZero(bars, entry, risk, slR, beAt, partialAt, pct, n);
  }

  /** With the whole position closed at the partial the runner does not matter. */
  lemma SymmetricWithoutRunner(bars: seq<Bar>, entry: real, risk: real, dir: Direction, slR: real, beAt: real,
                               partialAt: real, n: nat)
    requires risk != 0.0
    ensures HybridExit(Mirror(bars, entry), entry, risk, dir.Flip(), slR, beAt, partialAt, 1.0, n).r
         == HybridExit(bars, entry, risk, dir, slR, beAt, partialAt, 1.0, n).r
  {
    MirrorArm(bars, entry, slR, beAt, partialAt);
    forall runner: real ensures Blend(partialAt, 1.0, runner) == partialAt {}
  }

  // ---------- Otherwise: a window that pays differently ----------

  function FlatBar(price: real, entry: real, risk: real): Bar
    requires risk > 0.0
  {
    MakeBar(Candle(price, price, price, 0.0), LONG, entry, risk)
  }

  /** Two swing lows, at zero and half-way down to the entry, below both triggers; then bars on the later trigger. */
  function DipPrice(entry: real, level: real, n: nat, i: nat): real {
    if i == n then 0.0 else if i == 2 * n + 1 then entry / 2.0 else if i < 2 * n + 1 then level / 2.0 else level
  }

  function DipWindow(entry: real, risk: real, level: real, n: nat): (bars: seq<Bar>)
    requires risk > 0.0
    ensures |bars| == 3 * n + 5
    ensures forall i :: 0 <= i < |bars| ==> bars[i] == FlatBar(DipPrice(entry, level, n, i), entry, risk)
  {
    seq(3 * n + 5, i requires 0 <= i < 3 * n + 5 => FlatBar(DipPrice(entry, level, n, i), entry, risk))
  }

  lemma DipWindowPivots(entry: real, risk: real, level: real, n: nat, s: nat)
    requires entry < 0.0 && risk > 0.0 && level > 0.0 && n > 0
    ensures IsPivot(DipWindow(entry, risk, level, n), LONG, n, s) <==> s == n || s == 2 * n + 1
  {
    var bars := DipWindow(entry, risk, level, n);
    assert forall i :: 0 <= i < |bars| ==> bars[i].lo == DipPrice(entry, level, n, i);
    if s != n && s != 2 * n + 1 && n <= s < |bars| - n {
      assert bars[if s <= 2 * n then n else if s == 2 * n + 2 then 2 * n + 1 else s - 1].lo <= bars[s].lo;
    }
  }

  lemma DipWindowTrail(entry: real, risk: real, level: real, n: nat, rule: Rule, m: nat)
    requires entry < 0.0 && risk > 0.0 && level > 0.0 && n > 0 && m >= 2 * n + 2
    ensures var bars := DipWindow(entry, risk, level, n);
      Trail(bars, rule, LONG, entry, n, m) == if rule == OrEntry then entry / 2.0 else 0.0
  {
    var bars := DipWindow(entry, risk, level, n);
    forall s: nat ensures IsPivot(bars, LONG, n, s) <==> s == n || s == 2 * n + 1 {
      DipWindowPivots(entry, risk, level, n, s);
    }
    TwoSwings(bars, rule, entry, n, m);
  }

  lemma DipWindowExcursions(entry: real, risk: real, level: real, n: nat, i: nat)
    requires entry < 0.0 < risk && level > 0.0 && i < 3 * n + 5
    ensures var b, trigger := DipWindow(entry, risk, level, n)[i], (level - entry) / risk;
      b.adv < 0.0 && if i < 2 * n + 2 then b.fav < trigger else b.fav == trigger
  {
    var gain := DipPrice(entry, level, n, i) - entry;
    assert gain / risk > 0.0 && -gain / risk == -(gain / risk);
    if i < 2 * n + 2 {
      assert (level - entry - gain) / risk > 0.0;
    }
  }

  /** Every trail this window ever has lies below the bars on the trigger. */
  lemma {:induction false} TrailBelow(bars: seq<Bar>, rule: Rule, entry: real, n: nat, m: nat, level: real)
    requires entry < level
    requires forall s: nat :: IsPivot(bars, LONG, n, s) ==> bars[s].lo < level
    ensures Trail(bars, rule, LONG, entry, n, m) < level
  {
    if m > 0 { TrailBelow(bars, rule, entry, n, m - 1, level); }
  }

  lemma DipWindowSettles(entry: real, risk: real, level: real, n: nat, rule: Rule, p: nat)
    requires entry < 0.0 && risk > 0.0 && level > 0.0 && n > 0 && 2 * n + 2 <= p <= 2 * n + 3
    ensures Settled(DipWindow(entry, risk, level, n), rule, LONG, entry, n, p, 3 * n + 5,
                    if rule == OrEntry then entry / 2.0 else 0.0)
  {
    var bars := DipWindow(entry, risk, level, n);
    DipWindowTrail(entry, risk, level, n, rule, Confirmed(n, 3 * n + 4));
    forall s: nat ensures IsPivot(bars, LONG, n, s) ==> bars[s].lo < level {
      DipWindowPivots(entry, risk, level, n, s);
    }
    forall j: nat | p < j < |bars| ensures !TrailFires(bars, rule, LONG, entry, n, j) {
      TrailBelow(bars, rule, entry, n, Confirmed(n, j), level);
      assert bars[j].lo == level;
    }
  }

  /** Bars below both triggers and never stopped, then bars on the later one: the partial falls on one of the first
      two of these. */
  lemma TakenAtTrigger(bars: seq<Bar>, slR: real, beAt: real, partialAt: real, s: nat) returns (a: nat, p: nat)
    requires slR >= 0.0 && s + 1 < |bars|
    requires forall i :: 0 <= i < |bars| ==> bars[i].adv < 0.0
    requires forall i :: 0 <= i < s ==> bars[i].fav < Max(beAt, partialAt)
    requires forall i :: s <= i < |bars| ==> bars[i].fav == Max(beAt, partialAt)
    ensures s <= p <= s + 1 && PartialAt(bars, slR, beAt, partialAt, a, p)
  {
    a := ArmIndex(bars, slR, beAt);
    assert Decides(bars[s], slR, beAt);
    p := PartialFrom(bars, partialAt, a + 1);
    assert SecondPhaseEnds(bars[s], partialAt) && SecondPhaseEnds(bars[s + 1], partialAt);
  }

  lemma DipWindowTaken(entry: real, risk: real, level: real, slR: real, beAt: real, partialAt: real, n: nat)
    returns (a: nat, p: nat)
    requires entry < 0.0 < risk && slR >= 0.0 && level > 0.0 && (level - entry) / risk == Max(beAt, partialAt)
    ensures 2 * n + 2 <= p <= 2 * n + 3 && PartialAt(DipWindow(entry, risk, level, n), slR, beAt, partialAt, a, p)
  {
    var bars := DipWindow(entry, risk, level, n);
    forall i: nat | i < |bars|
      ensures bars[i].adv < 0.0
      ensures if i < 2 * n + 2 then bars[i].fav < Max(beAt, partialAt) else bars[i].fav == Max(beAt, partialAt)
    {
      DipWindowExcursions(entry, risk, level, n, i);
    }
    a, p := TakenAtTrigger(bars, slR, beAt, partialAt, 2 * n + 2);
  }

  /** With no neighbours to confirm a swing, two bars at zero and one below it are enough. */
  function DropWindow(entry: real, risk: real, level: real): seq<Bar>
    requires risk > 0.0
  {
    var high := MakeBar(Candle(Max(0.0, level), 0.0, 0.0, 0.0), LONG, entry, risk);
    [high, high, FlatBar(entry / 2.0, entry, risk)]
  }

  lemma DropWindowSettles(entry: real, risk: real, level: real, rule: Rule)
    requires entry < 0.0 && risk > 0.0
    ensures Settled(DropWindow(entry, risk, level), rule, LONG, entry, 0, 1, 2,
                    if rule == OrEntry then entry / 2.0 else 0.0)
  {
    var bars := DropWindow(entry, risk, level);
    assert Trail(bars, rule, LONG, entry, 0, 1) == 0.0;
    assert Trail(bars, rule, LONG, entry, 0, 2) == 0.0;
    assert TrailAt(bars, rule, LONG, entry, 0, 2) == if rule == OrEntry then entry / 2.0 else 0.0;
  }

  lemma DropWindowTaken(entry: real, risk: real, level: real, slR: real, beAt: real, partialAt: real)
    requires entry < 0.0 < risk && slR >= 0.0 && (level - entry) / risk == Max(beAt, partialAt)
    ensures PartialAt(DropWindow(entry, risk, level), slR, beAt, partialAt, 0, 1)
  {
    var bars := DropWindow(entry, risk, level);
    DivMonotone(level - entry, bars[0].hi - entry, risk);
    assert bars[0].fav >= Max(beAt, partialAt) && bars[0].adv < 0.0;
    assert ArmIndex(bars, slR, beAt) == 0;
    assert PartialFrom(bars, partialAt, 1) == 1;
  }

  lemma FlatMeasured(bars: seq<Bar>, entry: real, risk: real)
    requires risk > 0.0
    requires forall i :: 0 <= i < |bars| ==>
      bars[i].lo <= bars[i].cl <= bars[i].hi && bars[i].atr >= 0.0 &&
      bars[i] == MakeBar(Candle(bars[i].hi, bars[i].lo, bars[i].cl, bars[i].atr), LONG, entry, risk)
    ensures Measured(bars, LONG, entry, risk)
  {
  }

  /** The two pay-offs when the trail has fallen from zero to half-way below: the long trade loses half a runner. */
  lemma FallenTrailPays(bars: seq<Bar>, entry: real, risk: real, slR: real, beAt: real, partialAt: real, pct: real,
                        n: nat, a: nat, p: nat, x: nat)
    requires entry < 0.0 && risk > 0.0 && PartialAt(bars, slR, beAt, partialAt, a, p)
    requires Settled(bars, OrEntry, LONG, entry, n, p, x, entry / 2.0)
    requires Settled(bars, Plain, LONG, entry, n, p, x, 0.0)
    ensures HybridExit(bars, entry, risk, LONG, slR, beAt, partialAt, pct, n).r
         == Blend(partialAt, pct, -entry / 2.0 / risk)
    ensures HybridExit(Mirror(bars, entry), entry, risk, SHORT, slR, beAt, partialAt, pct, n).r
         == Blend(partialAt, pct, -entry / risk)
  {
    FallenGains(entry, risk);
    HybridSettles(bars, entry, risk, LONG, slR, beAt, partialAt, pct, n, a, p, x, entry / 2.0);
    MirrorTaken(bars, entry, slR, beAt, partialAt, a, p);
    MirrorSettles(bars, entry, n, p, x, 0.0);
    HybridSettles(Mirror(bars, entry), entry, risk, SHORT, slR, beAt, partialAt, pct, n, a, p, x, 2.0 * entry);
  }

  lemma MirrorTaken(bars: seq<Bar>, entry: real, slR: real, beAt: real, partialAt: real, a: nat, p: nat)
    requires PartialAt(bars, slR, beAt, partialAt, a, p)
    ensures PartialAt(Mirror(bars, entry), slR, beAt, partialAt, a, p)
  {
    MirrorArm(bars, entry, slR, beAt, partialAt);
  }

  lemma FallenGains(entry: real, risk: real)
    requires entry < 0.0 < risk
    ensures Floored(LONG, entry / 2.0, entry, risk) == -entry / 2.0 / risk
    ensures Floored(SHORT, 2.0 * entry, entry, risk) == -entry / risk
  {
    assert Gain(LONG, entry / 2.0, entry) == -entry / 2.0 && Gain(SHORT, 2.0 * entry, entry) == -entry;
    HalfGain(-entry, risk);
  }

  lemma HalfGain(x: real, risk: real)
    requires x > 0.0 && risk > 0.0
    ensures 0.0 < x / 2.0 / risk < x / risk
  {
  }

  lemma TriggerLevel(entry: real, risk: real, trigger: real)
    requires risk > 0.0
    ensures (entry + trigger * risk - entry) / risk == trigger
  {
    assert trigger * risk / risk == trigger;
  }

  function AsymmetricBars(entry: real, risk: real, beAt: real, partialAt: real, n: nat): seq<Bar>
    requires risk > 0.0
  {
    var level := entry + Max(beAt, partialAt) * risk;
    if n == 0 then DropWindow(entry, risk, level) else DipWindow(entry, risk, level, n)
  }

  /** Everywhere else some measured long window pays less than its mirror image. */
  lemma AsymmetricWindow(entry: real, risk: real, slR: real, beAt: real, partialAt: real, pct: real, n: nat)
    requires entry < 0.0 && risk > 0.0 && slR >= 0.0 && !FarBelowZero(entry, risk, beAt, partialAt, n)
    ensures var bars := AsymmetricBars(entry, risk, beAt, partialAt, n);
      && Measured(bars, LONG, entry, risk)
      && HybridExit(bars, entry, risk, LONG, slR, beAt, partialAt, pct, n).r
           == Blend(partialAt, pct, -entry / 2.0 / risk)
      && HybridExit(Mirror(bars, entry), entry, risk, SHORT, slR, beAt, partialAt, pct, n).r
           == Blend(partialAt, pct, -entry / risk)
  {
    var level, bars := entry + Max(beAt, partialAt) * risk, AsymmetricBars(entry, risk, beAt, partialAt, n);
    FlatMeasured(bars, entry, risk);
    TriggerLevel(entry, risk, Max(beAt, partialAt));
    if n == 0 {
      DropWindowTaken(entry, risk, level, slR, beAt, partialAt);
      DropWindowSettles(entry, risk, level, OrEntry);
      DropWindowSettles(entry, risk, level, Plain);
      FallenTrailPays(bars, entry, risk, slR, beAt, partialAt, pct, n, 0, 1, 2);
    } else {
      var a, p := DipWindowTaken(entry, risk, level, slR, beAt, partialAt, n);
      DipWindowSettles(entry, risk, level, n, OrEntry, p);
      DipWindowSettles(entry, risk, level, n, Plain, p);
      FallenTrailPays(bars, entry, risk, slR, beAt, partialAt, pct, n, a, p, 3 * n + 5);
    }
  }

  /** The failing input at the default parameters: flat bars at .5 .5 0 .5 .5 -.5 and then 1, around an entry
      at -1 with risk 1, pay 1.1 long; their mirror image pays 1.4 short. */
  lemma AsymmetricAtDefaults(entry: real, risk: real, slR: real, beAt: real, partialAt: real, pct: real, n: nat)
    requires entry == -1.0 && risk == slR == beAt == 1.0 && partialAt == 2.0 && pct == 0.4 && n == 2
    ensures var bars := AsymmetricBars(entry, risk, beAt, partialAt, n);
      && HybridExit(bars, entry, risk, LONG, slR, beAt, partialAt, pct, n).r == 1.1
      && HybridExit(Mirror(bars, entry), entry, risk, SHORT, slR, beAt, partialAt, pct, n).r == 1.4
  {
    AsymmetricWindow(entry, risk, slR, beAt, partialAt, pct, n);
    OverOne(-entry / 2.0, risk);
    OverOne(-entry, risk);
    DefaultPay(-entry / 2.0 / risk, -entry / risk, partialAt, pct);
  }

  lemma OverOne(x: real, r: real)
    requires r == 1.0
    ensures x / r == x
  {
  }

  lemma DefaultPay(half: real, whole: real, partialAt: real, pct: real)
    requires half == 0.5 && whole == 1.0 && partialAt == 2.0 && pct == 0.4
    ensures Blend(partialAt, pct, half) == 1.1 && Blend(partialAt, pct, whole) == 1.4
  {
  }

  // ---------- The exact condition ----------

  /** At these parameters every measured window, long or short, pays what its mirror image pays. */
  ghost predicate MirrorSymmetric(entry: real, risk: real, slR: real, beAt: real, partialAt: real, pct: real, n: nat)
    requires risk != 0.0
  {
    forall bars: seq<Bar>, dir: Direction :: Measured(bars, dir, entry, risk) ==>
      HybridExit(Mirror(bars, entry), entry, risk, dir.Flip(), slR, beAt, partialAt, pct, n).r
      == HybridExit(bars, entry, risk, dir, slR, beAt, partialAt, pct, n).r
  }

  predicate SymmetryCondition(entry: real, risk: real, beAt: real, partialAt: real, pct: real, n: nat) {
    entry >= 0.0 || pct == 1.0 || FarBelowZero(entry, risk, beAt, partialAt, n)
  }

  lemma SymmetricWindow(bars: seq<Bar>, entry: real, risk: real, dir: Direction, slR: real, beAt: real,
                        partialAt: real, pct: real, n: nat)
    requires Measured(bars, dir, entry, risk) && SymmetryCondition(entry, risk, beAt, partialAt, pct, n)
    ensures HybridExit(Mirror(bars, entry), entry, risk, dir.Flip(), slR, beAt, partialAt, pct, n).r
         == HybridExit(bars, entry, risk, dir, slR, beAt, partialAt, pct, n).r
  {
    if entry >= 0.0 {
      HybridMirror(bars, entry, risk, dir, slR, beAt, partialAt, pct, n);
    } else if pct == 1.0 {
      SymmetricWithoutRunner(bars, entry, risk, dir, slR, beAt, partialAt, n);
    } else if dir == LONG {
      SymmetricFarBelowZero(bars, entry, risk, slR, beAt, partialAt, pct, n);
    } else {
      MirrorMeasured(bars, dir, entry, risk);
      MirrorTwice(bars, entry);
      SymmetricFarBelowZero(Mirror(bars, entry), entry, risk, slR, beAt, partialAt, pct, n);
    }
  }

  /** For each setting of the parameters: the hybrid exit is mirror-symmetric on all measured windows exactly when
      the entry is not negative, or nothing is left to the runner, or the entry lies so far below zero that no swing
      at zero can be confirmed before both triggers are passed. */
  lemma HybridMirrorExact(entry: real, risk: real, slR: real, beAt: real, partialAt: real, pct: real, n: nat)
    requires risk > 0.0 && slR >= 0.0
    ensures MirrorSymmetric(entry, risk, slR, beAt, partialAt, pct, n)
      <==> entry >= 0.0 || pct == 1.0 || (n > 0 && entry <= -Max(beAt, partialAt) * risk)
  {
    if SymmetryCondition(entry, risk, beAt, partialAt, pct, n) {
      forall bars: seq<Bar>, dir: Direction | Measured(bars, dir, entry, risk)
        ensures HybridExit(Mirror(bars, entry), entry, risk, dir.Flip(), slR, beAt, partialAt, pct, n).r
             == HybridExit(bars, entry, risk, dir, slR, beAt, partialAt, pct, n).r
      {
        SymmetricWindow(bars, entry, risk, dir, slR, beAt, partialAt, pct, n);
      }
    } else {
      AsymmetricWindow(entry, risk, slR, beAt, partialAt, pct, n);
      HalfGain(-entry, risk);
      BlendSeparates(partialAt, pct, -entry / 2.0 / risk, -entry / risk);
      assert LONG.Flip() == SHORT;
    }
  }

  lemma BlendSeparates(partialAt: real, pct: real, x: real, y: real)
    requires pct != 1.0 && x != y
    ensures Blend(partialAt, pct, x) != Blend(partialAt, pct, y)
  {
    var rest, gap := 1.0 - pct, x - y;
    assert rest * gap != 0.0;
    assert rest * x - rest * y == rest * gap;
  }
}
