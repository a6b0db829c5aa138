/** The challenge simulator: every sampled path ends in exactly one outcome. */
module Challenge {
  import opened Common

  datatype Params = Params(target: real, maxDailyLoss: real, maxTotalDd: real, risk: real, tradingDays: nat)

  /** All random draws of one path: raw trade count per day, and sampled trade result per day and slot. */
  datatype Draws = Draws(count: nat -> nat, trade: (nat, nat) -> real)

  datatype Outcome = Passed(day: nat) | FailedDd | FailedDaily | FailedTime

  function TradesOn(w: Draws, day: nat): nat { if w.count(day) < 5 then w.count(day) else 5 }

  // ---------- The path if nothing ever stopped it ----------

  /** Equity after k trades of the given day. */
  function Equity(p: Params, w: Draws, day: nat, k: nat): real
    decreases day, k
  {
    if k > 0 then Equity(p, w, day, k - 1) + Times(w.trade(day, k - 1), p.risk)
    else if day > 0 then Equity(p, w, day - 1, TradesOn(w, day - 1))
    else 0.0
  }

  /** Highest equity so far, counting the start at zero. */
  function Peak(p: Params, w: Draws, day: nat, k: nat): real
    decreases day, k
  {
    if k > 0 then Max(Peak(p, w, day, k - 1), Equity(p, w, day, k))
    else if day > 0 then Peak(p, w, day - 1, TradesOn(w, day - 1))
    else 0.0
  }

  function DayPnl(p: Params, w: Draws, day: nat, k: nat): real { Equity(p, w, day, k) - Equity(p, w, day, 0) }

  predicate DdFires(p: Params, w: Draws, day: nat, k: nat) { Peak(p, w, day, k) - Equity(p, w, day, k) >= p.maxTotalDd }

  predicate TargetFires(p: Params, w: Draws, day: nat, k: nat) { Equity(p, w, day, k) >= p.target }

  predicate DailyFires(p: Params, w: Draws, day: nat) { DayPnl(p, w, day, TradesOn(w, day)) <= -p.maxDailyLoss }

  /** The first k trades of the day meet neither the drawdown limit nor the target. */
  ghost predicate QuietTrades(p: Params, w: Draws, day: nat, k: nat) {
    forall i :: 1 <= i <= k ==> !DdFires(p, w, day, i) && !TargetFires(p, w, day, i)
  }

  /** The day is completed without any stop, its daily loss limit kept. */
  ghost predicate QuietDay(p: Params, w: Draws, day: nat) {
    QuietTrades(p, w, day, TradesOn(w, day)) && !DailyFires(p, w, day)
  }

  ghost predicate QuietDays(p: Params, w: Draws, days: nat) { forall d :: 0 <= d < days ==> QuietDay(p, w, d) }

  /** The path reaches trade k of the day with nothing before it having stopped it. */
  ghost predicate Reaches(p: Params, w: Draws, day: nat, k: nat) {
    day < p.tradingDays && 1 <= k <= TradesOn(w, day) && QuietDays(p, w, day) && QuietTrades(p, w, day, k - 1)
  }

  /** What each outcome says about the path, decided on day d after k of its trades. */
  ghost predicate StopsAt(p: Params, w: Draws, o: Outcome, d: nat, k: nat) {
    match o
    case Passed(n) => n == d + 1 && Reaches(p, w, d, k) && TargetFires(p, w, d, k) && !DdFires(p, w, d, k)
    case FailedDd => Reaches(p, w, d, k) && DdFires(p, w, d, k)
    case FailedDaily =>
      d < p.tradingDays && k == TradesOn(w, d) && QuietDays(p, w, d) && QuietTrades(p, w, d, k) && DailyFires(p, w, d)
    case FailedTime => d == p.tradingDays && k == 0 && QuietDays(p, w, d)
  }

  ghost predicate EndsAs(p: Params, w: Draws, o: Outcome) { exists d, k :: StopsAt(p, w, o, d, k) }

  /** The outcome, with the equity and peak of the place where the path stops. */
  ghost predicate StopsWith(p: Params, w: Draws, o: Outcome, equity: real, peak: real) {
    exists d, k :: StopsAt(p, w, o, d, k) && equity == Equity(p, w, d, k) && peak == Peak(p, w, d, k)
  }

  method SimulatePath(p: Params, w: Draws) returns (o: Outcome, equity: real, peakEquity: real)
    ensures StopsWith(p, w, o, equity, peakEquity)
  {
    equity, peakEquity := 0.0, 0.0;
    for day := 0 to p.tradingDays
      invariant equity == Equity(p, w, day, 0) && peakEquity == Peak(p, w, day, 0)
      invariant QuietDays(p, w, day)
    {
      var nToday := w.count(day);
      nToday := if nToday < 5 then nToday else 5;
      var dailyPnl := 0.0;
      for i := 0 to nToday
        invariant equity == Equity(p, w, day, i) && peakEquity == Peak(p, w, day, i)
        invariant dailyPnl == DayPnl(p, w, day, i)
        invariant QuietTrades(p, w, day, i)
      {
        var tradePct := Times(w.trade(day, i), p.risk);
        equity := equity + tradePct;
        dailyPnl := dailyPnl + tradePct;
        peakEquity := Max(peakEquity, equity);
        ghost var k := i + 1;
        assert equity == Equity(p, w, day, k) && peakEquity == Peak(p, w, day, k);
        assert Reaches(p, w, day, k);
        if peakEquity - equity >= p.maxTotalDd {
          assert StopsAt(p, w, FailedDd, day, k);
          o := FailedDd;
          return;
        }
        if equity >= p.target {
          assert StopsAt(p, w, Passed(day + 1), day, k);
          o := Passed(day + 1);
          return;
        }
      }
      if dailyPnl <= -p.maxDailyLoss {
        assert StopsAt(p, w, FailedDaily, day, nToday);
        o := FailedDaily;
        return;
      }
    }
    assert StopsAt(p, w, FailedTime, p.tradingDays, 0);
    o := FailedTime;
  }

  // ---------- Exactly one outcome ----------

  /** The path stops in one place, and nothing stops it before. */
  lemma StopsOnce(p: Params, w: Draws, a: Outcome, d: nat, k: nat, b: Outcome, d': nat, k': nat)
    requires StopsAt(p, w, a, d, k) && StopsAt(p, w, b, d', k')
    ensures a == b && d == d' && k == k'
  {
    assert d < d' ==> QuietDay(p, w, d);
    assert d' < d ==> QuietDay(p, w, d');
  }

  /** No path satisfies the description of two outcomes. */
  lemma OutcomeUnique(p: Params, w: Draws, a: Outcome, b: Outcome)
    requires EndsAs(p, w, a) && EndsAs(p, w, b)
    ensures a == b
  {
    var d, k :| StopsAt(p, w, a, d, k);
    var d', k' :| StopsAt(p, w, b, d', k');
    StopsOnce(p, w, a, d, k, b, d', k');
  }

  /** A pass on day n certifies the whole path before it: drawdown below the limit after every trade up to the
      deciding one, and every completed day within its loss limit. */
  lemma PassCertifiesPath(p: Params, w: Draws, n: nat) returns (last: nat, k: nat)
    requires EndsAs(p, w, Passed(n))
    ensures n == last + 1 <= p.tradingDays
    ensures forall d :: 0 <= d < last ==> !DailyFires(p, w, d)
    ensures forall d, i :: 0 <= d < last && 1 <= i <= TradesOn(w, d) ==> !DdFires(p, w, d, i)
    ensures 1 <= k <= TradesOn(w, last) && TargetFires(p, w, last, k)
    ensures forall i :: 1 <= i <= k ==> !DdFires(p, w, last, i)
    ensures forall i :: 1 <= i < k ==> !TargetFires(p, w, last, i)
  {
    last, k :| StopsAt(p, w, Passed(n), last, k);
    forall e | 0 <= e < last
      ensures !DailyFires(p, w, e) && forall i :: 1 <= i <= TradesOn(w, e) ==> !DdFires(p, w, e, i)
    {
      assert QuietDay(p, w, e);
    }
  }

  // ---------- The path as a sum of draws ----------

  /** The draws taken by trade k of day d: of each earlier day those of its trades, at most five. */
  function Taken(w: Draws, d: nat, k: nat): seq<real> {
    (if d == 0 then [] else Taken(w, d - 1, if w.count(d - 1) > 5 then 5 else w.count(d - 1)))
    + seq(k, i requires 0 <= i < k => w.trade(d, i))
  }

  lemma TimesAdds(x: real, y: real, c: real)
    ensures Times(x + y, c) == Times(x, c) + Times(y, c)
    ensures Times(x - y, c) == Times(x, c) - Times(y, c)
  {
  }

  lemma TakenStep(w: Draws, d: nat, k: nat)
    ensures Taken(w, d, k + 1) == Taken(w, d, k) + [w.trade(d, k)]
    ensures Taken(w, d + 1, 0) == Taken(w, d, TradesOn(w, d))
    ensures Taken(w, 0, 0) == []
  {
  }

  lemma TimesZero(c: real)
    ensures Times(0.0, c) == 0.0
  {
  }

  lemma RiskedStep(before: seq<real>, x: real, risk: real)
    ensures Times(Sum(before + [x]), risk) == Times(Sum(before), risk) + Times(x, risk)
  {
    SumAppend(before, x);
    TimesAdds(Sum(before), x, risk);
  }

  lemma {:induction false} EquityIsSum(p: Params, w: Draws, d: nat, k: nat)
    ensures Equity(p, w, d, k) == Times(Sum(Taken(w, d, k)), p.risk)
    decreases d, k
  {
    if k > 0 {
      EquityIsSum(p, w, d, k - 1);
      TakenStep(w, d, k - 1);
      RiskedStep(Taken(w, d, k - 1), w.trade(d, k - 1), p.risk);
    } else if d > 0 {
      EquityIsSum(p, w, d - 1, TradesOn(w, d - 1));
      TakenStep(w, d - 1, 0);
    } else {
      TakenStep(w, 0, 0);
      TimesZero(p.risk);
    }
  }

  /** Trade i of day e, or the start of that day, comes no later than trade k of day d. */
  predicate UpTo(w: Draws, e: nat, i: nat, d: nat, k: nat) { (e < d && i <= TradesOn(w, e)) || (e == d && i <= k) }

  /** peak is the largest of zero and the risked sums of draws up to trade k of day d. */
  ghost predicate IsPeakOf(p: Params, w: Draws, d: nat, k: nat, peak: real) {
    peak >= 0.0 &&
    (forall e: nat, i: nat :: UpTo(w, e, i, d, k) ==> Times(Sum(Taken(w, e, i)), p.risk) <= peak) &&
    (peak == 0.0 || exists e: nat, i: nat :: UpTo(w, e, i, d, k) && Times(Sum(Taken(w, e, i)), p.risk) == peak)
  }

  lemma {:induction false} PeakIsHighest(p: Params, w: Draws, d: nat, k: nat) returns (e: nat, i: nat)
    ensures Peak(p, w, d, k) >= 0.0
    ensures forall f: nat, j: nat :: UpTo(w, f, j, d, k) ==> Equity(p, w, f, j) <= Peak(p, w, d, k)
    ensures Peak(p, w, d, k) == 0.0 || (UpTo(w, e, i, d, k) && Equity(p, w, e, i) == Peak(p, w, d, k))
    decreases d, k
  {
    e, i := d, k;
    if k > 0 {
      var e', i' := PeakIsHighest(p, w, d, k - 1);
      if Peak(p, w, d, k) == Peak(p, w, d, k - 1) { e, i := e', i'; }
      assert forall f: nat, j: nat :: UpTo(w, f, j, d, k) <==> UpTo(w, f, j, d, k - 1) || (f == d && j == k);
    } else if d > 0 {
      e, i := PeakIsHighest(p, w, d - 1, TradesOn(w, d - 1));
      assert UpTo(w, d - 1, TradesOn(w, d - 1), d - 1, TradesOn(w, d - 1));
      assert forall f: nat, j: nat ::
        UpTo(w, f, j, d, 0) <==> UpTo(w, f, j, d - 1, TradesOn(w, d - 1)) || (f == d && j == 0);
    }
  }

  lemma PeakIs(p: Params, w: Draws, d: nat, k: nat)
    ensures IsPeakOf(p, w, d, k, Peak(p, w, d, k))
  {
    var e, i := PeakIsHighest(p, w, d, k);
    forall f: nat, j: nat ensures Times(Sum(Taken(w, f, j)), p.risk) == Equity(p, w, f, j) {
      EquityIsSum(p, w, f, j);
    }
  }

  /** Whatever the outcome: the path ends at the sum of its draws times the risk per trade, and its peak is the largest
      such sum up to there. */
  lemma PathIsSumOfDraws(p: Params, w: Draws, o: Outcome, equity: real, peak: real) returns (d: nat, k: nat)
    requires StopsWith(p, w, o, equity, peak)
    ensures StopsAt(p, w, o, d, k)
    ensures equity == Times(Sum(Taken(w, d, k)), p.risk) && IsPeakOf(p, w, d, k, peak)
  {
    d, k :| StopsAt(p, w, o, d, k) && equity == Equity(p, w, d, k) && peak == Peak(p, w, d, k);
    EquityIsSum(p, w, d, k);
    PeakIs(p, w, d, k);
  }

  /** Risk, target and both limits in another unit. */
  function Scaled(p: Params, c: real): Params {
    Params(Times(p.target, c), Times(p.maxDailyLoss, c), Times(p.maxTotalDd, c), Times(p.risk, c), p.tradingDays)
  }

  lemma {:induction false} EquityScales(p: Params, w: Draws, c: real, d: nat, k: nat)
    requires c > 0.0
    ensures Equity(Scaled(p, c), w, d, k) == Times(Equity(p, w, d, k), c)
    ensures Peak(Scaled(p, c), w, d, k) == Times(Peak(p, w, d, k), c)
    decreases d, k
  {
    if k > 0 {
      var x := w.trade(d, k - 1);
      EquityScales(p, w, c, d, k - 1);
      TimesNests(x, p.risk, c);
      TimesAdds(Equity(p, w, d, k - 1), Times(x, p.risk), c);
      TimesOrdered(Peak(p, w, d, k - 1), Equity(p, w, d, k), c);
      TimesOrdered(Equity(p, w, d, k), Peak(p, w, d, k - 1), c);
    } else if d > 0 {
      EquityScales(p, w, c, d - 1, TradesOn(w, d - 1));
    }
  }

  lemma TimesNests(x: real, y: real, c: real)
    ensures Times(x, Times(y, c)) == Times(Times(x, y), c)
  {
  }

  lemma TimesOrdered(x: real, y: real, c: real)
    requires c > 0.0
    ensures x <= y <==> Times(x, c) <= Times(y, c)
  {
    assert (y - x) * c == y * c - x * c;
    if x <= y { assert (y - x) * c >= 0.0; } else { assert (y - x) * c < 0.0; }
  }

  lemma DrawdownScales(p: Params, w: Draws, c: real, d: nat, k: nat)
    requires c > 0.0
    ensures DdFires(Scaled(p, c), w, d, k) == DdFires(p, w, d, k)
  {
    EquityScales(p, w, c, d, k);
    TimesAdds(Peak(p, w, d, k), Equity(p, w, d, k), c);
    TimesOrdered(p.maxTotalDd, Peak(p, w, d, k) - Equity(p, w, d, k), c);
  }

  lemma TargetScales(p: Params, w: Draws, c: real, d: nat, k: nat)
    requires c > 0.0
    ensures TargetFires(Scaled(p, c), w, d, k) == TargetFires(p, w, d, k)
  {
    EquityScales(p, w, c, d, k);
    TimesOrdered(p.target, Equity(p, w, d, k), c);
  }

  lemma DailyScales(p: Params, w: Draws, c: real, d: nat)
    requires c > 0.0
    ensures DailyFires(Scaled(p, c), w, d) == DailyFires(p, w, d)
  {
    var n := TradesOn(w, d);
    EquityScales(p, w, c, d, n);
    EquityScales(p, w, c, d, 0);
    TimesAdds(Equity(p, w, d, n), Equity(p, w, d, 0), c);
    TimesAdds(0.0, p.maxDailyLoss, c);
    TimesZero(c);
    TimesOrdered(DayPnl(p, w, d, n), 0.0 - p.maxDailyLoss, c);
  }

  /** Measuring risk, target and limits in another unit changes no outcome. */
  lemma OutcomeScales(p: Params, w: Draws, c: real, o: Outcome, d: nat, k: nat)
    requires c > 0.0
    ensures StopsAt(Scaled(p, c), w, o, d, k) <==> StopsAt(p, w, o, d, k)
  {
    forall e: nat, i: nat ensures DdFires(Scaled(p, c), w, e, i) == DdFires(p, w, e, i) {
      DrawdownScales(p, w, c, e, i);
    }
    forall e: nat, i: nat ensures TargetFires(Scaled(p, c), w, e, i) == TargetFires(p, w, e, i) {
      TargetScales(p, w, c, e, i);
    }
    forall e: nat ensures DailyFires(Scaled(p, c), w, e) == DailyFires(p, w, e) {
      DailyScales(p, w, c, e);
    }
    QuietScales(p, w, Scaled(p, c));
  }

  /** Parameters under which the same checks fire reach the same places. */
  lemma QuietScales(p: Params, w: Draws, q: Params)
    requires p.tradingDays == q.tradingDays
    requires forall e: nat, i: nat :: DdFires(q, w, e, i) == DdFires(p, w, e, i)
    requires forall e: nat, i: nat :: TargetFires(q, w, e, i) == TargetFires(p, w, e, i)
    requires forall e: nat :: DailyFires(q, w, e) == DailyFires(p, w, e)
    ensures forall e: nat, i: nat :: QuietTrades(q, w, e, i) == QuietTrades(p, w, e, i)
    ensures forall e: nat :: QuietDays(q, w, e) == QuietDays(p, w, e)
  {
    forall e: nat, i: nat ensures QuietTrades(q, w, e, i) == QuietTrades(p, w, e, i) {}
    forall e: nat ensures QuietDay(q, w, e) == QuietDay(p, w, e) {}
    forall e: nat ensures QuietDays(q, w, e) == QuietDays(p, w, e) {}
  }

  // ---------- The order of the two checks ----------

  /** Before the first stop the peak stays below the target. */
  lemma {:induction false} PeakBelowTarget(p: Params, w: Draws, d: nat, k: nat)
    requires p.target > 0.0 && QuietDays(p, w, d) && QuietTrades(p, w, d, k) && k <= TradesOn(w, d)
    ensures Peak(p, w, d, k) < p.target
    decreases d, k
  {
    if k > 0 {
      PeakBelowTarget(p, w, d, k - 1);
      assert !TargetFires(p, w, d, k);
    } else if d > 0 {
      assert QuietDay(p, w, d - 1);
      PeakBelowTarget(p, w, d - 1, TradesOn(w, d - 1));
    }
  }

  /** With a positive target and drawdown limit the two checks never both fire on a trade that is reached,
      so testing the target first gives the same outcome. */
  lemma ChecksNeverClash(p: Params, w: Draws, d: nat, k: nat)
    requires p.target > 0.0 && p.maxTotalDd > 0.0 && Reaches(p, w, d, k)
    ensures !(DdFires(p, w, d, k) && TargetFires(p, w, d, k))
  {
    PeakBelowTarget(p, w, d, k - 1);
  }

  /** The classification a simulator testing the target before the drawdown would make. */
  ghost predicate StopsTargetFirst(p: Params, w: Draws, o: Outcome, d: nat, k: nat) {
    match o
    case Passed(n) => n == d + 1 && Reaches(p, w, d, k) && TargetFires(p, w, d, k)
    case FailedDd => Reaches(p, w, d, k) && DdFires(p, w, d, k) && !TargetFires(p, w, d, k)
    case _ => StopsAt(p, w, o, d, k)
  }

  lemma CheckOrderImmaterial(p: Params, w: Draws, o: Outcome, d: nat, k: nat)
    requires p.target > 0.0 && p.maxTotalDd > 0.0
    ensures StopsAt(p, w, o, d, k) <==> StopsTargetFirst(p, w, o, d, k)
  {
    if Reaches(p, w, d, k) { ChecksNeverClash(p, w, d, k); }
  }

  /** With a non-positive drawdown limit every trade that is reached counts as a drawdown failure,
      so a target hit there would be classified by the order of the checks. */
  lemma NonPositiveLimitClashes(p: Params, w: Draws, d: nat, k: nat)
    requires p.maxTotalDd <= 0.0 && Reaches(p, w, d, k)
    ensures DdFires(p, w, d, k)
  {
    assert Peak(p, w, d, k) == Max(Peak(p, w, d, k - 1), Equity(p, w, d, k));
  }

  // ---------- The reported drawdown against the path's own ----------

  /** The figure reported as a path's maximum drawdown, computed from its last equity and peak. */
  function ReportedDd(equity: real, peak: real): real { if peak > equity then peak - Min(equity, 0.0) else 0.0 }

  /** Drawdown after k trades of the day. */
  function Fall(p: Params, w: Draws, day: nat, k: nat): real { Peak(p, w, day, k) - Equity(p, w, day, k) }

  /** The largest drawdown of the path up to trade k of the day. */
  function MaxFall(p: Params, w: Draws, day: nat, k: nat): real
    decreases day, k
  {
    if k > 0 then Max(MaxFall(p, w, day, k - 1), Fall(p, w, day, k))
    else if day > 0 then MaxFall(p, w, day - 1, TradesOn(w, day - 1))
    else 0.0
  }

  lemma {:induction false} PeakOnTop(p: Params, w: Draws, d: nat, k: nat)
    ensures Peak(p, w, d, k) >= Equity(p, w, d, k) && Peak(p, w, d, k) >= 0.0
    decreases d, k
  {
    if k > 0 {
      PeakOnTop(p, w, d, k - 1);
    } else if d > 0 {
      PeakOnTop(p, w, d - 1, TradesOn(w, d - 1));
    }
  }

  /** The largest drawdown bounds every drawdown up to there, and is one of them. */
  lemma {:induction false} MaxFallIs(p: Params, w: Draws, d: nat, k: nat)
    ensures forall e: nat, i: nat :: UpTo(w, e, i, d, k) ==> Fall(p, w, e, i) <= MaxFall(p, w, d, k)
    ensures exists e: nat, i: nat :: UpTo(w, e, i, d, k) && Fall(p, w, e, i) == MaxFall(p, w, d, k)
    ensures MaxFall(p, w, d, k) >= 0.0
    decreases d, k
  {
    PeakOnTop(p, w, d, k);
    if k > 0 {
      MaxFallIs(p, w, d, k - 1);
      assert forall e: nat, i: nat :: UpTo(w, e, i, d, k) <==> UpTo(w, e, i, d, k - 1) || (e == d && i == k);
    } else if d > 0 {
      MaxFallIs(p, w, d - 1, TradesOn(w, d - 1));
      assert Fall(p, w, d, 0) == Fall(p, w, d - 1, TradesOn(w, d - 1));
      assert forall e: nat, i: nat ::
        UpTo(w, e, i, d, 0) <==> UpTo(w, e, i, d - 1, TradesOn(w, d - 1)) || (e == d && i == 0);
    } else {
      assert UpTo(w, 0, 0, 0, 0) && Fall(p, w, 0, 0) == 0.0;
    }
  }

  /** Before the first stop every drawdown stays below the limit. */
  lemma {:induction false} QuietMaxFall(p: Params, w: Draws, d: nat, k: nat)
    requires p.maxTotalDd > 0.0 && QuietDays(p, w, d) && QuietTrades(p, w, d, k) && k <= TradesOn(w, d)
    ensures MaxFall(p, w, d, k) < p.maxTotalDd
    decreases d, k
  {
    if k > 0 {
      QuietMaxFall(p, w, d, k - 1);
      assert !DdFires(p, w, d, k);
    } else if d > 0 {
      assert QuietDay(p, w, d - 1);
      QuietMaxFall(p, w, d - 1, TradesOn(w, d - 1));
    }
  }

  /** The figure of the place where a path stops. */
  function FigureAt(p: Params, w: Draws, d: nat, k: nat): real { ReportedDd(Equity(p, w, d, k), Peak(p, w, d, k)) }

  /** The figure is never below the final drawdown, and equals it exactly when the path does not end in profit
      below its peak. */
  lemma {:induction false} FigureAboveFinalFall(p: Params, w: Draws, d: nat, k: nat)
    ensures FigureAt(p, w, d, k) >= Fall(p, w, d, k) >= 0.0
    ensures FigureAt(p, w, d, k) == Fall(p, w, d, k) <==>
      Equity(p, w, d, k) <= 0.0 || Equity(p, w, d, k) == Peak(p, w, d, k)
  {
    PeakOnTop(p, w, d, k);
  }

  /** Every pass reports zero, whatever the path fell by on its way: the figure is right exactly when equity never
      stood below its peak. */
  lemma PassReportsNothing(p: Params, w: Draws, n: nat, d: nat, k: nat)
    requires p.target > 0.0 && StopsAt(p, w, Passed(n), d, k)
    ensures FigureAt(p, w, d, k) == 0.0 <= MaxFall(p, w, d, k)
    ensures FigureAt(p, w, d, k) == MaxFall(p, w, d, k)
      <==> forall e: nat, i: nat :: UpTo(w, e, i, d, k) ==> Equity(p, w, e, i) == Peak(p, w, e, i)
  {
    PeakBelowTarget(p, w, d, k - 1);
    MaxFallIs(p, w, d, k);
    forall e: nat, i: nat | UpTo(w, e, i, d, k) ensures 0.0 <= Fall(p, w, e, i) <= MaxFall(p, w, d, k) {
      PeakOnTop(p, w, e, i);
    }
  }

  /** A drawdown failure reports at least the drawdown it fails on, which is the path's largest, and reports it
      exactly when the path does not end in profit. */
  lemma DrawdownFailureReports(p: Params, w: Draws, d: nat, k: nat)
    requires p.maxTotalDd > 0.0 && StopsAt(p, w, FailedDd, d, k)
    ensures MaxFall(p, w, d, k) == Fall(p, w, d, k) >= p.maxTotalDd
    ensures FigureAt(p, w, d, k) >= MaxFall(p, w, d, k)
    ensures FigureAt(p, w, d, k) == MaxFall(p, w, d, k) <==> Equity(p, w, d, k) <= 0.0
  {
    QuietMaxFall(p, w, d, k - 1);
  }

  /** A path that fails on its last day's loss, or on time, has kept the drawdown limit. Ending without profit it
      reports its final drawdown, so too little exactly when it had fallen deeper before. Ending in profit below its
      peak it reports the whole peak, so too much exactly when it never fell by as much; and ending on its peak
      nothing. */
  lemma SurvivorReports(p: Params, w: Draws, o: Outcome, d: nat, k: nat)
    requires p.maxTotalDd > 0.0 && StopsAt(p, w, o, d, k) && (o == FailedDaily || o == FailedTime)
    ensures MaxFall(p, w, d, k) < p.maxTotalDd
    ensures Equity(p, w, d, k) <= 0.0 ==>
      (FigureAt(p, w, d, k) < MaxFall(p, w, d, k) <==>
         exists e: nat, i: nat :: UpTo(w, e, i, d, k) && Fall(p, w, e, i) > Fall(p, w, d, k))
    ensures Equity(p, w, d, k) <= 0.0 ==> FigureAt(p, w, d, k) <= MaxFall(p, w, d, k)
    ensures 0.0 < Equity(p, w, d, k) < Peak(p, w, d, k) ==>
      (FigureAt(p, w, d, k) > MaxFall(p, w, d, k) <==>
         forall e: nat, i: nat :: UpTo(w, e, i, d, k) ==> Fall(p, w, e, i) < Peak(p, w, d, k))
    ensures Equity(p, w, d, k) == Peak(p, w, d, k) ==> FigureAt(p, w, d, k) == 0.0
  {
    QuietMaxFall(p, w, d, k);
    MaxFallIs(p, w, d, k);
    PeakOnTop(p, w, d, k);
    assert UpTo(w, d, k, d, k);
  }

  /** With a daily limit, a daily failure ends below its peak by at least that limit, and reports at least that. */
  lemma DailyFailureReports(p: Params, w: Draws, d: nat, k: nat)
    requires p.maxDailyLoss > 0.0 && StopsAt(p, w, FailedDaily, d, k)
    ensures FigureAt(p, w, d, k) >= Fall(p, w, d, k) >= p.maxDailyLoss
  {
    PeakAboveDay(p, w, d, k);
  }

  lemma {:induction false} PeakAboveDay(p: Params, w: Draws, d: nat, k: nat)
    ensures Peak(p, w, d, k) >= Equity(p, w, d, 0)
  {
    if k > 0 { PeakAboveDay(p, w, d, k - 1); } else { PeakOnTop(p, w, d, 0); }
  }

  /** One trading day with the given trades. */
  function OneDay(pnl: seq<real>): Draws {
    Draws(day => if day == 0 then |pnl| else 0, (day: nat, i: nat) => if day == 0 && i < |pnl| then pnl[i] else 0.0)
  }

  function Standard(): Params { Params(10.0, 5.0, 10.0, 1.0, 1) }

  lemma OneDayFigures(p: Params, pnl: seq<real>, k: nat)
    requires k < |pnl|
    ensures var w := OneDay(pnl);
      && TradesOn(w, 0) == (if |pnl| > 5 then 5 else |pnl|)
      && Equity(p, w, 0, k + 1) == Equity(p, w, 0, k) + Times(pnl[k], p.risk)
      && Peak(p, w, 0, k + 1) == Max(Peak(p, w, 0, k), Equity(p, w, 0, k + 1))
      && MaxFall(p, w, 0, k + 1) == Max(MaxFall(p, w, 0, k), Fall(p, w, 0, k + 1))
  {
  }

  lemma StandardFigures(pnl: seq<real>, k: nat)
    requires k < |pnl| <= 5
    ensures var p, w := Standard(), OneDay(pnl);
      && TradesOn(w, 0) == |pnl|
      && Equity(p, w, 0, k + 1) == Equity(p, w, 0, k) + pnl[k]
      && Peak(p, w, 0, k + 1) == Max(Peak(p, w, 0, k), Equity(p, w, 0, k + 1))
      && MaxFall(p, w, 0, k + 1) == Max(MaxFall(p, w, 0, k), Fall(p, w, 0, k + 1))
  {
    OneDayFigures(Standard(), pnl, k);
    assert Times(pnl[k], 1.0) == pnl[k];
  }

  /** Three wins of 4 at half a percent a trade end at 6: the target of 10 is not reached. */
  lemma RiskSizesTheTrade()
    ensures var p, w := Params(10.0, 5.0, 10.0, 0.5, 1), OneDay([4.0, 4.0, 4.0]);
      StopsAt(p, w, FailedTime, 1, 0) && Equity(p, w, 1, 0) == 6.0
  {
    var p, pnl := Params(10.0, 5.0, 10.0, 0.5, 1), [4.0, 4.0, 4.0];
    var w := OneDay(pnl);
    OneDayFigures(p, pnl, 0);
    OneDayFigures(p, pnl, 1);
    OneDayFigures(p, pnl, 2);
    assert Times(4.0, 0.5) == 2.0;
    assert Equity(p, w, 0, 0) == 0.0 && Equity(p, w, 0, 1) == 2.0 && Equity(p, w, 0, 2) == 4.0;
    assert QuietTrades(p, w, 0, 3);
    assert QuietDay(p, w, 0);
  }

  /** Of seven wins of 1 on one day five are taken: the target of 6 is not reached. */
  lemma FiveTradesADay()
    ensures var p, w := Params(6.0, 5.0, 10.0, 1.0, 1), OneDay([1.0, 1.0, 1.0, 1.0, 1.0, 1.0, 1.0]);
      StopsAt(p, w, FailedTime, 1, 0) && Equity(p, w, 1, 0) == 5.0
  {
    var p, pnl := Params(6.0, 5.0, 10.0, 1.0, 1), [1.0, 1.0, 1.0, 1.0, 1.0, 1.0, 1.0];
    var w := OneDay(pnl);
    OneDayFigures(p, pnl, 0);
    OneDayFigures(p, pnl, 1);
    OneDayFigures(p, pnl, 2);
    OneDayFigures(p, pnl, 3);
    OneDayFigures(p, pnl, 4);
    assert Times(1.0, 1.0) == 1.0;
    assert Equity(p, w, 0, 0) == 0.0 && Equity(p, w, 0, 1) == 1.0 && Equity(p, w, 0, 2) == 2.0;
    assert Equity(p, w, 0, 3) == 3.0 && Equity(p, w, 0, 4) == 4.0;
    assert QuietTrades(p, w, 0, 5);
    assert QuietDay(p, w, 0);
  }

  /** Up 2, down 4, up 12: a pass that had fallen by 4, and reports nothing. */
  lemma PassHidesFall()
    ensures var p, w := Standard(), OneDay([2.0, -4.0, 12.0]);
      StopsAt(p, w, Passed(1), 0, 3) && MaxFall(p, w, 0, 3) == 4.0 && FigureAt(p, w, 0, 3) == 0.0
  {
    var pnl := [2.0, -4.0, 12.0];
    StandardFigures(pnl, 0);
    StandardFigures(pnl, 1);
    StandardFigures(pnl, 2);
    var p, w := Standard(), OneDay(pnl);
    assert Equity(p, w, 0, 0) == 0.0 && Equity(p, w, 0, 1) == 2.0 && Equity(p, w, 0, 2) == -2.0;
    assert QuietTrades(p, w, 0, 2);
    assert Reaches(p, w, 0, 3);
  }

  /** Up 2, down 1: time runs out 1 below the peak, and 2 is reported. */
  lemma ProfitIsReportedAsFall()
    ensures var p, w := Standard(), OneDay([2.0, -1.0]);
      StopsAt(p, w, FailedTime, 1, 0) && MaxFall(p, w, 1, 0) == 1.0 && FigureAt(p, w, 1, 0) == 2.0
  {
    var pnl := [2.0, -1.0];
    StandardFigures(pnl, 0);
    StandardFigures(pnl, 1);
    var p, w := Standard(), OneDay(pnl);
    assert Equity(p, w, 0, 0) == 0.0 && Equity(p, w, 0, 1) == 2.0 && Equity(p, w, 0, 2) == 1.0;
    assert QuietTrades(p, w, 0, 2);
    assert QuietDay(p, w, 0);
    assert Equity(p, w, 1, 0) == 1.0 && Peak(p, w, 1, 0) == 2.0 && MaxFall(p, w, 1, 0) == 1.0;
  }

  // ---------- Counting ----------

  /** The four counters, and per simulation the day of a pass, the final equity and the drawdown figure. */
  datatype Tally = Tally(passed: nat, failedDd: nat, failedDaily: nat, failedTime: nat, daysToPass: seq<nat>,
                         finalEquity: seq<real>, maxDdPct: seq<real>)

  /** An outcome with the day of a pass forgotten. */
  function KindOf(o: Outcome): Outcome { if o.Passed? then Passed(0) else o }

  /** Number of recorded paths of one kind. */
  function CountOf(os: seq<Outcome>, kind: Outcome): nat {
    if os == [] then 0 else CountOf(os[..|os| - 1], kind) + if KindOf(os[|os| - 1]) == kind then 1 else 0
  }

  /** The days of the passes, in order. */
  function PassDays(os: seq<Outcome>): seq<nat> {
    if os == [] then []
    else PassDays(os[..|os| - 1]) + if os[|os| - 1].Passed? then [os[|os| - 1].day] else []
  }

  /** Simulation i is recorded with its outcome and with the figures of the place where it stopped. */
  ghost predicate Recorded(p: Params, w: Draws, o: Outcome, finalEquity: real, maxDd: real) {
    exists d, k :: StopsAt(p, w, o, d, k) && finalEquity == Equity(p, w, d, k) &&
                   maxDd == ReportedDd(Equity(p, w, d, k), Peak(p, w, d, k))
  }

  /** The counters are those of the recorded outcomes, and account for every simulation. */
  ghost predicate Tallied(p: Params, t: Tally, os: seq<Outcome>) {
    t.passed + t.failedDd + t.failedDaily + t.failedTime == |os| &&
    t.passed == CountOf(os, Passed(0)) && t.failedDd == CountOf(os, FailedDd) &&
    t.failedDaily == CountOf(os, FailedDaily) && t.failedTime == CountOf(os, FailedTime) &&
    t.daysToPass == PassDays(os) && |t.daysToPass| == t.passed &&
    forall day :: day in t.daysToPass ==> 0 < day <= p.tradingDays
  }

  method CountOutcome(p: Params, t0: Tally, ghost os: seq<Outcome>, o: Outcome) returns (t: Tally)
    requires Tallied(p, t0, os) && (o.Passed? ==> 0 < o.day <= p.tradingDays)
    ensures Tallied(p, t, os + [o]) && t.finalEquity == t0.finalEquity && t.maxDdPct == t0.maxDdPct
  {
    assert (os + [o])[..|os|] == os;
    match o
    case Passed(day) => t := t0.(passed := t0.passed + 1, daysToPass := t0.daysToPass + [day]);
    case FailedDd => t := t0.(failedDd := t0.failedDd + 1);
    case FailedDaily => t := t0.(failedDaily := t0.failedDaily + 1);
    case FailedTime => t := t0.(failedTime := t0.failedTime + 1);
  }

  /** One simulation, with the two figures that are kept of it. */
  method RunPath(p: Params, w: Draws) returns (o: Outcome, equity: real, maxDd: real)
    ensures Recorded(p, w, o, equity, maxDd) && (o.Passed? ==> 0 < o.day <= p.tradingDays)
  {
    var peakEquity;
    o, equity, peakEquity := SimulatePath(p, w);
    maxDd := if peakEquity > equity then peakEquity - Min(equity, 0.0) else 0.0;
  }

  ghost predicate AllRecorded(p: Params, draws: nat -> Draws, t: Tally, os: seq<Outcome>) {
    |os| == |t.finalEquity| == |t.maxDdPct| &&
    forall i :: 0 <= i < |os| ==> Recorded(p, draws(i), os[i], t.finalEquity[i], t.maxDdPct[i])
  }

  /** Draws are given per simulation; `os` records how each path ended. */
  method SimulateChallenge(p: Params, draws: nat -> Draws, nSimulations: nat) returns (t: Tally, os: seq<Outcome>)
    ensures |os| == nSimulations && AllRecorded(p, draws, t, os) && Tallied(p, t, os)
  {
    t, os := Tally(0, 0, 0, 0, [], [], []), [];
    for i := 0 to nSimulations
      invariant |os| == i && AllRecorded(p, draws, t, os) && Tallied(p, t, os)
    {
      var o, equity, maxDd := RunPath(p, draws(i));
      t := CountOutcome(p, t, os, o);
      os := os + [o];
      t := t.(finalEquity := t.finalEquity + [equity], maxDdPct := t.maxDdPct + [maxDd]);
    }
  }
}
