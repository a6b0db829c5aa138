/** The promotion gate and the discovery tiers. */
module Gate {
  import opened Common
  import opened Metrics
  import opened Numbers

  // ---------- Trade metrics ----------

  predicate Exceeds(x: Option<Num>, bound: real) { x.Some? && Less(Fin(bound), x.value) }

  predicate AtLeast(x: Option<Num>, bound: real) { x.Some? && AtMost(Fin(bound), x.value) }

  /** A profit factor is infinite when there are wins and no loss. */
  datatype TradeMetrics = TradeMetrics(totalTrades: nat, expectancy: Option<Num>, profitFactor: Option<Num>)

  /** Rows whose pnl_r parses as a number, `nan` and `inf` included, in order. */
  function Parsed(rows: seq<Option<Num>>): seq<Num> {
    if rows == [] then []
    else Parsed(rows[..|rows| - 1]) + if rows[|rows| - 1].Some? then [rows[|rows| - 1].value] else []
  }

  function MetricsOf(pnl: seq<Num>): TradeMetrics {
    var gain, loss := Total(Positive(pnl)), Magnitude(Total(Negative(pnl)));
    TradeMetrics(
      |pnl|,
      if |pnl| == 0 then None else Some(Quotient(Total(pnl), Fin(|pnl| as real))),
      if |pnl| == 0 then None
      else if loss == Fin(0.0) then (if Less(Fin(0.0), gain) then Some(Inf(true)) else None)
      else Some(Quotient(gain, loss)))
  }

  method ComputeTradeMetrics(rows: seq<Option<Num>>) returns (m: TradeMetrics)
    ensures m == MetricsOf(Parsed(rows))
  {
    var pnlValues := [];
    for i := 0 to |rows|
      invariant pnlValues == Parsed(rows[..i])
    {
      assert rows[..i + 1][..i] == rows[..i];
      if rows[i].Some? { pnlValues := pnlValues + [rows[i].value]; }
    }
    assert rows[..|rows|] == rows;
    m := MetricsOf(pnlValues);
  }

  /** Sum of the positive numbers. */
  function GrossGain(pnl: seq<real>): real { Sum(pnl) + GrossLoss(pnl) }

  /** The sums over one sign, apart from infinities, are the gross gain and loss of the finite results. */
  lemma {:induction false} SignedReals(s: seq<Num>)
    ensures Sum(Reals(Positive(s))) == GrossGain(Reals(s)) >= 0.0
    ensures Sum(Reals(Negative(s))) == -GrossLoss(Reals(s)) <= 0.0
  {
    if s == [] {
      assert Losses([]) == [];
    } else {
      var init, x := s[..|s| - 1], s[|s| - 1];
      SignedReals(init);
      OneMoreSigned(init, x);
      assert s == init + [x];
    }
  }

  lemma OneMoreSigned(s: seq<Num>, x: Num)
    ensures var gain, loss := if x.Fin? then Max(0.0, x.value) else 0.0, if x.Fin? then LossOf(x.value) else 0.0;
      && Sum(Reals(Positive(s + [x]))) == Sum(Reals(Positive(s))) + gain
      && Sum(Reals(Negative(s + [x]))) == Sum(Reals(Negative(s))) - loss
      && Sum(Reals(s + [x])) == Sum(Reals(s)) + gain - loss
      && GrossLoss(Reals(s + [x])) == GrossLoss(Reals(s)) + loss
  {
    SignsAppend(s, x);
    RealsAppend(s, x);
    RealsAppend(Positive(s), x);
    RealsAppend(Negative(s), x);
    if x.Fin? {
      SumAppend(Reals(s), x.value);
      SumAppend(Reals(Positive(s)), x.value);
      SumAppend(Reals(Negative(s)), x.value);
      GrossLossAppend(Reals(s), x.value);
    }
  }

  lemma GainAndLoss(s: seq<Num>)
    ensures Total(Positive(s)) == if Inf(true) in s then Inf(true) else Fin(GrossGain(Reals(s)))
    ensures Total(Negative(s)) == if Inf(false) in s then Inf(false) else Fin(-GrossLoss(Reals(s)))
    ensures GrossGain(Reals(s)) >= 0.0 && GrossLoss(Reals(s)) >= 0.0
  {
    SignedTotals(s);
    SignedReals(s);
  }

  /** In terms of sums, the profit factor rule says: no infinite loss, and an infinite gain or one that is positive
      and at least 1.25 times the losses. */
  lemma ProfitFactorRule(pnl: seq<Num>)
    ensures AtLeast(MetricsOf(pnl).profitFactor, 1.25) <==>
      Inf(false) !in pnl &&
      (Inf(true) in pnl ||
       (GrossGain(Reals(pnl)) > 0.0 && GrossGain(Reals(pnl)) >= 1.25 * GrossLoss(Reals(pnl))))
  {
    GainAndLoss(pnl);
    var gain, loss := GrossGain(Reals(pnl)), GrossLoss(Reals(pnl));
    if loss > 0.0 {
      RatioBound(gain, loss);
    }
  }

  lemma RatioBound(gain: real, loss: real)
    requires loss > 0.0
    ensures gain / loss >= 1.25 <==> gain >= 1.25 * loss
  {
    var q := gain / loss;
    assert q * loss == gain;
    assert (q - 1.25) * loss == gain - 1.25 * loss;
    assert q < 1.25 ==> (q - 1.25) * loss < 0.0;
    assert q >= 1.25 ==> (q - 1.25) * loss >= 0.0;
  }

  /** The expectancy is undefined exactly when a result is, or when infinite results cancel. */
  lemma ExpectancyUndefined(pnl: seq<Num>)
    ensures MetricsOf(pnl).expectancy == Some(NaN) <==> NaN in pnl || (Inf(true) in pnl && Inf(false) in pnl)
    ensures MetricsOf(pnl).profitFactor == Some(NaN) <==> Inf(true) in pnl && Inf(false) in pnl
  {
    TotalClosed(pnl);
    GainAndLoss(pnl);
  }

  /** The profit factor rule implies the expectancy rule, unless a result is NaN. */
  lemma ProfitFactorForcesExpectancy(pnl: seq<Num>)
    requires AtLeast(MetricsOf(pnl).profitFactor, 1.25)
    ensures Exceeds(MetricsOf(pnl).expectancy, 0.0) <==> NaN !in pnl
  {
    ProfitFactorRule(pnl);
    TotalClosed(pnl);
    GainAndLoss(pnl);
    MeanPositive(Total(pnl), |pnl| as real);
  }

  lemma MeanPositive(total: Num, n: real)
    requires n > 0.0
    ensures Less(Fin(0.0), Quotient(total, Fin(n))) <==> Less(Fin(0.0), total)
  {
    if total.Fin? {
      var mean := total.value / n;
      assert mean * n == total.value;
    }
  }

  lemma FiniteTotals(pnl: seq<Num>)
    requires forall x :: x in pnl ==> x.Fin?
    ensures Total(pnl) == Fin(Sum(Reals(pnl)))
    ensures Total(Positive(pnl)) == Fin(GrossGain(Reals(pnl))) && Total(Negative(pnl)) == Fin(-GrossLoss(Reals(pnl)))
    ensures GrossGain(Reals(pnl)) >= 0.0 && GrossLoss(Reals(pnl)) >= 0.0
  {
    assert NaN !in pnl && Inf(true) !in pnl && Inf(false) !in pnl;
    TotalClosed(pnl);
    GainAndLoss(pnl);
  }

  /** The quotient taken back. */
  predicate IsQuotient(q: Option<Num>, x: real, d: real) { q.Some? && q.value.Fin? && q.value.value * d == x }

  lemma QuotientIs(x: real, d: real)
    requires d != 0.0
    ensures IsQuotient(Some(Quotient(Fin(x), Fin(d))), x, d)
  {
    QuotientTimes(x, d);
  }

  lemma MetricsFrom(pnl: seq<Num>, total: Num, gain: Num, loss: Num)
    requires pnl != [] && total == Total(pnl) && gain == Total(Positive(pnl)) && loss == Magnitude(Total(Negative(pnl)))
    ensures MetricsOf(pnl).totalTrades == |pnl|
    ensures MetricsOf(pnl).expectancy == Some(Quotient(total, Fin(|pnl| as real)))
    ensures MetricsOf(pnl).profitFactor
         == if loss == Fin(0.0) then (if Less(Fin(0.0), gain) then Some(Inf(true)) else None)
            else Some(Quotient(gain, loss))
  {
  }

  /** On finite results expectancy times the number of trades is the total. */
  lemma ExpectancyIsMean(pnl: seq<Num>)
    requires pnl != [] && forall x :: x in pnl ==> x.Fin?
    ensures MetricsOf(pnl).totalTrades == |pnl|
    ensures IsQuotient(MetricsOf(pnl).expectancy, Sum(Reals(pnl)), |pnl| as real)
  {
    FiniteTotals(pnl);
    MetricsFrom(pnl, Total(pnl), Total(Positive(pnl)), Magnitude(Total(Negative(pnl))));
    QuotientIs(Sum(Reals(pnl)), |pnl| as real);
  }

  /** On finite results profit factor times losses is the gain; without losses it is infinite or missing. */
  lemma ProfitFactorIsRatio(pnl: seq<Num>)
    requires pnl != [] && forall x :: x in pnl ==> x.Fin?
    ensures var pf, gain, loss := MetricsOf(pnl).profitFactor, GrossGain(Reals(pnl)), GrossLoss(Reals(pnl));
      if loss == 0.0 then pf == if gain > 0.0 then Some(Inf(true)) else None else IsQuotient(pf, gain, loss)
  {
    var gain, loss := GrossGain(Reals(pnl)), GrossLoss(Reals(pnl));
    FiniteTotals(pnl);
    assert Magnitude(Fin(-loss)) == Fin(loss);
    MetricsFrom(pnl, Total(pnl), Fin(gain), Fin(loss));
    if loss != 0.0 { QuotientIs(gain, loss); }
  }

  // ---------- The artifacts ----------

  datatype Warning = Warning(code: string, count: Option<int>)

  /** Drawdown figures by dimension and row; None where a row has no number. */
  type Stability = seq<seq<Option<real>>>

  datatype Artifacts = Artifacts(confidence: string, guardVerdicts: seq<string>, warnings: seq<Warning>,
                                 stability: Stability, baseline: Option<Stability>, worsenRatio: Option<real>)

  /** The two string methods of the source, kept abstract. */
  datatype Text = Text(upper: string -> string, strip: string -> string)

  method HasProtectiveGuard(tx: Text, verdicts: seq<string>) returns (found: bool)
    ensures found <==> exists v :: v in verdicts && tx.upper(v) == "EDGE_PROTECTIVE"
  {
    for i := 0 to |verdicts|
      invariant forall j :: 0 <= j < i ==> tx.upper(verdicts[j]) != "EDGE_PROTECTIVE"
    {
      if tx.upper(verdicts[i]) == "EDGE_PROTECTIVE" { return true; }
    }
    return false;
  }

  /** A missing count reads as one, and so does a count of zero. */
  function CountRead(w: Warning): int { if w.count.None? || w.count.value == 0 then 1 else w.count.value }

  function MajorOf(tx: Text, ws: seq<Warning>): seq<Warning> {
    if ws == [] then []
    else
      var w := ws[|ws| - 1];
      MajorOf(tx, ws[..|ws| - 1]) + if tx.strip(w.code) != "" && CountRead(w) > 0 then [w] else []
  }

  method MajorWarnings(tx: Text, ws: seq<Warning>) returns (major: seq<Warning>)
    ensures major == MajorOf(tx, ws)
  {
    major := [];
    for i := 0 to |ws|
      invariant major == MajorOf(tx, ws[..i])
    {
      assert ws[..i + 1][..i] == ws[..i];
      var code, count := tx.strip(ws[i].code), if ws[i].count.Some? then ws[i].count.value else 1;
      count := if count == 0 then 1 else count;
      if code != "" && count > 0 { major := major + [ws[i]]; }
    }
    assert ws[..|ws|] == ws;
  }

  /** No warning counts as major exactly when each has a blank code or a negative count: a count of zero is major. */
  lemma {:induction false} NoMajorExactly(tx: Text, ws: seq<Warning>)
    ensures MajorOf(tx, ws) == [] <==>
      forall w :: w in ws ==> tx.strip(w.code) == "" || (w.count.Some? && w.count.value < 0)
  {
    if ws != [] {
      var init, last := ws[..|ws| - 1], ws[|ws| - 1];
      NoMajorExactly(tx, init);
      assert forall w :: w in ws <==> w in init || w == last;
    }
  }

  ghost predicate Occurs(st: Stability, x: real) { exists rows :: rows in st && Some(x) in rows }

  /** m is the largest drawdown in the tables, or None when they hold no number. */
  ghost predicate IsWorst(st: Stability, m: Option<real>) {
    (m.None? ==> forall x :: !Occurs(st, x)) &&
    (m.Some? ==> Occurs(st, m.value) && forall x :: Occurs(st, x) ==> x <= m.value)
  }

  /** The numbers of the tables, dimension by dimension. */
  method CollectDrawdowns(st: Stability) returns (values: seq<real>)
    ensures forall x :: x in values <==> Occurs(st, x)
  {
    values := [];
    for i := 0 to |st|
      invariant forall x :: x in values <==> Occurs(st[..i], x)
    {
      ghost var before := values;
      for j := 0 to |st[i]|
        invariant forall x :: x in values <==> x in before || Some(x) in st[i][..j]
      {
        if st[i][j].Some? { values := values + [st[i][j].value]; }
      }
      assert st[i][..|st[i]|] == st[i];
      assert forall rows :: rows in st[..i + 1] <==> rows in st[..i] || rows == st[i];
    }
    assert st[..|st|] == st;
  }

  method MaxDrawdownFromStability(st: Stability) returns (m: Option<real>)
    ensures IsWorst(st, m)
  {
    var values := CollectDrawdowns(st);
    if values == [] { return None; }
    var best := values[0];
    for i := 1 to |values|
      invariant best in values && forall j :: 0 <= j < i ==> values[j] <= best
    {
      best := Max(best, values[i]);
    }
    return Some(best);
  }

  ghost predicate ReadFrom(tx: Text, art: Artifacts, ev: Evidence) {
    ev.confidence == tx.upper(art.confidence) &&
    (ev.protectiveGuard <==> exists v :: v in art.guardVerdicts && tx.upper(v) == "EDGE_PROTECTIVE") &&
    ev.majorWarnings == |MajorOf(tx, art.warnings)| &&
    IsWorst(art.stability, ev.maxDd) &&
    (if art.baseline.Some? then IsWorst(art.baseline.value, ev.baselineMaxDd) else ev.baselineMaxDd == None) &&
    ev.worsenRatio == art.worsenRatio
  }

  method ReadEvidence(tx: Text, art: Artifacts) returns (ev: Evidence)
    ensures ReadFrom(tx, art, ev)
  {
    var protective := HasProtectiveGuard(tx, art.guardVerdicts);
    var major := MajorWarnings(tx, art.warnings);
    var maxDd := MaxDrawdownFromStability(art.stability);
    var baselineMaxDd := None;
    if art.baseline.Some? { baselineMaxDd := MaxDrawdownFromStability(art.baseline.value); }
    ev := Evidence(tx.upper(art.confidence), protective, |major|, maxDd, baselineMaxDd, art.worsenRatio);
  }

  /** The artifacts determine the evidence, whatever the order of guards, dimensions and rows. */
  lemma EvidenceUnique(tx: Text, a: Artifacts, b: Artifacts, ev: Evidence, ev': Evidence)
    requires ReadFrom(tx, a, ev) && ReadFrom(tx, b, ev')
    requires a.confidence == b.confidence && a.warnings == b.warnings && a.worsenRatio == b.worsenRatio
    requires forall v :: v in a.guardVerdicts <==> v in b.guardVerdicts
    requires forall x :: Occurs(a.stability, x) <==> Occurs(b.stability, x)
    requires a.baseline.Some? <==> b.baseline.Some?
    requires a.baseline.Some? ==> forall x :: Occurs(a.baseline.value, x) <==> Occurs(b.baseline.value, x)
    ensures ev == ev'
  {
    WorstUnique(a.stability, b.stability, ev.maxDd, ev'.maxDd);
    if a.baseline.Some? {
      WorstUnique(a.baseline.value, b.baseline.value, ev.baselineMaxDd, ev'.baselineMaxDd);
    }
  }

  lemma WorstUnique(a: Stability, b: Stability, m: Option<real>, m': Option<real>)
    requires IsWorst(a, m) && IsWorst(b, m') && forall x :: Occurs(a, x) <==> Occurs(b, x)
    ensures m == m'
  {
  }

  // ---------- The gate ----------

  datatype Decision = REJECT | VALIDATION_REQUIRED | PROMOTE

  datatype Rule = ConfidenceNotLow | EnoughTrades | ExpectancyPositive | ProfitFactorHigh | GuardProtects
                | NoMajorWarnings | DrawdownHolds

  datatype Check = Check(rule: Rule, passed: bool, failOutcome: Decision)

  /** What the gate finds in the artifacts besides the trades. */
  datatype Evidence = Evidence(confidence: string, protectiveGuard: bool, majorWarnings: nat,
                               maxDd: Option<real>, baselineMaxDd: Option<real>, worsenRatio: Option<real>)

  /** The rules whose failure asks for validation, other than the trade count. */
  predicate EvidenceHolds(ev: Evidence) {
    ev.confidence != "LOW" && ev.protectiveGuard && ev.majorWarnings == 0 &&
    (ev.baselineMaxDd.Some? && ev.maxDd.Some? && ev.worsenRatio.Some? ==>
       ev.maxDd.value <= Times(ev.baselineMaxDd.value, ev.worsenRatio.value))
  }

  function Decide(m: TradeMetrics, ev: Evidence): Decision {
    if !Exceeds(m.expectancy, 0.0) || !AtLeast(m.profitFactor, 1.25) then REJECT
    else if m.totalTrades < 100 || !EvidenceHolds(ev) then VALIDATION_REQUIRED
    else PROMOTE
  }

  /** Failed checks with the given outcome, in order. */
  function Failed(checks: seq<Check>, outcome: Decision): seq<Check> {
    if checks == [] then []
    else
      var c := checks[|checks| - 1];
      Failed(checks[..|checks| - 1], outcome) + if !c.passed && c.failOutcome == outcome then [c] else []
  }

  lemma {:induction false} FailedNone(checks: seq<Check>, outcome: Decision)
    ensures Failed(checks, outcome) == [] <==>
      forall c :: c in checks && c.failOutcome == outcome ==> c.passed
  {
    if checks != [] {
      var s', c := checks[..|checks| - 1], checks[|checks| - 1];
      FailedNone(s', outcome);
      assert forall d :: d in checks <==> d in s' || d == c;
    }
  }

  /** The checks in the order they are added; the drawdown one only when all its inputs are known. */
  function ChecksFor(m: TradeMetrics, ev: Evidence): seq<Check> {
    [Check(ConfidenceNotLow, ev.confidence != "LOW", VALIDATION_REQUIRED),
     Check(EnoughTrades, m.totalTrades >= 100, VALIDATION_REQUIRED),
     Check(ExpectancyPositive, Exceeds(m.expectancy, 0.0), REJECT),
     Check(ProfitFactorHigh, AtLeast(m.profitFactor, 1.25), REJECT),
     Check(GuardProtects, ev.protectiveGuard, VALIDATION_REQUIRED),
     Check(NoMajorWarnings, ev.majorWarnings == 0, VALIDATION_REQUIRED)]
    + if ev.baselineMaxDd.Some? && ev.maxDd.Some? && ev.worsenRatio.Some?
      then [Check(DrawdownHolds,
                  ev.maxDd.value <= Times(ev.baselineMaxDd.value, ev.worsenRatio.value), VALIDATION_REQUIRED)]
      else []
  }

  lemma NothingRejects(m: TradeMetrics, ev: Evidence)
    ensures Failed(ChecksFor(m, ev), REJECT) == [] <==>
      Exceeds(m.expectancy, 0.0) && AtLeast(m.profitFactor, 1.25)
  {
    var cs := ChecksFor(m, ev);
    FailedNone(cs, REJECT);
    assert cs[2] in cs && cs[3] in cs;
    assert forall i :: 0 <= i < |cs| && cs[i].failOutcome == REJECT ==> i == 2 || i == 3;
  }

  lemma NothingToValidate(m: TradeMetrics, ev: Evidence)
    ensures Failed(ChecksFor(m, ev), VALIDATION_REQUIRED) == [] <==> m.totalTrades >= 100 && EvidenceHolds(ev)
  {
    var cs := ChecksFor(m, ev);
    FailedNone(cs, VALIDATION_REQUIRED);
    assert cs[0] in cs && cs[1] in cs && cs[4] in cs && cs[5] in cs && (|cs| > 6 ==> cs[6] in cs);
    assert forall i :: 0 <= i < |cs| && cs[i].failOutcome == VALIDATION_REQUIRED ==> i != 2 && i != 3;
    assert |cs| <= 7;
  }

  /** The checks added one by one, and the verdict they lead to. */
  method EvaluateGate(tx: Text, art: Artifacts, rows: seq<Option<Num>>)
    returns (decision: Decision, failed: seq<Check>, checks: seq<Check>, ev: Evidence)
    ensures ReadFrom(tx, art, ev)
    ensures decision == Decide(MetricsOf(Parsed(rows)), ev)
    ensures checks == ChecksFor(MetricsOf(Parsed(rows)), ev)
    ensures failed == Failed(checks, REJECT) + Failed(checks, VALIDATION_REQUIRED)
    ensures decision == PROMOTE <==> failed == []
  {
    var m := ComputeTradeMetrics(rows);
    ev := ReadEvidence(tx, art);
    checks := AddChecks(m, ev);
    decision, failed := Conclude(m, ev, checks);
  }

  method AddChecks(m: TradeMetrics, ev: Evidence) returns (checks: seq<Check>)
    ensures checks == ChecksFor(m, ev)
  {
    checks := [];
    checks := checks + [Check(ConfidenceNotLow, ev.confidence != "LOW", VALIDATION_REQUIRED)];
    checks := checks + [Check(EnoughTrades, m.totalTrades >= 100, VALIDATION_REQUIRED)];
    checks := checks + [Check(ExpectancyPositive, Exceeds(m.expectancy, 0.0), REJECT)];
    checks := checks + [Check(ProfitFactorHigh, AtLeast(m.profitFactor, 1.25), REJECT)];
    checks := checks + [Check(GuardProtects, ev.protectiveGuard, VALIDATION_REQUIRED)];
    checks := checks + [Check(NoMajorWarnings, ev.majorWarnings == 0, VALIDATION_REQUIRED)];
    if ev.baselineMaxDd.Some? && ev.maxDd.Some? && ev.worsenRatio.Some? {
      var threshold := Times(ev.baselineMaxDd.value, ev.worsenRatio.value);
      checks := checks + [Check(DrawdownHolds, ev.maxDd.value <= threshold, VALIDATION_REQUIRED)];
    }
  }

  method Conclude(m: TradeMetrics, ev: Evidence, checks: seq<Check>) returns (decision: Decision, failed: seq<Check>)
    requires checks == ChecksFor(m, ev)
    ensures decision == Decide(m, ev)
    ensures failed == Failed(checks, REJECT) + Failed(checks, VALIDATION_REQUIRED)
    ensures decision == PROMOTE <==> failed == []
  {
    NothingRejects(m, ev);
    NothingToValidate(m, ev);
    var rejectReasons, validationReasons := Failed(checks, REJECT), Failed(checks, VALIDATION_REQUIRED);
    if rejectReasons != [] {
      decision, failed := REJECT, rejectReasons + validationReasons;
    } else if validationReasons != [] {
      decision, failed := VALIDATION_REQUIRED, validationReasons;
    } else {
      decision, failed := PROMOTE, [];
    }
  }

  // ---------- Gate theorems ----------

  /** A run is promoted exactly when all of this holds, the drawdown rule only where all its figures are known. */
  lemma PromoteExactly(rows: seq<Option<Num>>, ev: Evidence)
    ensures var m := MetricsOf(Parsed(rows));
      Decide(m, ev) == PROMOTE <==>
        && |Parsed(rows)| >= 100
        && NaN !in Parsed(rows) && AtLeast(m.profitFactor, 1.25)
        && ev.confidence != "LOW" && ev.protectiveGuard && ev.majorWarnings == 0
        && match (ev.maxDd, ev.baselineMaxDd, ev.worsenRatio)
           case (Some(dd), Some(base), Some(ratio)) => dd <= base * ratio
           case _ => true
  {
    RejectExactly(rows, ev);
  }

  /** Of the two rejecting rules the profit factor alone decides, unless a row reads NaN: then the gate rejects. */
  lemma RejectExactly(rows: seq<Option<Num>>, ev: Evidence)
    ensures var m := MetricsOf(Parsed(rows));
      Decide(m, ev) == REJECT <==> !AtLeast(m.profitFactor, 1.25) || NaN in Parsed(rows)
  {
    var pnl := Parsed(rows);
    if AtLeast(MetricsOf(pnl).profitFactor, 1.25) { ProfitFactorForcesExpectancy(pnl); }
  }

  /** One `nan` beside a win passes the profit factor rule, with an infinite factor, and is rejected. */
  lemma NanIsRejected(ev: Evidence)
    ensures var m := MetricsOf(Parsed([Some(NaN), Some(Fin(1.0))]));
      m.profitFactor == Some(Inf(true)) && Decide(m, ev) == REJECT
  {
    NanAndWin();
    RejectExactly([Some(NaN), Some(Fin(1.0))], ev);
  }

  lemma NanAndWin()
    ensures Parsed([Some(NaN), Some(Fin(1.0))]) == [NaN, Fin(1.0)]
    ensures MetricsOf([NaN, Fin(1.0)]) == TradeMetrics(2, Some(NaN), Some(Inf(true)))
  {
    var rows: seq<Option<Num>>, s := [Some(NaN), Some(Fin(1.0))], [NaN, Fin(1.0)];
    assert rows[..1] == [Some(NaN)] && rows[..1][..0] == [];
    assert Parsed(rows[..1]) == [NaN];
    assert Reals([NaN]) == [] && s[..1] == [NaN];
    GrossLossAppend([], 1.0);
    assert Reals(s) == [] + [1.0] && Losses([]) == [];
    SumAppend([], 1.0);
    ExpectancyUndefined(s);
    GainAndLoss(s);
  }

  lemma {:induction false} ParsedConcat(a: seq<Option<Num>>, b: seq<Option<Num>>)
    ensures Parsed(a + b) == Parsed(a) + Parsed(b)
  {
    if b == [] {
      assert a + b == a;
    } else {
      ParsedConcat(a, b[..|b| - 1]);
      assert (a + b)[..|a + b| - 1] == a + b[..|b| - 1];
    }
  }

  lemma {:induction false} ParsedPermutation(a: seq<Option<Num>>, b: seq<Option<Num>>)
    requires multiset(a) == multiset(b)
    ensures multiset(Parsed(a)) == multiset(Parsed(b))
    decreases |a|
  {
    if a == [] {
      assert |multiset(b)| == 0;
    } else {
      var x, a' := a[|a| - 1], a[..|a| - 1];
      assert a == a' + [x];
      assert x in multiset(b);
      var i :| 0 <= i < |b| && b[i] == x;
      assert b == b[..i] + [x] + b[i + 1..];
      DropOccurrence(a', x, b[..i], b[i + 1..]);
      ParsedPermutation(a', b[..i] + b[i + 1..]);
      ParsedMiddle(b[..i], x, b[i + 1..]);
      ParsedMiddle(a', x, []);
      assert a' + [x] + [] == a && a' + [] == a';
    }
  }

  lemma ParsedMiddle(u: seq<Option<Num>>, x: Option<Num>, v: seq<Option<Num>>)
    ensures multiset(Parsed(u + [x] + v))
         == multiset(Parsed(u + v)) + if x.Some? then multiset{x.value} else multiset{}
  {
    ParsedConcat(u + [x], v);
    ParsedConcat(u, [x]);
    ParsedConcat(u, v);
    assert [x][..0] == [];
    assert Parsed([x]) == if x.Some? then [x.value] else [];
  }

  /** The metrics, and so the decision, do not depend on the order of the rows. */
  lemma DecisionIgnoresOrder(a: seq<Option<Num>>, b: seq<Option<Num>>, ev: Evidence)
    requires multiset(a) == multiset(b)
    ensures MetricsOf(Parsed(a)) == MetricsOf(Parsed(b))
    ensures Decide(MetricsOf(Parsed(a)), ev) == Decide(MetricsOf(Parsed(b)), ev)
  {
    ParsedPermutation(a, b);
    MetricsIgnoreOrder(Parsed(a), Parsed(b));
  }

  lemma MetricsIgnoreOrder(p: seq<Num>, q: seq<Num>)
    requires multiset(p) == multiset(q)
    ensures MetricsOf(p) == MetricsOf(q)
  {
    assert |multiset(p)| == |p| && |multiset(q)| == |q|;
    TotalIgnoresOrder(p, q);
    SignedTotalsIgnoreOrder(p, q);
  }

  lemma SignedTotalsIgnoreOrder(p: seq<Num>, q: seq<Num>)
    requires multiset(p) == multiset(q)
    ensures Total(Positive(p)) == Total(Positive(q)) && Total(Negative(p)) == Total(Negative(q))
  {
    RealsPermutation(p, q);
    GrossIgnoresOrder(Reals(p), Reals(q));
    SameSpecials(p, q);
    SameSigned(p, q);
  }

  lemma SameSigned(p: seq<Num>, q: seq<Num>)
    requires GrossGain(Reals(p)) == GrossGain(Reals(q)) && GrossLoss(Reals(p)) == GrossLoss(Reals(q))
    requires Inf(true) in p <==> Inf(true) in q
    requires Inf(false) in p <==> Inf(false) in q
    ensures Total(Positive(p)) == Total(Positive(q)) && Total(Negative(p)) == Total(Negative(q))
  {
    GainAndLoss(p);
    GainAndLoss(q);
  }

  lemma GrossIgnoresOrder(p: seq<real>, q: seq<real>)
    requires multiset(p) == multiset(q)
    ensures GrossGain(p) == GrossGain(q) && GrossLoss(p) == GrossLoss(q)
  {
    SumPermutation(p, q);
    GrossLossPermutation(p, q);
  }

  function Rank(d: Decision): nat { match d case REJECT => 0 case VALIDATION_REQUIRED => 1 case PROMOTE => 2 }

  /** One more winning trade, even an infinite one, never worsens the decision. */
  lemma WinningTradeNeverHurts(rows: seq<Option<Num>>, win: Num, ev: Evidence)
    requires Less(Fin(0.0), win)
    ensures Rank(Decide(MetricsOf(Parsed(rows + [Some(win)])), ev)) >= Rank(Decide(MetricsOf(Parsed(rows)), ev))
  {
    var p, q := Parsed(rows), Parsed(rows + [Some(win)]);
    assert (rows + [Some(win)])[..|rows|] == rows;
    assert q == p + [win] && q[..|p|] == p;
    WinAdds(p, win);
    ProfitFactorRule(p);
    ProfitFactorRule(q);
    RejectExactly(rows, ev);
    RejectExactly(rows + [Some(win)], ev);
  }

  lemma WinAdds(p: seq<Num>, win: Num)
    requires Less(Fin(0.0), win)
    ensures GrossLoss(Reals(p + [win])) == GrossLoss(Reals(p)) && GrossGain(Reals(p + [win])) >= GrossGain(Reals(p))
  {
    OneMoreSigned(p, win);
  }

  // ---------- Discovery tiers ----------

  const PF_MIN_GATE := 1.25
  const RELAX_TRADE_MULT := 1.10
  const WATCHLIST_TRADE_MULT := 1.05
  const EXP_MATERIAL_SLACK := 0.08

  /** LOW < MEDIUM < HIGH; anything else has no rank. */
  function ConfidenceRank(c: Option<string>): Option<nat> {
    if c == Some("LOW") then Some(0)
    else if c == Some("MEDIUM") then Some(1)
    else if c == Some("HIGH") then Some(2)
    else None
  }

  datatype Row = Row(trades: Option<real>, expectancy: Option<Num>, profitFactor: Option<Num>, maxDd: Option<real>,
                     confidence: Option<string>)

  predicate ConfidenceNotWorse(variant: Option<string>, baseline: Option<string>) {
    var v, b := ConfidenceRank(variant), ConfidenceRank(baseline);
    v.Some? && b.Some? && v.value >= b.value
  }

  predicate DdNotMateriallyWorse(variant: Option<real>, baseline: Option<real>, maxWorsenRatio: real) {
    variant.Some? && baseline.Some? && baseline.value != 0.0 && variant.value / baseline.value <= maxWorsenRatio
  }

  /** The rules of both tiers turn a figure away when it is below a bound, so they let NaN pass. */
  predicate NotBelow(x: Option<Num>, bound: Num) { x.Some? && !Less(x.value, bound) }

  predicate NotAtMost(x: Option<Num>, bound: Num) { x.Some? && !AtMost(x.value, bound) }

  /** `baseTrades` is a number here; a missing one is read as zero by the caller. */
  predicate RelaxCandidateOk(row: Row, base: Row, baseTrades: real, maxWorsenRatio: real) {
    row.trades.Some? && baseTrades > 0.0 && row.trades.value > baseTrades * RELAX_TRADE_MULT &&
    base.expectancy.Some? && NotBelow(row.expectancy, Add(base.expectancy.value, Fin(-EXP_MATERIAL_SLACK))) &&
    NotBelow(row.profitFactor, Fin(PF_MIN_GATE)) &&
    DdNotMateriallyWorse(row.maxDd, base.maxDd, maxWorsenRatio) &&
    ConfidenceNotWorse(row.confidence, base.confidence)
  }

  predicate WatchlistOk(row: Row, baseTrades: real) {
    row.trades.Some? && baseTrades > 0.0 && row.trades.value >= baseTrades * WATCHLIST_TRADE_MULT &&
    NotAtMost(row.expectancy, Fin(0.0)) && NotBelow(row.profitFactor, Fin(PF_MIN_GATE))
  }

  datatype Tier = RelaxCandidate | Watchlist

  function ClassifyTier(row: Row, base: Row, baseTrades: real, maxWorsenRatio: real): Option<Tier> {
    if RelaxCandidateOk(row, base, baseTrades, maxWorsenRatio) then Some(RelaxCandidate)
    else if WatchlistOk(row, baseTrades) then Some(Watchlist)
    else None
  }

  /** Around the bounds, over a baseline of 100 trades with expectancy 0.3 and drawdown 5: more than 110 trades relax,
      105 are watched, 104 are nothing; the expectancy may fall by 0.08, the drawdown grow by the ratio, and the profit
      factor not stand below 1.25. */
  lemma TierBounds(trades: real, expectancy: real, pf: real, dd: real, confidence: string)
    ensures var base := Row(Some(100.0), Some(Fin(0.3)), Some(Fin(1.5)), Some(5.0), Some("MEDIUM"));
      var row := Row(Some(trades), Some(Fin(expectancy)), Some(Fin(pf)), Some(dd), Some(confidence));
      && (RelaxCandidateOk(row, base, 100.0, 1.2) <==>
            trades > 110.0 && expectancy >= 0.22 && pf >= 1.25 && dd <= 6.0 && confidence in {"MEDIUM", "HIGH"})
      && (WatchlistOk(row, 100.0) <==> trades >= 105.0 && expectancy > 0.0 && pf >= 1.25)
  {
    assert ConfidenceRank(Some(confidence)).Some? <==> confidence in {"LOW", "MEDIUM", "HIGH"};
    assert dd / 5.0 <= 1.2 <==> dd <= 6.0;
  }

  /** Whatever the figures, a relax candidate meets the watchlist rule exactly when its expectancy is not at or
      below zero. */
  lemma RelaxMeetsWatchlistExactly(row: Row, base: Row, baseTrades: real, maxWorsenRatio: real)
    requires RelaxCandidateOk(row, base, baseTrades, maxWorsenRatio)
    ensures WatchlistOk(row, baseTrades) <==> !AtMost(row.expectancy.value, Fin(0.0))
  {
  }

  /** The row was computed from some trade list. */
  ghost predicate FromTrades(row: Row, pnl: seq<Num>) {
    var m := MetricsOf(pnl);
    row.trades == Some(m.totalTrades as real) && row.expectancy == m.expectancy && row.profitFactor == m.profitFactor
  }

  /** With a profit factor that is not below the gate, an actual trade list has an expectancy above zero, or none. */
  lemma NotBelowGate(pnl: seq<Num>)
    requires NotBelow(MetricsOf(pnl).profitFactor, Fin(PF_MIN_GATE))
    ensures var m := MetricsOf(pnl);
      m.expectancy == Some(NaN) || (Exceeds(m.expectancy, 0.0) && AtLeast(m.profitFactor, PF_MIN_GATE))
  {
    ExpectancyUndefined(pnl);
    if AtLeast(MetricsOf(pnl).profitFactor, PF_MIN_GATE) { ProfitFactorForcesExpectancy(pnl); }
  }

  /** On metrics of an actual trade list the relax tier is strictly stronger than the watchlist. */
  lemma RelaxImpliesWatchlist(row: Row, base: Row, baseTrades: real, maxWorsenRatio: real, pnl: seq<Num>)
    requires FromTrades(row, pnl) && RelaxCandidateOk(row, base, baseTrades, maxWorsenRatio)
    ensures WatchlistOk(row, baseTrades)
  {
    NotBelowGate(pnl);
  }

  /** On inconsistent figures it is not: a row with a losing expectancy beside a good profit factor. */
  lemma RelaxWithoutWatchlist()
    ensures var row := Row(Some(200.0), Some(Fin(-0.05)), Some(Fin(1.3)), Some(5.0), Some("HIGH"));
      var base := Row(Some(100.0), Some(Fin(0.0)), Some(Fin(1.3)), Some(5.0), Some("HIGH"));
      ClassifyTier(row, base, 100.0, 1.2) == Some(RelaxCandidate) && !WatchlistOk(row, 100.0)
  {
  }

  /** A tiered row of an actual trade list is rejected by the gate exactly when its expectancy is NaN. */
  lemma TieredRejectedExactly(row: Row, base: Row, baseTrades: real, maxWorsenRatio: real,
                              rows: seq<Option<Num>>, ev: Evidence)
    requires FromTrades(row, Parsed(rows)) && ClassifyTier(row, base, baseTrades, maxWorsenRatio).Some?
    ensures Decide(MetricsOf(Parsed(rows)), ev) == REJECT <==> row.expectancy == Some(NaN)
  {
    NotBelowGate(Parsed(rows));
  }

  /** That happens: a `nan` beside a win is a relax candidate over one losing trade, and rejected by the gate. */
  lemma TieredAndRejected(ev: Evidence)
    ensures var row := Row(Some(2.0), Some(NaN), Some(Inf(true)), Some(5.0), Some("HIGH"));
      var base := Row(Some(1.0), Some(Fin(-1.0)), Some(Fin(0.0)), Some(5.0), Some("HIGH"));
      && FromTrades(row, Parsed([Some(NaN), Some(Fin(1.0))]))
      && ClassifyTier(row, base, 1.0, 1.2) == Some(RelaxCandidate)
      && Decide(MetricsOf(Parsed([Some(NaN), Some(Fin(1.0))])), ev) == REJECT
  {
    NanAndWin();
  }
}
