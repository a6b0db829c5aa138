/** The dual-mode portfolio simulator and its risk engine. */
module Portfolio {
  import opened Common
  import opened Sorting
  import opened Ledger

  datatype Signal = Signal(ts: int, symbol: string, regime: string, pnl: real)

  datatype Mode = Mode(riskPerTrade: real, maxDailyLoss: real, maxTotalDd: real, maxHeat: real, maxCorrelated: int)

  /** Instrument risk multipliers (1 when not listed), and the calendar. */
  datatype Config = Config(mode: Mode, riskMultiplier: map<string, real>, dayOf: int -> int, monthOf: int -> int)

  /** None when the trade is allowed, else the first word of the refusal reason. */
  function CheckTrade(m: Mode, equityPct: real, dailyPnlPct: real, openHeatPct: real,
                      sameClassCount: int): Option<string>
  {
    var ddFromPeak := if equityPct < 0.0 then -equityPct else 0.0;
    if dailyPnlPct <= -m.maxDailyLoss then Some("daily_loss_limit")
    else if ddFromPeak >= m.maxTotalDd then Some("total_dd_limit")
    else if openHeatPct + m.riskPerTrade > m.maxHeat then Some("heat_limit")
    else if sameClassCount >= m.maxCorrelated then Some("correlated_exposure")
    else None
  }

  datatype State = State(equity: real, peak: real, daily: map<int, real>, trades: seq<Trade>, blocked: map<string, nat>)

  const START := State(0.0, 0.0, map[], [],
                       map["daily_loss" := 0, "total_dd" := 0, "heat_limit" := 0, "correlated_exposure" := 0])

  function Count(blocked: map<string, nat>, key: string): nat { if key in blocked then blocked[key] else 0 }

  function MultiplierOf(cfg: Config, symbol: string): real {
    if symbol in cfg.riskMultiplier then cfg.riskMultiplier[symbol] else 1.0
  }

  function Book(cfg: Config, st: State, sig: Signal): State {
    var pct := Times(sig.pnl, Times(cfg.mode.riskPerTrade, MultiplierOf(cfg, sig.symbol)));
    var t := Trade(sig.ts, sig.symbol, sig.regime, sig.pnl, pct, st.equity + pct);
    var day := cfg.dayOf(sig.ts);
    State(t.equity, Max(st.peak, t.equity), st.daily[day := DayTotal(st.daily, day) + pct], st.trades + [t], st.blocked)
  }

  /** No position is ever recorded as open, so heat and same-class count are always zero. */
  function Step(cfg: Config, st: State, sig: Signal): State {
    var refusal := CheckTrade(cfg.mode, st.equity, DayTotal(st.daily, cfg.dayOf(sig.ts)), 0.0, 0);
    if refusal.Some? then st.(blocked := st.blocked[refusal.value := Count(st.blocked, refusal.value) + 1])
    else Book(cfg, st, sig)
  }

  function Run(cfg: Config, st: State, sigs: seq<Signal>): State {
    if sigs == [] then st else Step(cfg, Run(cfg, st, sigs[..|sigs| - 1]), sigs[|sigs| - 1])
  }

  predicate ByTime(a: Signal, b: Signal) { a.ts <= b.ts }

  method SimulatePortfolio(cfg: Config, sigs: seq<Signal>) returns (st: State)
    ensures st == Run(cfg, START, StableSort(ByTime, sigs))
  {
    var merged := StableSort(ByTime, sigs);
    var openPositions: seq<string> := [];  // created here by the source too, and never appended to
    st := START;
    for i := 0 to |merged|
      invariant openPositions == []
      invariant st == Run(cfg, START, merged[..i])
    {
      assert merged[..i + 1][..i] == merged[..i];
      st := HandleSignal(cfg, st, merged[i], openPositions);
    }
    assert merged[..|merged|] == merged;
  }

  /** One pass through the loop body. */
  method HandleSignal(cfg: Config, st0: State, sig: Signal, openPositions: seq<string>) returns (st: State)
    requires openPositions == []
    ensures st == Step(cfg, st0, sig)
  {
    st := st0;
    var day := cfg.dayOf(sig.ts);
    var openHeat := Times(|openPositions| as real, cfg.mode.riskPerTrade);
    assert openHeat == 0.0;
    var refusal := CheckTrade(cfg.mode, st.equity, DayTotal(st.daily, day), openHeat, |openPositions|);
    if refusal.Some? {
      st := st.(blocked := st.blocked[refusal.value := Count(st.blocked, refusal.value) + 1]);
    } else {
      var tradeRisk := Times(cfg.mode.riskPerTrade, MultiplierOf(cfg, sig.symbol));
      var tradePnlPct := Times(sig.pnl, tradeRisk);
      var equity := st.equity + tradePnlPct;
      st := State(equity, Max(st.peak, equity), st.daily[day := DayTotal(st.daily, day) + tradePnlPct],
                  st.trades + [Trade(sig.ts, sig.symbol, sig.regime, sig.pnl, tradePnlPct, equity)], st.blocked);
    }
  }

  // ---------- What a signal becomes, written out ----------

  /** The size of a trade: the mode's risk times the instrument's multiplier, which is one when it is not listed. */
  predicate IsSizeOf(cfg: Config, symbol: string, size: real) {
    size == Times(cfg.mode.riskPerTrade, if symbol in cfg.riskMultiplier then cfg.riskMultiplier[symbol] else 1.0)
  }

  /** The trade a signal leaves. */
  ghost predicate IsTradeOf(cfg: Config, t: Trade, sig: Signal) {
    t.ts == sig.ts && t.symbol == sig.symbol && t.tag == sig.regime && t.pnlR == sig.pnl &&
    exists size: real :: IsSizeOf(cfg, sig.symbol, size) && t.pnlPct == Times(sig.pnl, size)
  }

  /** The first rule that refuses a signal, in the order in which they are tried. */
  ghost predicate Refuses(cfg: Config, st: State, sig: Signal, reason: string) {
    var day, m := cfg.dayOf(sig.ts), cfg.mode;
    var daily := (if day in st.daily then st.daily[day] else 0.0) <= -m.maxDailyLoss;
    var floor := -st.equity >= m.maxTotalDd || 0.0 >= m.maxTotalDd;
    var heat := m.riskPerTrade > m.maxHeat;
    (reason == "daily_loss_limit" && daily) ||
    (reason == "total_dd_limit" && !daily && floor) ||
    (reason == "heat_limit" && !daily && !floor && heat) ||
    (reason == "correlated_exposure" && !daily && !floor && !heat && m.maxCorrelated <= 0)
  }

  /** One signal: it leaves its trade if no rule refuses it, and otherwise counts one for the refusing rule. */
  lemma StepExactly(cfg: Config, st: State, sig: Signal)
    ensures var st' := Step(cfg, st, sig);
      if exists reason: string :: Refuses(cfg, st, sig, reason) then
        exists reason: string :: Refuses(cfg, st, sig, reason) &&
          st' == st.(blocked := st.blocked[reason := Count(st.blocked, reason) + 1])
      else
        |st'.trades| == |st.trades| + 1 && st'.trades[..|st.trades|] == st.trades && st'.blocked == st.blocked &&
        IsTradeOf(cfg, st'.trades[|st.trades|], sig)
  {
    var refusal := CheckTrade(cfg.mode, st.equity, DayTotal(st.daily, cfg.dayOf(sig.ts)), 0.0, 0);
    if refusal.Some? {
      assert Refuses(cfg, st, sig, refusal.value);
      forall reason: string | Refuses(cfg, st, sig, reason) ensures reason == refusal.value {}
    } else {
      assert IsSizeOf(cfg, sig.symbol, Times(cfg.mode.riskPerTrade, MultiplierOf(cfg, sig.symbol)));
      assert forall reason: string :: !Refuses(cfg, st, sig, reason);
    }
  }

  /** The trades belong to different signals in order, each at its own instrument's size. */
  ghost predicate Matched(cfg: Config, trades: seq<Trade>, sigs: seq<Signal>, src: seq<nat>) {
    |src| == |trades| &&
    (forall k :: 0 <= k < |src| ==> src[k] < |sigs| && IsTradeOf(cfg, trades[k], sigs[src[k]])) &&
    forall j, k :: 0 <= j < k < |src| ==> src[j] < src[k]
  }

  lemma {:induction false} TradesAccounted(cfg: Config, sigs: seq<Signal>) returns (src: seq<nat>)
    ensures Matched(cfg, Run(cfg, START, sigs).trades, sigs, src)
  {
    src := [];
    if sigs != [] {
      var init, sig := sigs[..|sigs| - 1], sigs[|sigs| - 1];
      var st, st' := Run(cfg, START, init), Run(cfg, START, sigs);
      src := TradesAccounted(cfg, init);
      assert Matched(cfg, st.trades, sigs, src);
      StepExactly(cfg, st, sig);
      if st'.trades != st.trades {
        assert st'.trades == st.trades + [st'.trades[|st.trades|]];
        src := src + [|init|];
      }
    }
  }

  // ---------- Books ----------

  /** Total number of refusals over all reasons. */
  ghost function Refusals(blocked: map<string, nat>): real {
    MapSum(map k | k in blocked :: blocked[k] as real)
  }

  lemma RefusalCounts(blocked: map<string, nat>, key: string)
    ensures Refusals(blocked[key := Count(blocked, key) + 1]) == Refusals(blocked) + 1.0
  {
    var m := map k | k in blocked :: blocked[k] as real;
    MapSumAdd(m, key, 1.0);
    var b := blocked[key := Count(blocked, key) + 1];
    assert (map k | k in b :: b[k] as real) == m[key := (if key in m then m[key] else 0.0) + 1.0];
  }

  lemma NoRefusalsAtStart()
    ensures Refusals(START.blocked) == 0.0
  {
    var m := map k | k in START.blocked :: START.blocked[k] as real;
    MapSumZero(m);
  }

  ghost predicate BooksAgree(cfg: Config, st: State, signals: nat) {
    Balanced(cfg.dayOf, st.trades, st.equity, st.peak, st.daily) &&
    |st.trades| as real + Refusals(st.blocked) == signals as real
  }

  lemma StepBalances(cfg: Config, st: State, sig: Signal, n: nat)
    requires BooksAgree(cfg, st, n)
    ensures BooksAgree(cfg, Step(cfg, st, sig), n + 1)
  {
    var refusal := CheckTrade(cfg.mode, st.equity, DayTotal(st.daily, cfg.dayOf(sig.ts)), 0.0, 0);
    if refusal.Some? {
      RefusalCounts(st.blocked, refusal.value);
    } else {
      BookingBalances(cfg.dayOf, st.trades, st.equity, st.peak, st.daily, Book(cfg, st, sig).trades[|st.trades|]);
    }
  }

  /** For every run: executed plus refused is the number of signals, and all the books agree. */
  lemma {:induction false} BooksBalance(cfg: Config, sigs: seq<Signal>)
    ensures BooksAgree(cfg, Run(cfg, START, sigs), |sigs|)
  {
    if sigs == [] {
      NoRefusalsAtStart();
    } else {
      BooksBalance(cfg, sigs[..|sigs| - 1]);
      StepBalances(cfg, Run(cfg, START, sigs[..|sigs| - 1]), sigs[|sigs| - 1], |sigs| - 1);
    }
  }

  /** The monthly breakdown, built by a second pass over the trades. */
  method MonthlyTotals(cfg: Config, trades: seq<Trade>) returns (monthly: map<int, real>)
    ensures forall m :: DayTotal(monthly, m) == DayProfit(cfg.monthOf, trades, |trades|, m)
    ensures MapSum(monthly) == Profit(trades, |trades|)
  {
    monthly := map[];
    for i := 0 to |trades|
      invariant forall m :: DayTotal(monthly, m) == DayProfit(cfg.monthOf, trades, i, m)
      invariant MapSum(monthly) == Profit(trades, i)
    {
      var mo := cfg.monthOf(trades[i].ts);
      MapSumAdd(monthly, mo, trades[i].pnlPct);
      monthly := monthly[mo := DayTotal(monthly, mo) + trades[i].pnlPct];
    }
  }

  // ---------- Limits ----------

  /** After trade k, equity and its day lie above their limits except for at most the trade's own loss. */
  ghost predicate WithinLimits(cfg: Config, trades: seq<Trade>, k: nat)
    requires k < |trades|
  {
    var t := trades[k];
    t.equity > -cfg.mode.maxTotalDd - Loss(t) &&
    DayProfit(cfg.dayOf, trades, k + 1, cfg.dayOf(t.ts)) > -cfg.mode.maxDailyLoss - Loss(t)
  }

  ghost predicate AllWithinLimits(cfg: Config, trades: seq<Trade>) {
    forall k :: 0 <= k < |trades| ==> WithinLimits(cfg, trades, k)
  }

  lemma {:induction false} OvershootBounded(cfg: Config, sigs: seq<Signal>)
    ensures AllWithinLimits(cfg, Run(cfg, START, sigs).trades)
  {
    if sigs != [] {
      var st, sig := Run(cfg, START, sigs[..|sigs| - 1]), sigs[|sigs| - 1];
      OvershootBounded(cfg, sigs[..|sigs| - 1]);
      BooksBalance(cfg, sigs[..|sigs| - 1]);
      var st' := Step(cfg, st, sig);
      if st'.trades != st.trades {
        BookWithinLimits(cfg, st, sig);
      }
    }
  }

  lemma BookWithinLimits(cfg: Config, st: State, sig: Signal)
    requires Balanced(cfg.dayOf, st.trades, st.equity, st.peak, st.daily)
    requires CheckTrade(cfg.mode, st.equity, DayTotal(st.daily, cfg.dayOf(sig.ts)), 0.0, 0).None?
    requires AllWithinLimits(cfg, st.trades)
    ensures AllWithinLimits(cfg, Book(cfg, st, sig).trades)
  {
    var trades := Book(cfg, st, sig).trades;
    var n, t := |st.trades|, trades[|st.trades|];
    assert trades == st.trades + [t];
    forall k | 0 <= k <= n ensures WithinLimits(cfg, trades, k) {
      if k < n {
        PrefixTotals(cfg.dayOf, st.trades, t, k + 1, cfg.dayOf(trades[k].ts));
        assert WithinLimits(cfg, st.trades, k);
      } else {
        PrefixTotals(cfg.dayOf, st.trades, t, n, cfg.dayOf(t.ts));
        assert DayTotal(st.daily, cfg.dayOf(t.ts)) == DayProfit(cfg.dayOf, st.trades, n, cfg.dayOf(t.ts));
      }
    }
  }

  /** Equity at or below the floor: the halt measures loss from the start, not drawdown from the peak. */
  predicate AtFloor(cfg: Config, st: State) { (if st.equity < 0.0 then -st.equity else 0.0) >= cfg.mode.maxTotalDd }

  /** The floor halt is absorbing: whatever follows, nothing but refusal counts changes. */
  lemma {:induction false} FloorAbsorbs(cfg: Config, st: State, sigs: seq<Signal>)
    requires AtFloor(cfg, st)
    ensures var st' := Run(cfg, st, sigs); st' == st.(blocked := st'.blocked)
  {
    if sigs != [] { FloorAbsorbs(cfg, st, sigs[..|sigs| - 1]); }
  }

  // ---------- The halt is not a drawdown limit ----------

  predicate DrawdownReached(cfg: Config, st: State) { st.peak - st.equity >= cfg.mode.maxTotalDd }

  /** In every run the floor implies the drawdown limit, and they part exactly while equity stands above the floor
      but at least the limit below its peak; so as long as equity has not been positive they coincide. */
  lemma FloorVersusDrawdown(cfg: Config, sigs: seq<Signal>)
    ensures var st, limit := Run(cfg, START, sigs), cfg.mode.maxTotalDd;
      && (AtFloor(cfg, st) ==> DrawdownReached(cfg, st))
      && (DrawdownReached(cfg, st) && !AtFloor(cfg, st) <==> 0.0 < limit && -limit < st.equity <= st.peak - limit)
      && ((forall k :: 0 <= k < |st.trades| ==> st.trades[k].equity <= 0.0) ==>
            (AtFloor(cfg, st) <==> DrawdownReached(cfg, st)))
  {
    var st := Run(cfg, START, sigs);
    BooksBalance(cfg, sigs);
    HighWaterAboveStart(st.trades, |st.trades|);
    if forall k :: 0 <= k < |st.trades| ==> st.trades[k].equity <= 0.0 {
      NeverPositive(st.trades, |st.trades|);
    }
  }

  lemma {:induction false} NeverPositive(trades: seq<Trade>, k: nat)
    requires k <= |trades| && forall i :: 0 <= i < k ==> trades[i].equity <= 0.0
    ensures HighWater(trades, k) == 0.0
  {
    if k > 0 { NeverPositive(trades, k - 1); }
  }

  /** The configuration admits a first trade. */
  predicate Admits(mode: Mode) { CheckTrade(mode, 0.0, 0.0, 0.0, 0).None? }

  /** Some trade of the run executes although the drawdown has reached the limit. */
  ghost predicate TradesPastDrawdown(cfg: Config, sigs: seq<Signal>) {
    exists k :: 0 <= k < |sigs| && ExecutesPastDrawdown(cfg, Run(cfg, START, sigs[..k]), sigs[k])
  }

  predicate ExecutesPastDrawdown(cfg: Config, st: State, sig: Signal) {
    DrawdownReached(cfg, st) && CheckTrade(cfg.mode, st.equity, DayTotal(st.daily, cfg.dayOf(sig.ts)), 0.0, 0).None?
  }

  lemma {:induction false} NothingStarts(cfg: Config, sigs: seq<Signal>)
    requires !Admits(cfg.mode)
    ensures var st := Run(cfg, START, sigs); st == START.(blocked := st.blocked)
  {
    if sigs != [] { NothingStarts(cfg, sigs[..|sigs| - 1]); }
  }

  lemma {:induction false} NothingMoves(cfg: Config, sigs: seq<Signal>)
    requires cfg.mode.riskPerTrade == 0.0
    ensures var st := Run(cfg, START, sigs); st.equity == st.peak == 0.0
  {
    if sigs != [] {
      var sig := sigs[|sigs| - 1];
      NothingMoves(cfg, sigs[..|sigs| - 1]);
      assert Times(cfg.mode.riskPerTrade, MultiplierOf(cfg, sig.symbol)) == 0.0 && Times(sig.pnl, 0.0) == 0.0;
    }
  }

  /** One trade a day. */
  function DailyConfig(mode: Mode): Config { Config(mode, map[], t => t, t => t) }

  function PnlSignal(mode: Mode, ts: int, pct: real): Signal
    requires mode.riskPerTrade != 0.0
  {
    Signal(ts, "X", "trend", pct / mode.riskPerTrade)
  }

  /** Up by `drop`, down again by `drop`, and one more trade. */
  function UpAndDown(mode: Mode, drop: real): seq<Signal>
    requires mode.riskPerTrade != 0.0
  {
    [PnlSignal(mode, 0, drop), PnlSignal(mode, 1, -drop), PnlSignal(mode, 2, 0.0)]
  }

  lemma FreshDay(mode: Mode, st: State, ts: int, pct: real)
    requires Admits(mode) && mode.riskPerTrade != 0.0 && st.equity >= 0.0 && ts !in st.daily
    ensures var cfg, sig := DailyConfig(mode), PnlSignal(mode, ts, pct);
      var st' := Step(cfg, st, sig);
      && CheckTrade(mode, st.equity, DayTotal(st.daily, cfg.dayOf(sig.ts)), 0.0, 0).None?
      && st'.equity == st.equity + pct && st'.peak == Max(st.peak, st'.equity)
      && |st'.trades| == |st.trades| + 1 && st'.daily.Keys == st.daily.Keys + {ts}
  {
    var risk := mode.riskPerTrade;
    assert Times(risk, 1.0) == risk && Times(pct / risk, risk) == pct;
  }

  /** However large the drop: equity can fall by it from its peak, and the next trade still executes. */
  lemma DrawdownIgnored(mode: Mode, drop: real)
    requires Admits(mode) && mode.riskPerTrade != 0.0 && drop > 0.0
    ensures var cfg, sigs := DailyConfig(mode), UpAndDown(mode, drop);
      var before, after := Run(cfg, START, sigs[..2]), Run(cfg, START, sigs);
      && before.peak - before.equity == drop && |before.trades| == 2 && |after.trades| == 3
      && (drop >= mode.maxTotalDd ==> TradesPastDrawdown(cfg, sigs))
  {
    var cfg, sigs := DailyConfig(mode), UpAndDown(mode, drop);
    assert sigs[..3] == sigs && sigs[..2][..1] == sigs[..1] && sigs[..1][..0] == [];
    var up := Step(cfg, START, sigs[0]);
    FreshDay(mode, START, 0, drop);
    var down := Step(cfg, up, sigs[1]);
    FreshDay(mode, up, 1, -drop);
    FreshDay(mode, down, 2, 0.0);
    assert Run(cfg, START, sigs[..1]) == up;
    assert Run(cfg, START, sigs[..2]) == down;
    assert drop >= mode.maxTotalDd ==> ExecutesPastDrawdown(cfg, Run(cfg, START, sigs[..2]), sigs[2]);
  }

  /** Which configurations can trade past their drawdown limit: exactly those that can trade and risk anything. */
  lemma DrawdownLimitIgnoredExactly(mode: Mode)
    ensures (exists cfg: Config, sigs: seq<Signal> :: cfg.mode == mode && TradesPastDrawdown(cfg, sigs))
      <==> Admits(mode) && mode.riskPerTrade != 0.0
  {
    if Admits(mode) && mode.riskPerTrade != 0.0 {
      DrawdownIgnored(mode, mode.maxTotalDd);
      assert DailyConfig(mode).mode == mode;
    } else {
      forall cfg: Config, sigs: seq<Signal> | cfg.mode == mode ensures !TradesPastDrawdown(cfg, sigs) {
        NeverPastDrawdown(cfg, sigs);
      }
    }
  }

  lemma NeverPastDrawdown(cfg: Config, sigs: seq<Signal>)
    requires !Admits(cfg.mode) || cfg.mode.riskPerTrade == 0.0
    ensures !TradesPastDrawdown(cfg, sigs)
  {
    forall k | 0 <= k < |sigs| ensures !ExecutesPastDrawdown(cfg, Run(cfg, START, sigs[..k]), sigs[k]) {
      if Admits(cfg.mode) {
        NothingMoves(cfg, sigs[..k]);
      } else {
        NothingStarts(cfg, sigs[..k]);
      }
    }
  }

  /** The heat and correlation rules look only at the configuration: they refuse every signal that gets that far,
      or none. With a configuration that passes them, only the daily and floor limits ever refuse. */
  lemma {:induction false} ExposureRulesAreStatic(cfg: Config, sigs: seq<Signal>)
    ensures var st := Run(cfg, START, sigs);
      && (cfg.mode.riskPerTrade <= cfg.mode.maxHeat && cfg.mode.maxCorrelated > 0 ==>
            Count(st.blocked, "heat_limit") == 0 && Count(st.blocked, "correlated_exposure") == 0)
      && (cfg.mode.riskPerTrade > cfg.mode.maxHeat || cfg.mode.maxCorrelated <= 0 ==> st.trades == [])
  {
    if sigs != [] { ExposureRulesAreStatic(cfg, sigs[..|sigs| - 1]); }
  }

  /** The counters created as `daily_loss` and `total_dd` stay at zero in every run: refusals are counted
      under the longer names of their reasons. */
  lemma {:induction false} PresetCountersStayZero(cfg: Config, sigs: seq<Signal>)
    ensures var b := Run(cfg, START, sigs).blocked; Count(b, "daily_loss") == 0 && Count(b, "total_dd") == 0
  {
    if sigs != [] {
      PresetCountersStayZero(cfg, sigs[..|sigs| - 1]);
      assert |"daily_loss"| != |"daily_loss_limit"| && |"total_dd"| != |"total_dd_limit"|;
      assert |"daily_loss"| == |"heat_limit"| && "daily_loss"[0] != "heat_limit"[0];
      assert |"daily_loss"| != |"total_dd_limit"| && |"total_dd"| != |"daily_loss_limit"|;
      assert |"total_dd"| != |"heat_limit"|;
      assert |"correlated_exposure"| > |"daily_loss_limit"|;
    }
  }

  /** Signals are met in the order of their timestamps. */
  lemma MetInTimeOrder(sigs: seq<Signal>, i: nat, j: nat)
    requires i < j < |sigs|
    ensures StableSort(ByTime, sigs)[i].ts <= StableSort(ByTime, sigs)[j].ts
  {
    SortSorted(ByTime, sigs);
  }

  lemma DistinctTimesIrrelevant(cfg: Config, a: seq<Signal>, b: seq<Signal>)
    requires multiset(a) == multiset(b)
    requires forall i, j :: 0 <= i < j < |a| ==> a[i].ts != a[j].ts
    requires forall i, j :: 0 <= i < j < |b| ==> b[i].ts != b[j].ts
    ensures Run(cfg, START, StableSort(ByTime, a)) == Run(cfg, START, StableSort(ByTime, b))
  {
    SortIgnoresOrder(ByTime, a, b);
  }
}
