/** The risk-gated portfolio replay as a step machine over arbitrary engines and noise. */
module Replay {
  import opened Common
  import opened Sorting
  import opened Ledger

  datatype Signal = Signal(ts: int, symbol: string, direction: Direction, regime: string, pnl: real,
                           assetClass: Option<string>)

  datatype Instrument = Instrument(riskMultiplier: real, maxSpread: real, maxSlippage: real, assetClass: string)

  const DEFAULT_INSTRUMENT := Instrument(1.0, 4.0, 0.15, "")

  datatype Config = Config(riskBase: real, maxDailyLoss: real, maxTotalDd: real, withAdaptive: bool,
                           instruments: map<string, Instrument>, dayOf: int -> int)

  /** The heat engine (state H) and adaptive layer (state A), known only by their calls; every call may
      also change the engine's state, except reading the current mode. */
  datatype Engines<!H, !A> = Engines(
    canOpen: (H, string, Direction, real, string) -> (bool, H),
    addPosition: (H, string, Direction, real, string, string) -> H,
    removePosition: (H, string, Direction) -> H,
    currentMode: A -> string,
    effectiveRisk: (A, real) -> (real, A),
    recordTrade: (A, real, string, string) -> A,
    updateEquity: (A, real) -> A)

  /** `noise` counts the slippage and spread draws made so far. */
  datatype State<H, A> = State(equity: real, peak: real, daily: map<int, real>, trades: seq<Trade>, blocked: nat,
                               heat: H, adaptive: A, noise: nat)

  function Start<H, A>(heat: H, adaptive: A): State<H, A> { State(0.0, 0.0, map[], [], 0, heat, adaptive, 0) }

  function InstrumentOf(cfg: Config, symbol: string): Instrument {
    if symbol in cfg.instruments then cfg.instruments[symbol] else DEFAULT_INSTRUMENT
  }

  function ModeOf<H, A>(cfg: Config, eng: Engines<H, A>, adaptive: A): string {
    if cfg.withAdaptive then eng.currentMode(adaptive) else "BASE"
  }

  function Block<H, A>(st: State<H, A>): State<H, A> { st.(blocked := st.blocked + 1) }

  function Execute<H, A>(cfg: Config, eng: Engines<H, A>, st: State<H, A>, sig: Signal, mode: string, cls: string,
                         tradeRisk: real, slippage: real): State<H, A>
  {
    var net := sig.pnl - slippage;
    var pct := Times(net, tradeRisk);
    var equity := st.equity + pct;
    var day := cfg.dayOf(sig.ts);
    State(
      equity, Max(st.peak, equity), st.daily[day := DayTotal(st.daily, day) + pct],
      st.trades + [Trade(sig.ts, sig.symbol, mode, net, pct, equity)], st.blocked,
      eng.removePosition(eng.addPosition(st.heat, sig.symbol, sig.direction, tradeRisk, cls, sig.regime),
                         sig.symbol, sig.direction),
      eng.updateEquity(eng.recordTrade(st.adaptive, net, sig.symbol, sig.regime), equity),
      st.noise)
  }

  /** Slippage and spread rules, on the next pair of draws. */
  function Fill<H, A>(cfg: Config, eng: Engines<H, A>, noise: nat -> (real, real), st: State<H, A>, sig: Signal,
                      mode: string, cls: string, tradeRisk: real): State<H, A>
  {
    var inst := InstrumentOf(cfg, sig.symbol);
    var slippage, spread := Abs(noise(st.noise).0), Abs(noise(st.noise).1);
    var st' := st.(noise := st.noise + 1);
    if spread > inst.maxSpread || slippage > inst.maxSlippage then Block(st')
    else Execute(cfg, eng, st', sig, mode, cls, tradeRisk, slippage)
  }

  function Step<H, A>(cfg: Config, eng: Engines<H, A>, noise: nat -> (real, real), st: State<H, A>,
                      sig: Signal): State<H, A>
  {
    var inst := InstrumentOf(cfg, sig.symbol);
    var mode := ModeOf(cfg, eng, st.adaptive);
    if DayTotal(st.daily, cfg.dayOf(sig.ts)) <= -cfg.maxDailyLoss then Block(st)
    else if st.peak - st.equity >= cfg.maxTotalDd then Block(st)
    else if mode == "LOCKDOWN" then Block(st)
    else
      var (risk, adaptive) := if cfg.withAdaptive then eng.effectiveRisk(st.adaptive, cfg.riskBase)
                              else (cfg.riskBase, st.adaptive);
      var tradeRisk := Times(risk, inst.riskMultiplier);
      var cls := if sig.assetClass.Some? then sig.assetClass.value else inst.assetClass;
      var (allowed, heat) := eng.canOpen(st.heat, sig.symbol, sig.direction, tradeRisk, cls);
      var st' := st.(heat := heat, adaptive := adaptive);
      if !allowed then Block(st') else Fill(cfg, eng, noise, st', sig, mode, cls, tradeRisk)
  }

  function Run<H, A>(cfg: Config, eng: Engines<H, A>, noise: nat -> (real, real), st: State<H, A>,
                     sigs: seq<Signal>): State<H, A>
  {
    if sigs == [] then st
    else Step(cfg, eng, noise, Run(cfg, eng, noise, st, sigs[..|sigs| - 1]), sigs[|sigs| - 1])
  }

  predicate ByTime(a: Signal, b: Signal) { a.ts <= b.ts }

  function Replay<H, A>(cfg: Config, eng: Engines<H, A>, noise: nat -> (real, real), heat: H, adaptive: A,
                        sigs: seq<Signal>): State<H, A>
  {
    Run(cfg, eng, noise, Start(heat, adaptive), StableSort(ByTime, sigs))
  }

  /** The loop, with its local variables gathered in one record. */
  method SimulateSignals<H, A>(cfg: Config, eng: Engines<H, A>, noise: nat -> (real, real), heat0: H, adaptive0: A,
                               sigs: seq<Signal>) returns (st: State<H, A>)
    ensures st == Replay(cfg, eng, noise, heat0, adaptive0, sigs)
  {
    var merged := StableSort(ByTime, sigs);
    st := Start(heat0, adaptive0);
    for i := 0 to |merged|
      invariant st == Run(cfg, eng, noise, Start(heat0, adaptive0), merged[..i])
    {
      var sig := merged[i];
      assert merged[..i + 1][..i] == merged[..i];
      st := HandleSignal(cfg, eng, noise, st, sig);
    }
    assert merged[..|merged|] == merged;
  }

  /** One pass through the loop body; each early return is a `continue` of the source. */
  method HandleSignal<H, A>(cfg: Config, eng: Engines<H, A>, noise: nat -> (real, real), st0: State<H, A>, sig: Signal)
    returns (st: State<H, A>)
    ensures st == Step(cfg, eng, noise, st0, sig)
  {
    st := st0;
    var inst := InstrumentOf(cfg, sig.symbol);
    var cls := if sig.assetClass.Some? then sig.assetClass.value else inst.assetClass;
    var dayPnl := DayTotal(st.daily, cfg.dayOf(sig.ts));
    if dayPnl <= -cfg.maxDailyLoss { return st.(blocked := st.blocked + 1); }
    if st.peak - st.equity >= cfg.maxTotalDd { return st.(blocked := st.blocked + 1); }
    var mode := if cfg.withAdaptive then eng.currentMode(st.adaptive) else "BASE";
    if mode == "LOCKDOWN" { return st.(blocked := st.blocked + 1); }
    var risk := cfg.riskBase;
    if cfg.withAdaptive {
      var p := eng.effectiveRisk(st.adaptive, cfg.riskBase);
      risk := p.0;
      st := st.(adaptive := p.1);
    }
    var tradeRisk := Times(risk, inst.riskMultiplier);
    var open := eng.canOpen(st.heat, sig.symbol, sig.direction, tradeRisk, cls);
    st := st.(heat := open.1);
    if !open.0 { return st.(blocked := st.blocked + 1); }
    var slippage, spread := Abs(noise(st.noise).0), Abs(noise(st.noise).1);
    st := st.(noise := st.noise + 1);
    if spread > inst.maxSpread || slippage > inst.maxSlippage { return st.(blocked := st.blocked + 1); }
    st := BookTrade(cfg, eng, st, sig, mode, cls, tradeRisk, slippage);
  }

  method BookTrade<H, A>(cfg: Config, eng: Engines<H, A>, st0: State<H, A>, sig: Signal, mode: string, cls: string,
                         tradeRisk: real, slippage: real) returns (st: State<H, A>)
    ensures st == Execute(cfg, eng, st0, sig, mode, cls, tradeRisk, slippage)
  {
    var netPnlR := sig.pnl - slippage;
    var tradePnlPct := Times(netPnlR, tradeRisk);
    var equity := st0.equity + tradePnlPct;
    var peak := Max(st0.peak, equity);
    var day := cfg.dayOf(sig.ts);
    var daily := st0.daily[day := DayTotal(st0.daily, day) + tradePnlPct];
    var heat := eng.addPosition(st0.heat, sig.symbol, sig.direction, tradeRisk, cls, sig.regime);
    var adaptive := eng.recordTrade(st0.adaptive, netPnlR, sig.symbol, sig.regime);
    adaptive := eng.updateEquity(adaptive, equity);
    var trades := st0.trades + [Trade(sig.ts, sig.symbol, mode, netPnlR, tradePnlPct, equity)];
    heat := eng.removePosition(heat, sig.symbol, sig.direction);
    st := State(equity, peak, daily, trades, st0.blocked, heat, adaptive, st0.noise);
  }

  // ---------- What a signal becomes, written out ----------

  /** m is the size of x. */
  predicate IsSize(m: real, x: real) { m >= 0.0 && (m == x || m == -x) }

  /** An instrument without a profile trades at its plain size, with a spread of at most 4 and slippage of 0.15. */
  predicate IsInstrument(cfg: Config, symbol: string, inst: Instrument) {
    inst == if symbol in cfg.instruments then cfg.instruments[symbol] else Instrument(1.0, 4.0, 0.15, "")
  }

  /** The size a signal would be traded at: the base risk, or what the adaptive layer makes of it, times the
      instrument's multiplier. */
  predicate IsTradeRisk<H, A>(cfg: Config, eng: Engines<H, A>, st: State<H, A>, inst: Instrument, risk: real) {
    risk == Times(if cfg.withAdaptive then eng.effectiveRisk(st.adaptive, cfg.riskBase).0 else cfg.riskBase,
                  inst.riskMultiplier)
  }

  /** The limits and engines let the signal through, and it meets the next draws. */
  predicate ReachesMarket<H, A>(cfg: Config, eng: Engines<H, A>, st: State<H, A>, sig: Signal, inst: Instrument,
                                risk: real)
  {
    var day := cfg.dayOf(sig.ts);
    (if day in st.daily then st.daily[day] else 0.0) > -cfg.maxDailyLoss &&
    st.peak - st.equity < cfg.maxTotalDd &&
    !(cfg.withAdaptive && eng.currentMode(st.adaptive) == "LOCKDOWN") &&
    eng.canOpen(st.heat, sig.symbol, sig.direction, risk,
                if sig.assetClass.Some? then sig.assetClass.value else inst.assetClass).0
  }

  predicate Filled(inst: Instrument, slippage: real, spread: real) {
    slippage <= inst.maxSlippage && spread <= inst.maxSpread
  }

  /** The trade a signal leaves: its pay-off less the slippage, at the size of the trade. */
  predicate IsTradeOf(t: Trade, sig: Signal, slippage: real, risk: real) {
    t.ts == sig.ts && t.symbol == sig.symbol && t.pnlR == sig.pnl - slippage && t.pnlPct == Times(t.pnlR, risk)
  }

  /** A signal that does not reach the market is only counted; no draw is spent on it. */
  lemma StoppedShort<H, A>(cfg: Config, eng: Engines<H, A>, noise: nat -> (real, real), st: State<H, A>, sig: Signal,
                           inst: Instrument, risk: real)
    requires IsInstrument(cfg, sig.symbol, inst) && IsTradeRisk(cfg, eng, st, inst, risk)
    requires !ReachesMarket(cfg, eng, st, sig, inst, risk)
    ensures var st' := Step(cfg, eng, noise, st, sig);
      st' == st.(heat := st'.heat, adaptive := st'.adaptive, blocked := st.blocked + 1)
  {
  }

  /** At the market one pair of draws is spent. Unfilled, the signal is only counted; filled, it leaves its trade. */
  lemma AtTheMarket<H, A>(cfg: Config, eng: Engines<H, A>, noise: nat -> (real, real), st: State<H, A>, sig: Signal,
                          inst: Instrument, risk: real, slippage: real, spread: real)
    requires IsInstrument(cfg, sig.symbol, inst) && IsTradeRisk(cfg, eng, st, inst, risk)
    requires IsSize(slippage, noise(st.noise).0) && IsSize(spread, noise(st.noise).1)
    requires ReachesMarket(cfg, eng, st, sig, inst, risk)
    ensures var st' := Step(cfg, eng, noise, st, sig);
      && st'.noise == st.noise + 1
      && if Filled(inst, slippage, spread) then
           |st'.trades| == |st.trades| + 1 && st'.trades[..|st.trades|] == st.trades && st'.blocked == st.blocked &&
           IsTradeOf(st'.trades[|st.trades|], sig, slippage, risk)
         else
           st'.trades == st.trades && st'.equity == st.equity && st'.blocked == st.blocked + 1
  {
    var fill := Step(cfg, eng, noise, st, sig);
    assert slippage == Abs(noise(st.noise).0) && spread == Abs(noise(st.noise).1);
    assert inst == InstrumentOf(cfg, sig.symbol);
  }

  /** What the engines are told of a filled signal: the position opened and closed at the size of the trade, the result
      less slippage, and the new equity. */
  lemma EnginesTold<H, A>(cfg: Config, eng: Engines<H, A>, noise: nat -> (real, real), st: State<H, A>, sig: Signal,
                          inst: Instrument, risk: real, slippage: real, spread: real)
    requires IsInstrument(cfg, sig.symbol, inst) && IsTradeRisk(cfg, eng, st, inst, risk)
    requires IsSize(slippage, noise(st.noise).0) && IsSize(spread, noise(st.noise).1)
    requires ReachesMarket(cfg, eng, st, sig, inst, risk) && Filled(inst, slippage, spread)
    ensures var st' := Step(cfg, eng, noise, st, sig);
      var cls := if sig.assetClass.Some? then sig.assetClass.value else inst.assetClass;
      var heat := eng.canOpen(st.heat, sig.symbol, sig.direction, risk, cls).1;
      var adaptive := if cfg.withAdaptive then eng.effectiveRisk(st.adaptive, cfg.riskBase).1 else st.adaptive;
      && st'.heat == eng.removePosition(
           eng.addPosition(heat, sig.symbol, sig.direction, risk, cls, sig.regime), sig.symbol, sig.direction)
      && st'.adaptive == eng.updateEquity(
           eng.recordTrade(adaptive, sig.pnl - slippage, sig.symbol, sig.regime), st'.equity)
      && st'.equity == st.equity + Times(sig.pnl - slippage, risk)
      && |st'.trades| == |st.trades| + 1
      && st'.trades[|st.trades|].tag == (if cfg.withAdaptive then eng.currentMode(st.adaptive) else "BASE")
  {
    assert slippage == Abs(noise(st.noise).0) && spread == Abs(noise(st.noise).1);
    assert inst == InstrumentOf(cfg, sig.symbol);
  }

  /** The trade is what the signal, met in this state, becomes when it is filled with the draws due then. */
  ghost predicate BelongsTo<H, A>(cfg: Config, eng: Engines<H, A>, noise: nat -> (real, real), st: State<H, A>,
                                  sig: Signal, t: Trade)
  {
    exists inst, risk, slippage, spread ::
      IsInstrument(cfg, sig.symbol, inst) && IsTradeRisk(cfg, eng, st, inst, risk) &&
      IsSize(slippage, noise(st.noise).0) && IsSize(spread, noise(st.noise).1) &&
      ReachesMarket(cfg, eng, st, sig, inst, risk) && Filled(inst, slippage, spread) &&
      IsTradeOf(t, sig, slippage, risk)
  }

  /** The state in which signal i is met. */
  function Before<H, A>(cfg: Config, eng: Engines<H, A>, noise: nat -> (real, real), start: State<H, A>,
                        sigs: seq<Signal>, i: nat): State<H, A>
  {
    Run(cfg, eng, noise, start, if i <= |sigs| then sigs[..i] else sigs)
  }

  ghost function Owner<H, A>(cfg: Config, eng: Engines<H, A>, noise: nat -> (real, real), start: State<H, A>,
                             sigs: seq<Signal>): (nat, Trade) -> bool
  {
    (i: nat, t: Trade) => i < |sigs| && BelongsTo(cfg, eng, noise, Before(cfg, eng, noise, start, sigs, i), sigs[i], t)
  }

  function DrawsBefore<H, A>(cfg: Config, eng: Engines<H, A>, noise: nat -> (real, real), start: State<H, A>,
                             sigs: seq<Signal>): nat -> nat
  {
    i => Before(cfg, eng, noise, start, sigs, i).noise
  }

  /** The trades are owned by different signals before n, in order, each with a draw of its own before `drawn`. */
  ghost predicate Matched(trades: seq<Trade>, src: seq<nat>, n: nat, owner: (nat, Trade) -> bool, draw: nat -> nat,
                          drawn: nat)
  {
    |src| == |trades| &&
    (forall k :: 0 <= k < |src| ==> src[k] < n && owner(src[k], trades[k]) && draw(src[k]) < drawn) &&
    forall j, k :: 0 <= j < k < |src| ==> src[j] < src[k] && draw(src[j]) < draw(src[k])
  }

  /** The next signal adds nothing, or one trade of its own with a draw of its own. */
  ghost predicate Adds(trades: seq<Trade>, trades': seq<Trade>, n: nat, owner: (nat, Trade) -> bool, draw: nat -> nat) {
    draw(n) <= draw(n + 1) &&
    (trades' == trades || exists t :: trades' == trades + [t] && owner(n, t) && draw(n) < draw(n + 1))
  }

  lemma MatchedMore(trades: seq<Trade>, trades': seq<Trade>, src0: seq<nat>, n: nat, owner: (nat, Trade) -> bool,
                    draw: nat -> nat) returns (src: seq<nat>)
    requires Matched(trades, src0, n, owner, draw, draw(n)) && Adds(trades, trades', n, owner, draw)
    ensures Matched(trades', src, n + 1, owner, draw, draw(n + 1))
  {
    src := if trades' == trades then src0 else src0 + [n];
  }

  /** A step leaves the trades as they are, or adds the signal's own. */
  lemma StepAccounts<H, A>(cfg: Config, eng: Engines<H, A>, noise: nat -> (real, real), st: State<H, A>, sig: Signal)
    ensures var st' := Step(cfg, eng, noise, st, sig);
      && st.noise <= st'.noise
      && (st'.trades == st.trades ||
          (|st'.trades| == |st.trades| + 1 && st'.trades[..|st.trades|] == st.trades && st.noise < st'.noise &&
           BelongsTo(cfg, eng, noise, st, sig, st'.trades[|st.trades|])))
  {
    var inst := InstrumentOf(cfg, sig.symbol);
    var risk := Times(if cfg.withAdaptive then eng.effectiveRisk(st.adaptive, cfg.riskBase).0 else cfg.riskBase,
                      inst.riskMultiplier);
    var slippage, spread := Abs(noise(st.noise).0), Abs(noise(st.noise).1);
    if ReachesMarket(cfg, eng, st, sig, inst, risk) {
      AtTheMarket(cfg, eng, noise, st, sig, inst, risk, slippage, spread);
    } else {
      StoppedShort(cfg, eng, noise, st, sig, inst, risk);
    }
  }

  lemma BeforeNext<H, A>(cfg: Config, eng: Engines<H, A>, noise: nat -> (real, real), start: State<H, A>,
                         sigs: seq<Signal>, n: nat)
    requires n < |sigs|
    ensures Before(cfg, eng, noise, start, sigs, n + 1)
         == Step(cfg, eng, noise, Before(cfg, eng, noise, start, sigs, n), sigs[n])
  {
    assert sigs[..n + 1][..n] == sigs[..n];
  }

  lemma NextAccounts<H, A>(cfg: Config, eng: Engines<H, A>, noise: nat -> (real, real), start: State<H, A>,
                           sigs: seq<Signal>, n: nat)
    requires n < |sigs|
    ensures Adds(Before(cfg, eng, noise, start, sigs, n).trades, Before(cfg, eng, noise, start, sigs, n + 1).trades, n,
                 Owner(cfg, eng, noise, start, sigs), DrawsBefore(cfg, eng, noise, start, sigs))
  {
    var st, st' := Before(cfg, eng, noise, start, sigs, n), Before(cfg, eng, noise, start, sigs, n + 1);
    BeforeNext(cfg, eng, noise, start, sigs, n);
    StepAccounts(cfg, eng, noise, st, sigs[n]);
    if st'.trades != st.trades {
      var t := st'.trades[|st.trades|];
      assert st'.trades == st.trades + [t];
      assert Owner(cfg, eng, noise, start, sigs)(n, t);
    }
  }

  /** For every run: no signal leaves more than one trade, and each trade is its signal's pay-off less slippage, at the
      size in force when the signal was met. */
  lemma {:induction false} TradesAccounted<H, A>(cfg: Config, eng: Engines<H, A>, noise: nat -> (real, real),
                                                 start: State<H, A>, sigs: seq<Signal>, n: nat) returns (src: seq<nat>)
    requires start.trades == [] && n <= |sigs|
    ensures var draw := DrawsBefore(cfg, eng, noise, start, sigs);
      Matched(Before(cfg, eng, noise, start, sigs, n).trades, src, n, Owner(cfg, eng, noise, start, sigs), draw,
              draw(n))
  {
    src := [];
    if n > 0 {
      src := TradesAccounted(cfg, eng, noise, start, sigs, n - 1);
      NextAccounts(cfg, eng, noise, start, sigs, n - 1);
      var st, st' := Before(cfg, eng, noise, start, sigs, n - 1), Before(cfg, eng, noise, start, sigs, n);
      src := MatchedMore(st.trades, st'.trades, src, n - 1, Owner(cfg, eng, noise, start, sigs),
                         DrawsBefore(cfg, eng, noise, start, sigs));
    } else {
      NothingBefore(cfg, eng, noise, start, sigs);
    }
  }

  lemma NothingBefore<H, A>(cfg: Config, eng: Engines<H, A>, noise: nat -> (real, real), start: State<H, A>,
                            sigs: seq<Signal>)
    ensures Before(cfg, eng, noise, start, sigs, 0) == start
  {
    assert sigs[..0] == [];
  }

  // ---------- Conservation of the books ----------

  ghost predicate BooksAgree<H, A>(cfg: Config, st: State<H, A>) {
    Balanced(cfg.dayOf, st.trades, st.equity, st.peak, st.daily)
  }

  lemma StepBalances<H, A>(cfg: Config, eng: Engines<H, A>, noise: nat -> (real, real), st: State<H, A>, sig: Signal)
    requires BooksAgree(cfg, st)
    ensures var st' := Step(cfg, eng, noise, st, sig);
      BooksAgree(cfg, st') && |st'.trades| + st'.blocked == |st.trades| + st.blocked + 1
  {
    var st' := Step(cfg, eng, noise, st, sig);
    if st'.trades != st.trades {
      var mid, cls, risk, slip := Executed(cfg, eng, noise, st, sig);
      BookingBalances(cfg.dayOf, st.trades, st.equity, st.peak, st.daily, st'.trades[|st.trades|]);
    }
  }

  /** A step that adds a trade is an execution that passed the daily, drawdown and lockdown gates. */
  lemma Executed<H, A>(cfg: Config, eng: Engines<H, A>, noise: nat -> (real, real), st: State<H, A>, sig: Signal)
    returns (mid: State<H, A>, cls: string, tradeRisk: real, slippage: real)
    requires Step(cfg, eng, noise, st, sig).trades != st.trades
    ensures mid == st.(heat := mid.heat, adaptive := mid.adaptive, noise := mid.noise)
    ensures Step(cfg, eng, noise, st, sig)
         == Execute(cfg, eng, mid, sig, ModeOf(cfg, eng, st.adaptive), cls, tradeRisk, slippage)
    ensures DayTotal(st.daily, cfg.dayOf(sig.ts)) > -cfg.maxDailyLoss
    ensures st.peak - st.equity < cfg.maxTotalDd
    ensures ModeOf(cfg, eng, st.adaptive) != "LOCKDOWN"
  {
    var inst := InstrumentOf(cfg, sig.symbol);
    var p := if cfg.withAdaptive then eng.effectiveRisk(st.adaptive, cfg.riskBase) else (cfg.riskBase, st.adaptive);
    tradeRisk := Times(p.0, inst.riskMultiplier);
    cls := if sig.assetClass.Some? then sig.assetClass.value else inst.assetClass;
    var open := eng.canOpen(st.heat, sig.symbol, sig.direction, tradeRisk, cls);
    mid := st.(heat := open.1, adaptive := p.1, noise := st.noise + 1);
    slippage := Abs(noise(st.noise).0);
  }

  /** For every run: executed plus blocked is the number of signals, and all the books agree. */
  lemma {:induction false} BooksBalance<H, A>(cfg: Config, eng: Engines<H, A>, noise: nat -> (real, real), heat: H,
                                              adaptive: A, sigs: seq<Signal>)
    ensures var st := Run(cfg, eng, noise, Start(heat, adaptive), sigs);
      BooksAgree(cfg, st) && |st.trades| + st.blocked == |sigs|
  {
    if sigs != [] {
      var init := sigs[..|sigs| - 1];
      BooksBalance(cfg, eng, noise, heat, adaptive, init);
      StepBalances(cfg, eng, noise, Run(cfg, eng, noise, Start(heat, adaptive), init), sigs[|sigs| - 1]);
    }
  }

  // ---------- Bounded overshoot ----------

  /** After trade k the drawdown, and the loss of its day, exceed their limits by less than the trade's own loss. */
  ghost predicate WithinLimits(cfg: Config, trades: seq<Trade>, k: nat)
    requires k < |trades|
  {
    var t := trades[k];
    HighWater(trades, k + 1) - t.equity < cfg.maxTotalDd + Loss(t) &&
    DayProfit(cfg.dayOf, trades, k + 1, cfg.dayOf(t.ts)) > -cfg.maxDailyLoss - Loss(t)
  }

  ghost predicate AllWithinLimits(cfg: Config, trades: seq<Trade>) {
    forall k :: 0 <= k < |trades| ==> WithinLimits(cfg, trades, k)
  }

  lemma {:induction false} OvershootBounded<H, A>(cfg: Config, eng: Engines<H, A>, noise: nat -> (real, real), heat: H,
                                                  adaptive: A, sigs: seq<Signal>)
    ensures AllWithinLimits(cfg, Run(cfg, eng, noise, Start(heat, adaptive), sigs).trades)
  {
    if sigs != [] {
      var init, sig := sigs[..|sigs| - 1], sigs[|sigs| - 1];
      var st := Run(cfg, eng, noise, Start(heat, adaptive), init);
      var st' := Step(cfg, eng, noise, st, sig);
      OvershootBounded(cfg, eng, noise, heat, adaptive, init);
      if st'.trades != st.trades {
        BooksBalance(cfg, eng, noise, heat, adaptive, init);
        var mid, cls, risk, slip := Executed(cfg, eng, noise, st, sig);
        ExecuteWithinLimits(cfg, eng, mid, sig, ModeOf(cfg, eng, st.adaptive), cls, risk, slip);
      }
    }
  }

  lemma ExecuteWithinLimits<H, A>(cfg: Config, eng: Engines<H, A>, st: State<H, A>, sig: Signal, mode: string,
                                  cls: string, tradeRisk: real, slippage: real)
    requires BooksAgree(cfg, st) && AllWithinLimits(cfg, st.trades)
    requires DayTotal(st.daily, cfg.dayOf(sig.ts)) > -cfg.maxDailyLoss && st.peak - st.equity < cfg.maxTotalDd
    ensures AllWithinLimits(cfg, Execute(cfg, eng, st, sig, mode, cls, tradeRisk, slippage).trades)
  {
    var trades := Execute(cfg, eng, st, sig, mode, cls, tradeRisk, slippage).trades;
    var n, t := |st.trades|, trades[|st.trades|];
    assert trades == st.trades + [t];
    forall k | 0 <= k <= n ensures WithinLimits(cfg, trades, k) {
      if k < n {
        PrefixTotals(cfg.dayOf, st.trades, t, k + 1, cfg.dayOf(trades[k].ts));
        assert WithinLimits(cfg, st.trades, k);
      } else {
        HighWaterAboveStart(st.trades, n);
        PrefixTotals(cfg.dayOf, st.trades, t, n, cfg.dayOf(t.ts));
        assert DayTotal(st.daily, cfg.dayOf(t.ts)) == DayProfit(cfg.dayOf, st.trades, n, cfg.dayOf(t.ts));
      }
    }
  }

  // ---------- Absorbing halts ----------

  /** The total drawdown limit is reached, or the adaptive layer reads LOCKDOWN. */
  predicate Halted<H, A>(cfg: Config, eng: Engines<H, A>, st: State<H, A>) {
    st.peak - st.equity >= cfg.maxTotalDd || ModeOf(cfg, eng, st.adaptive) == "LOCKDOWN"
  }

  /** From a halted state every further signal is counted as blocked and changes nothing else. */
  lemma {:induction false} HaltAbsorbs<H, A>(cfg: Config, eng: Engines<H, A>, noise: nat -> (real, real),
                                             st: State<H, A>, sigs: seq<Signal>)
    requires Halted(cfg, eng, st)
    ensures Run(cfg, eng, noise, st, sigs) == st.(blocked := st.blocked + |sigs|)
  {
    if sigs != [] { HaltAbsorbs(cfg, eng, noise, st, sigs[..|sigs| - 1]); }
  }

  lemma {:induction false} RunSplits<H, A>(cfg: Config, eng: Engines<H, A>, noise: nat -> (real, real), st: State<H, A>,
                                           a: seq<Signal>, b: seq<Signal>)
    ensures Run(cfg, eng, noise, st, a + b) == Run(cfg, eng, noise, Run(cfg, eng, noise, st, a), b)
  {
    if b == [] {
      assert a + b == a;
    } else {
      assert (a + b)[..|a + b| - 1] == a + b[..|b| - 1];
      RunSplits(cfg, eng, noise, st, a, b[..|b| - 1]);
    }
  }

  /** Once a run has halted, no later signal executes: the trade list, equity and ledger are final. */
  lemma NoTradeAfterHalt<H, A>(cfg: Config, eng: Engines<H, A>, noise: nat -> (real, real), heat: H, adaptive: A,
                               a: seq<Signal>, b: seq<Signal>)
    requires Halted(cfg, eng, Run(cfg, eng, noise, Start(heat, adaptive), a))
    ensures var halted := Run(cfg, eng, noise, Start(heat, adaptive), a);
      Run(cfg, eng, noise, Start(heat, adaptive), a + b) == halted.(blocked := halted.blocked + |b|)
  {
    RunSplits(cfg, eng, noise, Start(heat, adaptive), a, b);
    HaltAbsorbs(cfg, eng, noise, Run(cfg, eng, noise, Start(heat, adaptive), a), b);
  }

  /** Since each position is removed in the step that added it, a heat engine whose removal undoes an addition
      is asked about every signal in its initial state: no two positions are ever open together. */
  lemma {:induction false} HeatNeverAccumulates<H(!new), A(!new)>(
      cfg: Config, eng: Engines<H, A>, noise: nat -> (real, real), heat: H, adaptive: A, sigs: seq<Signal>)
    requires forall h: H, s: string, d: Direction, r: real, c: string :: eng.canOpen(h, s, d, r, c).1 == h
    requires forall h: H, s: string, d: Direction, r: real, c: string, g: string ::
      eng.removePosition(eng.addPosition(h, s, d, r, c, g), s, d) == h
    ensures Run(cfg, eng, noise, Start(heat, adaptive), sigs).heat == heat
  {
    if sigs != [] { HeatNeverAccumulates(cfg, eng, noise, heat, adaptive, sigs[..|sigs| - 1]); }
  }

  // ---------- Input order ----------

  /** Signals are met in the order of their timestamps. */
  lemma MetInTimeOrder(sigs: seq<Signal>, i: nat, j: nat)
    requires i < j < |sigs|
    ensures StableSort(ByTime, sigs)[i].ts <= StableSort(ByTime, sigs)[j].ts
  {
    SortSorted(ByTime, sigs);
  }

  /** The replay depends on the input only through its signals and the order of those with equal timestamps. */
  lemma OrderIrrelevant<H, A>(cfg: Config, eng: Engines<H, A>, noise: nat -> (real, real), heat: H, adaptive: A,
                              a: seq<Signal>, b: seq<Signal>)
    requires SameClasses(ByTime, a, b)
    ensures Replay(cfg, eng, noise, heat, adaptive, a) == Replay(cfg, eng, noise, heat, adaptive, b)
  {
    SortCanonical(ByTime, a, b);
  }

  // ---------- Only the order of ties matters, and it always can ----------

  /** What the logging heat engine writes down about a position. */
  datatype Opened = Opened(direction: Direction, cls: string, regime: string)

  /** A heat engine that allows everything and logs every position. */
  function LoggingEngines(): Engines<seq<Opened>, int> {
    Engines((h, s, d, r, c) => (true, h), (h, s, d, r, c, g) => h + [Opened(d, c, g)], (h, s, d) => h,
            a => "NORMAL", (a, r) => (r, a), (a, r, s, g) => a, (a, e) => a)
  }

  function Still(): nat -> (real, real) { n => (0.0, 0.0) }

  function ClassOf(cfg: Config, sig: Signal): string {
    if sig.assetClass.Some? then sig.assetClass.value else InstrumentOf(cfg, sig.symbol).assetClass
  }

  /** No trade moves equity, so no gate ever fires. */
  ghost predicate RiskFree(cfg: Config) {
    cfg.riskBase == 0.0 && cfg.maxDailyLoss == 1.0 && cfg.maxTotalDd == 1.0 && !cfg.withAdaptive &&
    forall s: string :: InstrumentOf(cfg, s).maxSpread == 4.0 && InstrumentOf(cfg, s).maxSlippage == 0.15
  }

  /** The books of a risk-free run: nothing is won or lost, and every signal has left its trade and its log entry. */
  ghost predicate Logged(cfg: Config, st: State<seq<Opened>, int>, sigs: seq<Signal>) {
    st.equity == 0.0 && st.peak == 0.0 && (forall day :: DayTotal(st.daily, day) == 0.0) &&
    |st.trades| == |st.heat| == |sigs| &&
    forall i :: 0 <= i < |sigs| ==>
      st.trades[i] == Trade(sigs[i].ts, sigs[i].symbol, "BASE", sigs[i].pnl, 0.0, 0.0) &&
      st.heat[i] == Opened(sigs[i].direction, ClassOf(cfg, sigs[i]), sigs[i].regime)
  }

  lemma LoggedStep(cfg: Config, st: State<seq<Opened>, int>, sigs: seq<Signal>, sig: Signal)
    requires RiskFree(cfg) && Logged(cfg, st, sigs)
    ensures Logged(cfg, Step(cfg, LoggingEngines(), Still(), st, sig), sigs + [sig])
  {
    var inst := InstrumentOf(cfg, sig.symbol);
    assert Still()(st.noise) == (0.0, 0.0);
    assert Times(cfg.riskBase, inst.riskMultiplier) == 0.0 && Times(sig.pnl - 0.0, 0.0) == 0.0;
    var st' := Step(cfg, LoggingEngines(), Still(), st, sig);
    assert DayTotal(st.daily, cfg.dayOf(sig.ts)) == 0.0;
    assert st'.daily == st.daily[cfg.dayOf(sig.ts) := DayTotal(st.daily, cfg.dayOf(sig.ts)) + 0.0];
    assert forall day :: DayTotal(st'.daily, day) == DayTotal(st.daily, day);
    assert st'.trades == st.trades + [Trade(sig.ts, sig.symbol, "BASE", sig.pnl, 0.0, 0.0)];
    assert st'.heat == st.heat + [Opened(sig.direction, ClassOf(cfg, sig), sig.regime)];
  }

  lemma {:induction false} LoggedRun(cfg: Config, sigs: seq<Signal>)
    requires RiskFree(cfg)
    ensures Logged(cfg, Run(cfg, LoggingEngines(), Still(), Start([], 0), sigs), sigs)
  {
    if sigs != [] {
      var init := sigs[..|sigs| - 1];
      LoggedRun(cfg, init);
      LoggedStep(cfg, Run(cfg, LoggingEngines(), Still(), Start([], 0), init), init, sigs[|sigs| - 1]);
      assert sigs == init + [sigs[|sigs| - 1]];
    }
  }

  /** Risk-free, with the given asset class for every listed symbol. */
  function ClassConfig(symbols: set<string>, cls: string): Config {
    Config(0.0, 1.0, 1.0, false, map s | s in symbols :: Instrument(1.0, 4.0, 0.15, cls), t => t)
  }

  function Symbols(sigs: seq<Signal>): set<string> { set sig | sig in sigs :: sig.symbol }

  /** A run that looks the same under two asset classes for unclassified signals has seen the same signals. */
  lemma LogsDetermine(a: seq<Signal>, b: seq<Signal>, symbols: set<string>)
    requires Symbols(a) <= symbols && Symbols(b) <= symbols
    requires forall cls: string :: cls == "" || cls == "x" ==>
      Run(ClassConfig(symbols, cls), LoggingEngines(), Still(), Start([], 0), a)
      == Run(ClassConfig(symbols, cls), LoggingEngines(), Still(), Start([], 0), b)
    ensures a == b
  {
    var plain, marked := ClassConfig(symbols, ""), ClassConfig(symbols, "x");
    LoggedRun(plain, a);
    LoggedRun(plain, b);
    LoggedRun(marked, a);
    LoggedRun(marked, b);
    forall i | 0 <= i < |a| ensures a[i] == b[i] {
      assert a[i] in a && b[i] in b;
      assert a[i].symbol in Symbols(a) && b[i].symbol in Symbols(b);
      assert InstrumentOf(plain, a[i].symbol).assetClass == "" && InstrumentOf(marked, a[i].symbol).assetClass == "x";
      assert ClassOf(plain, a[i]) == ClassOf(plain, b[i]) && ClassOf(marked, a[i]) == ClassOf(marked, b[i]);
    }
  }

  lemma SortedSymbols(sigs: seq<Signal>)
    ensures Symbols(StableSort(ByTime, sigs)) == Symbols(sigs)
  {
    var r := StableSort(ByTime, sigs);
    forall sig ensures sig in r <==> sig in sigs {
      assert sig in multiset(r) <==> sig in multiset(sigs);
    }
  }

  /** The two inputs give the same final state under every configuration, engine and noise. */
  ghost predicate ReplayAlike(a: seq<Signal>, b: seq<Signal>) {
    forall cfg: Config, eng: Engines<seq<Opened>, int>, noise: nat -> (real, real), heat: seq<Opened>, adaptive: int ::
      Replay(cfg, eng, noise, heat, adaptive, a) == Replay(cfg, eng, noise, heat, adaptive, b)
  }

  lemma ReplaysDetermine(a: seq<Signal>, b: seq<Signal>)
    requires ReplayAlike(a, b)
    ensures StableSort(ByTime, a) == StableSort(ByTime, b)
  {
    SortedSymbols(a);
    SortedSymbols(b);
    var symbols := Symbols(a) + Symbols(b);
    forall cls: string | cls == "" || cls == "x"
      ensures Run(ClassConfig(symbols, cls), LoggingEngines(), Still(), Start([], 0), StableSort(ByTime, a))
           == Run(ClassConfig(symbols, cls), LoggingEngines(), Still(), Start([], 0), StableSort(ByTime, b))
    {
      assert Replay(ClassConfig(symbols, cls), LoggingEngines(), Still(), [], 0, a)
          == Replay(ClassConfig(symbols, cls), LoggingEngines(), Still(), [], 0, b);
    }
    LogsDetermine(StableSort(ByTime, a), StableSort(ByTime, b), symbols);
  }

  /** Two inputs replay alike exactly when they hold the same signals in the same order within each timestamp. */
  lemma OrderMattersExactly(a: seq<Signal>, b: seq<Signal>)
    ensures ReplayAlike(a, b) <==> SameClasses(ByTime, a, b)
  {
    SortCanonical(ByTime, a, b);
    if ReplayAlike(a, b) { ReplaysDetermine(a, b); }
  }

  lemma DistinctTimesIrrelevant<H, A>(cfg: Config, eng: Engines<H, A>, noise: nat -> (real, real), heat: H, adaptive: A,
                                      a: seq<Signal>, b: seq<Signal>)
    requires multiset(a) == multiset(b)
    requires forall i, j :: 0 <= i < j < |a| ==> a[i].ts != a[j].ts
    requires forall i, j :: 0 <= i < j < |b| ==> b[i].ts != b[j].ts
    ensures Replay(cfg, eng, noise, heat, adaptive, a) == Replay(cfg, eng, noise, heat, adaptive, b)
  {
    SortIgnoresOrder(ByTime, a, b);
  }

  /** Engines that allow everything and remember nothing. */
  function FreeEngines(): Engines<int, int> {
    Engines((h, s, d, r, c) => (true, h), (h, s, d, r, c, g) => h, (h, s, d) => h,
            a => "NORMAL", (a, r) => (r, a), (a, r, s, g) => a, (a, e) => a)
  }

  const TIE_CONFIG := Config(1.0, 100.0, 1.0, false, map[], t => t)

  function TieSignal(pnl: real): Signal { Signal(0, "X", LONG, "trend", pnl, None) }

  /** With equal timestamps the input order can decide which trades happen at all. */
  lemma TiesMatter()
    ensures |Replay(TIE_CONFIG, FreeEngines(), n => (0.0, 0.0), 0, 0, [TieSignal(-1.0), TieSignal(1.0)]).trades| == 1
    ensures |Replay(TIE_CONFIG, FreeEngines(), n => (0.0, 0.0), 0, 0, [TieSignal(1.0), TieSignal(-1.0)]).trades| == 2
  {
    var noise: nat -> (real, real) := n => (0.0, 0.0);
    TwoTies(TIE_CONFIG, noise, TieSignal(-1.0), TieSignal(1.0));
    TwoTies(TIE_CONFIG, noise, TieSignal(1.0), TieSignal(-1.0));
    FreeStep(Start(0, 0), noise, -1.0);
    FreeStep(Start(0, 0), noise, 1.0);
    FreeStep(Step(TIE_CONFIG, FreeEngines(), noise, Start(0, 0), TieSignal(1.0)), noise, -1.0);
  }

  lemma FreeStep(st: State<int, int>, noise: nat -> (real, real), pnl: real)
    requires noise(st.noise) == (0.0, 0.0) && DayTotal(st.daily, 0) > -100.0 && st.peak - st.equity < 1.0
    ensures var st' := Step(TIE_CONFIG, FreeEngines(), noise, st, TieSignal(pnl));
      st'.equity == st.equity + pnl && st'.peak == Max(st.peak, st'.equity) &&
      DayTotal(st'.daily, 0) == DayTotal(st.daily, 0) + pnl && |st'.trades| == |st.trades| + 1
  {
    assert ModeOf(TIE_CONFIG, FreeEngines(), st.adaptive) == "BASE" != "LOCKDOWN";
    assert FreeEngines().canOpen(st.heat, "X", LONG, 1.0, "") == (true, st.heat);
    assert InstrumentOf(TIE_CONFIG, "X") == DEFAULT_INSTRUMENT;
    assert Times(1.0, 1.0) == 1.0 && Times(pnl, 1.0) == pnl;
  }

  lemma TwoSorted(x: Signal, y: Signal)
    requires x.ts == y.ts
    ensures StableSort(ByTime, [x, y]) == [x, y]
  {
    assert [x, y][..1] == [x] && [x][..0] == [];
    assert StableSort(ByTime, [x]) == [x];
  }

  lemma TwoTies(cfg: Config, noise: nat -> (real, real), x: Signal, y: Signal)
    requires x.ts == y.ts
    ensures Replay(cfg, FreeEngines(), noise, 0, 0, [x, y])
         == Step(cfg, FreeEngines(), noise, Step(cfg, FreeEngines(), noise, Start(0, 0), x), y)
  {
    TwoSorted(x, y);
    RunTwo(cfg, FreeEngines(), noise, Start(0, 0), x, y);
  }

  lemma RunTwo<H, A>(cfg: Config, eng: Engines<H, A>, noise: nat -> (real, real), st: State<H, A>, x: Signal, y: Signal)
    ensures Run(cfg, eng, noise, st, [x, y]) == Step(cfg, eng, noise, Step(cfg, eng, noise, st, x), y)
  {
    assert [x, y][..1] == [x] && [x][..0] == [];
    assert Run(cfg, eng, noise, st, [x]) == Step(cfg, eng, noise, st, x);
  }
}
