# QuantMetrics-Suite: a verified model of its simulators and research governance

This project models, in Dafny 4.11, the parts of the suite whose results decide what is traded and what is
promoted, and proves properties of them for all inputs:

- the **trailing exits** over a bar window (swing pivots computed over the whole future window, consumed through a
  delayed cursor by a stop / breakeven / partial / structure-trail state machine), and their near-copies in the
  other scripts (`Prices`, `Excursion`, `Exits`, `ExitMeaning`, `ExitTheorems`,
  `HybridSymmetry`, `ExitBounds`, `ExitCopies`, `CopyMeaning`);
- the **sweep outcome simulator** (`Sweep`);
- the **portfolio replays and the challenge simulator** as step machines (`Sorting`, `Ledger`, `Replay`,
  `Portfolio`, `Challenge`);
- the **one-pass metrics** and the permutation Monte Carlo (`Metrics`);
- **research governance**: configuration merge (functional, and in place on dictionary objects), experiment
  variants, the promotion gate with its discovery tiers, clustering, and the keyed registries (`ConfigMerge`,
  `ConfigInPlace`, `Numbers`, `Gate`, `Names`, `Clusters`, `Registry`).

Prices, R multiples and percentages are exact reals. Each modelled loop is a method whose contract equates its
result with a specification function or states the result outright; the theorems are about those specifications.
For each operation some of them say what it does without the specification's own terms: bar by bar for the exits
(`ExitMeaning`, `CopyMeaning`), and on the inputs for the simulators.
Random draws, slippage noise, calendars and the engines whose bodies are not part of the repository are arbitrary
function parameters, so a statement about a run holds for every draw and every engine. In the sweep events `None`
stands for a missing or non-finite value, and in the gate for a missing or unparsable one: there the trade results,
expectancies and profit factors range over the reals, both infinities and NaN, with the comparisons of the source.
Counts are unbounded integers, as in Python. `sorted` and `list.sort` are modelled as a stable sort.

What the proofs found about the code, which the model follows throughout:

- The hybrid exit compares a new swing low with `current_trail_price or entry`. A long trade whose trail stands at
  exactly 0.0 is therefore compared with the entry, and the trail can fall back. As a function of arbitrary windows it
  is the best confirmed swing exactly when the entry is not negative (`ExitTheorems.HybridTrailExact`). The exit itself
  pays every measured window what it pays the mirror image **exactly when** the entry is not negative, or nothing is
  left to the runner, or `pivot_n > 0` and `entry <= -max(be_at, partial_at) * risk`
  (`HybridSymmetry.HybridMirrorExact`, for each setting of the parameters). At the default parameters, an entry at -1
  with risk 1 has a window that pays 1.1 long and 1.4 mirrored (`HybridSymmetry.AsymmetricAtDefaults`).
- `PortfolioRiskEngine.check_trade` names a quantity `dd_from_peak` that is the loss from the start, so its halt is
  an equity floor. It coincides with the drawdown limit as long as equity has never been positive and parts from it
  exactly while equity stands above the floor but at least the limit below its peak (`Portfolio.FloorVersusDrawdown`).
  Every configuration that can trade and risks anything can trade past its drawdown limit, by any amount
  (`Portfolio.DrawdownLimitIgnoredExactly`, `Portfolio.DrawdownIgnored`).
- The heat and correlation rules of that engine only ever see an empty book: they refuse everything or nothing,
  from the configuration alone. The two counters created as `daily_loss` and `total_dd` stay zero, because refusals
  are counted under the longer names of their reasons.
- In the protocol replay every position is removed in the step that added it, so a heat engine whose removal undoes
  an addition is always asked about an empty portfolio.
- The replay sorts signals by timestamp only. Two inputs replay alike under all configurations, engines and draws
  exactly when they hold the same signals in the same order within each timestamp (`Replay.OrderMattersExactly`).
- The drawdown of several scripts starts its peak at the first equity point and so ignores losses below the start;
  the yearly one starts at zero. `Metrics.ZeroStartRelated` gives the exact relation, `Metrics.FirstLossIsMissed` an
  input.
- The challenge's per-path `max_dd_pct` is not the path's maximum drawdown. Every pass reports 0, which is right
  exactly when equity never stood below its peak (`Challenge.PassReportsNothing`; +2, -4, +12 in `PassHidesFall`). A
  drawdown failure reports its maximum drawdown exactly when it does not end in profit, and too much otherwise
  (`Challenge.DrawdownFailureReports`). The other failures can report too little or too much
  (`Challenge.SurvivorReports`; +2, -1 in `ProfitIsReportedAsFall`).
- The sweep simulator gives the same result on a year's slice as on the full series exactly when the event's indices
  fit into the slice and its window is not cut short without a touch, or the slice ends the series
  (`Sweep.SliceAgreesExactly`); an event displaced on the last bar of the slice is skipped (`Sweep.LastBarIsSkipped`).
- The expectancy rule of the promotion gate is redundant beside the profit factor rule unless a row reads NaN: such
  a row passes the profit factor rule beside a win, and is rejected (`Gate.RejectExactly`, `Gate.NanIsRejected`). The
  discovery tiers turn figures away for being below a bound and so let NaN pass: a tiered row is rejected by the gate
  exactly when its expectancy is NaN, and that happens (`Gate.TieredRejectedExactly`, `Gate.TieredAndRejected`).
- A warning whose count is zero counts as a major one (`Gate.NoMajorExactly`).
- A relax-candidate row meets the watchlist rule exactly when its expectancy is not at or below zero; that always
  holds for figures computed from one trade list, and can fail for inconsistent ones.
- The configuration merge is associative on exactly the triples without an uncovered dictionary-leaf-dictionary
  clash (`ConfigMerge.AssociativeExact`, an input in `ConfigMerge.GroupingMatters`).
- `upsert_experiment` is idempotent exactly for records that name their id.

`dafny verify dfyconfig.toml` checks the whole project.

## Model

| member | source | states |
|---|---|---|
| Excursion.RawExcursion | quantbuild/scripts/trailing_stop_research.py:44-68 | the window is the bars after the entry, at most up to `max_bars`, each with its favourable and adverse distance over the risk, where the risk is the ATR or, without one, 0.5% of the entry |
| Excursion.WindowMeasured | quantbuild/scripts/trailing_stop_research.py:44-68 | well-formed candles and a positive risk give bars whose excursions are the measured ones: the hypothesis of the pay-off bounds |
| Excursion.WindowBars | quantbuild/scripts/trailing_stop_research.py:44-68 | bar by bar: which candles the window holds, with their prices and both distances from the entry in units of the ATR, or of half a percent of the entry |
| Excursion.FindSwingLows | quantbuild/scripts/trailing_stop_research.py:73-85 | the reported swings are exactly the strict local lows over `pivot_n` bars on each side, in order, with their prices |
| Excursion.FindSwingHighs | quantbuild/scripts/trailing_stop_research.py:88-100 | the same for strict local highs |
| Excursion.SwingsSound | quantbuild/scripts/trailing_stop_research.py:73-100 | every reported swing is a pivot, carries its own price, and its position counts the pivots before it |
| Excursion.SwingsComplete | quantbuild/scripts/trailing_stop_research.py:73-100 | every pivot is reported, at that position |
| Excursion.SwingsSpaced | quantbuild/scripts/trailing_stop_research.py:73-100 | two swings are more than `pivot_n` bars apart |
| Excursion.ConfirmedSwings | quantbuild/scripts/trailing_stop_research.py:73-100 | the swings of the window cut after bar j are the full window's swings of index at most j - pivot_n |
| Exits.ExitFixedTrail | quantbuild/scripts/trailing_stop_research.py:114-134 | pays what the from-scratch definition pays: initial stop before breakeven, then the first bar at or below (best excursion since breakeven) - distance or back at the entry |
| Exits.ExitAtrTrail | quantbuild/scripts/trailing_stop_research.py:137-167 | the same with the level (best close since breakeven) minus, for shorts plus, a multiple of the bar's own ATR |
| Exits.AdvanceCursor | quantbuild/scripts/trailing_stop_research.py:191-198 | advancing the cursor over the precomputed swings yields the trail recomputed from scratch from all swings confirmed by bar j, those before breakeven included |
| Exits.TrailStep | quantbuild/scripts/trailing_stop_research.py:190-204 | one bar of the trail phase: it ends the phase exactly when the bar reaches the from-scratch trail in force there |
| Exits.ExitStructureTrail | quantbuild/scripts/trailing_stop_research.py:170-211 | the structure exit with its cursor pays what the from-scratch definition pays |
| Exits.ExitHybrid3Phase | quantbuild/scripts/trailing_stop_research.py:214-271 | the three-phase exit pays what the from-scratch definition pays, in every phase |
| ExitMeaning.StoppedPays | quantbuild/scripts/trailing_stop_research.py:114-271 | the first bar to hit the stop, before or with the breakeven trigger, costs sl_r in all four exits |
| ExitMeaning.WaitingPays | quantbuild/scripts/trailing_stop_research.py:114-271 | a window that reaches neither pays nothing |
| ExitMeaning.FixedPaysExactly | quantbuild/scripts/trailing_stop_research.py:114-134 | once armed: fires at the first later bar against the entry or the distance below some excursion since, and pays the best excursion seen less the distance, floored at 0; at the end of the window likewise |
| ExitMeaning.AtrPaysExactly | quantbuild/scripts/trailing_stop_research.py:137-167 | once armed: fires at the first later bar that reaches some close since, less (for shorts plus) its own ATR width, and pays the best close seen less that width, floored at 0 |
| ExitMeaning.StructurePaysExactly | quantbuild/scripts/trailing_stop_research.py:170-211 | once armed: fires at the first later bar that reaches the entry or a swing confirmed by then, and pays the best such swing, floored at 0 |
| ExitMeaning.BeyondEntryPaysNothing | quantbuild/scripts/trailing_stop_research.py:233-242 | between breakeven and partial, the first bar wholly beyond the entry closes the trade with nothing |
| ExitMeaning.HoldingPaysNothing | quantbuild/scripts/trailing_stop_research.py:266-271 | a window with neither that bar nor the partial target pays nothing |
| ExitMeaning.PartialIsKept | quantbuild/scripts/trailing_stop_research.py:233-271 | a bar that only dips through the entry does not end the trade: from the first bar at the partial target on, at least that part is paid, wherever the entry lies |
| ExitMeaning.HybridPaysExactly | quantbuild/scripts/trailing_stop_research.py:214-271 | for shorts and non-negative entries: the partial and a structure-trailed rest, in proportion |
| ExitTheorems.TrailIsBest | quantbuild/scripts/trailing_stop_research.py:191-198 | the trail in force is the best of the entry and all confirmed swings, and is one of them |
| ExitTheorems.TrailRatchets | quantbuild/scripts/trailing_stop_research.py:191-198 | the trail only moves in the trade's favour |
| ExitTheorems.OrEntryAgrees | quantbuild/scripts/trailing_stop_research.py:243-251 | for shorts, and for entries at or above zero, the hybrid's trail is the structure trail |
| ExitTheorems.OrEntryRetreats | quantbuild/scripts/trailing_stop_research.py:246-247 | for every negative entry and pivot width there is a window on which both trails reach 0 and the hybrid's long trail then falls back below it, the plain one not |
| ExitTheorems.HybridTrailExact | quantbuild/scripts/trailing_stop_research.py:243-251 | the hybrid's long trail is the best confirmed swing on all windows exactly when the entry is not negative |
| ExitTheorems.TrailAtCausal | quantbuild/scripts/trailing_stop_research.py:73-100 | although read off swings of the whole window, the trail at bar i needs only bars 0..i |
| ExitTheorems.StructureNoLookahead | quantbuild/scripts/trailing_stop_research.py:170-211 | if the structure exit fires at bar j, every window with the same bars 0..j gives the same result |
| ExitTheorems.HybridNoLookahead | quantbuild/scripts/trailing_stop_research.py:214-271 | the same for the hybrid exit |
| ExitTheorems.FixedNoLookahead | quantbuild/scripts/trailing_stop_research.py:114-134 | the same for the fixed-distance exit |
| ExitTheorems.AtrNoLookahead | quantbuild/scripts/trailing_stop_research.py:137-167 | the same for the ATR exit |
| ExitTheorems.WindowMirror | quantbuild/scripts/trailing_stop_research.py:44-68 | reflecting all candles about the entry and flipping the direction measures the reflected window with the same excursions and risk |
| ExitTheorems.StructureMirror | quantbuild/scripts/trailing_stop_research.py:170-211 | the structure exit gives the same outcome at the same bar on the reflected window in the other direction |
| ExitTheorems.AtrMirror | quantbuild/scripts/trailing_stop_research.py:137-167 | the same for the ATR exit |
| ExitTheorems.HybridMirror | quantbuild/scripts/trailing_stop_research.py:214-271 | the same for the hybrid exit when the entry is not negative |
| HybridSymmetry.HybridMirrorExact | quantbuild/scripts/trailing_stop_research.py:214-271 | for each setting of the parameters: every measured window pays what its mirror image pays exactly when the entry is not negative, or pct is 1, or pivot_n > 0 and entry <= -max(be_at, partial_at) * risk |
| HybridSymmetry.AsymmetricAtDefaults | quantbuild/scripts/trailing_stop_research.py:214-271 | the failing input at the default parameters: 1.1 long, 1.4 mirrored |
| HybridSymmetry.TrailsAgreeInPhase | quantbuild/scripts/trailing_stop_research.py:243-251 | when every bar at or above zero is past both triggers, the hybrid's trail is the plain one for as long as the phase runs |
| ExitBounds.FixedPaysWithin | quantbuild/scripts/trailing_stop_research.py:114-134 | pays -sl_r when the initial stop comes before everything else, and otherwise between 0 and the best favourable excursion |
| ExitBounds.FixedGivesUpDistance | quantbuild/scripts/trailing_stop_research.py:114-134 | a trade that is not stopped first pays at most the best excursion less the trail distance, floored at 0 |
| ExitBounds.AtrPaysWithin | quantbuild/scripts/trailing_stop_research.py:137-167 | the same for the ATR exit on measured windows |
| ExitBounds.StructurePaysWithin | quantbuild/scripts/trailing_stop_research.py:170-211 | the same for the structure exit |
| ExitBounds.HybridPaysWithin | quantbuild/scripts/trailing_stop_research.py:214-271 | the same for the hybrid exit, whatever the entry price |
| ExitBounds.HybridPaysBlended | quantbuild/scripts/trailing_stop_research.py:214-271 | a hybrid trade that is not stopped first pays at most the partial target and the best excursion, blended as the pay-off is |
| ExitBounds.FixedBoundReached | quantbuild/scripts/trailing_stop_research.py:114-134 | the upper bound is attained for every excursion and every trail distance |
| ExitBounds.ExitsLoseTogether | quantbuild/scripts/trailing_stop_research.py:114-271 | the four exits lose on exactly the same windows: once breakeven is armed no path loses |
| ExitCopies.FixedReadsExcursions | quantbuild/scripts/trailing_stop_research.py:114-134 | the fixed trail depends on a window only through its excursions, so its result carries over to the excursion-only windows of the other scripts |
| ExitCopies.ExitPartialTrail | quantbuild/scripts/production_analysis.py:70-91 | equals (partial_at + fixed-trail exit)/2 whenever the partial fills, and the fixed-trail exit otherwise |
| CopyMeaning.HalfTrailPaysExactly | quantbuild/scripts/production_analysis.py:70-91 | once filled: half the target and half the best excursion less the trail, floored at 0 |
| CopyMeaning.UnfilledPays | quantbuild/scripts/production_analysis.py:70-91 | unfilled: the stop when some bar hits it first, else nothing; alike in both copies |
| ExitCopies.ExitPartialTrailLoose | quantbuild/scripts/robustness_and_ftmo.py:71-90 | the later copy: the same, except that a window that runs out floors the sum of both halves |
| CopyMeaning.LooseTrailPaysExactly | quantbuild/scripts/robustness_and_ftmo.py:88-90 | a window that runs out pays the best sum of both halves, floored at 0 |
| ExitCopies.ExitVariantC | quantbuild/scripts/exit_analytics.py:111-135 | variant C reports what the production partial trail pays, with the label, the bars held and the peak of the fixed trail it follows |
| ExitCopies.LooseNeverPaysMore | quantbuild/scripts/robustness_and_ftmo.py:88-90 | the later copy never pays more than the production one, and pays less exactly when the window runs out with its peak below the trail distance |
| ExitCopies.ExitBaseline | quantbuild/scripts/robustness_and_ftmo.py:62-68 | pays by the first bar that touches stop or target, the stop taking priority, and nothing without one |
| ExitCopies.ExitDynamic | quantbuild/scripts/robustness_and_ftmo.py:93-98 | dispatches to fixed target and stop or to the later partial-trail copy |
| ExitCopies.ExitDynamicInlined | quantbuild/scripts/validation_protocol.py:107-128 | the form with the trail written out with literal constants, also used in portfolio_dual_mode.py and portfolio_optimization_v2.py, computes the same pay-off |
| CopyMeaning.DynamicConstants | quantbuild/scripts/robustness_and_ftmo.py:93-98 | windows that tell the fixed target of 2 from the partial at 1 with a trail of 1.5 |
| ExitCopies.ExitRunner | quantbuild/scripts/production_analysis.py:94-109 | stop at any time, or the first bar a trail distance below a running peak that has reached the start level |
| CopyMeaning.RunnerPaysExactly | quantbuild/scripts/production_analysis.py:94-109 | closed by the first bar that hits the stop or, once some excursion reached the start, lies the distance below one; pays -sl_r or the best excursion less the distance |
| ExitCopies.ExitVariantD | quantbuild/scripts/exit_analytics.py:138-162 | variant D reports what the production runner pays, with label, bars held and running peak |
| ExitCopies.RunnerKeepsTrail | quantbuild/scripts/production_analysis.py:94-109 | once the trail start is reached a runner pays at least start minus distance, unless it is stopped out |
| ExitCopies.RunnerCanLoseAfterAnyPeak | quantbuild/scripts/production_analysis.py:94-109 | unlike the trailing exits, a runner can lose slR after any peak |
| ExitCopies.ExitNasImproved | quantbuild/scripts/portfolio_optimization_v2.py:102-126 | the loop computes the bar-by-bar replay, early exits and end of window included |
| CopyMeaning.NasPaysExactly | quantbuild/scripts/portfolio_optimization_v2.py:102-126 | after the partial: the first bar stopped, 1.0 below an excursion since, or of index 20 or more ends the trade, in this priority, with its pay-off |
| CopyMeaning.NasWithoutPartial | quantbuild/scripts/portfolio_optimization_v2.py:102-126 | without the partial: the stop, the excursion of bar 20, or nothing |
| ExitCopies.NasBounds | quantbuild/scripts/portfolio_optimization_v2.py:102-126 | the pay-off lies between -sl_r and the best excursion, and from a state after the partial is at least 0.25 - sl_r/2 |
| ExitCopies.NasFloorAfterPartial | quantbuild/scripts/portfolio_optimization_v2.py:102-126 | a trade that reaches 0.5 by bar index 20, unstopped until then, pays at least 0.25 - sl_r/2 |
| ExitCopies.NasDecidesEarly | quantbuild/scripts/portfolio_optimization_v2.py:117-122 | the trade is decided by bar index 21; later bars are never looked at |
| Sweep.ExtremesOfRange | quantbuild/scripts/sweep_outcome_sim.py:41-53 | the fallback stop levels bound the lows and highs from sweep to displacement, and are attained there |
| Sweep.SimulateOne | quantbuild/scripts/sweep_outcome_sim.py:61-205 | skips exactly the unusable events, and otherwise reports the result of the first touch in the clipped window |
| Sweep.BearishIsBought | quantbuild/scripts/sweep_outcome_sim.py:82-109 | a bearish sweep is bought at the displacement close, its stop a buffer of ATRs below the sweep low, given or the least since the sweep; skipped exactly when the stop is not below the entry |
| Sweep.BullishIsSold | quantbuild/scripts/sweep_outcome_sim.py:82-109 | a bullish sweep is sold, with the highs and the stop above |
| Sweep.UnusableIsSkipped | quantbuild/scripts/sweep_outcome_sim.py:73-87 | other sides, indices outside the series and missing volatility are skipped |
| Sweep.SimulateExactly | quantbuild/scripts/sweep_outcome_sim.py:111-172 | on lows and highs: first bar at stop or target within max_bars and the series, stop first, with outcome, price, pay-off and holding time |
| Sweep.LevelsAtDistance | quantbuild/scripts/sweep_outcome_sim.py:93-109 | the stop lies one risk unit behind the entry and the target tp_r units ahead |
| Sweep.PnlIsSignedMove | quantbuild/scripts/sweep_outcome_sim.py:124-172 | in all three outcomes pnl_r times the stop distance is the signed move from entry to exit |
| Sweep.PnlBounds | quantbuild/scripts/sweep_outcome_sim.py:124-172 | pnl_r lies in [-1, tp_r], strictly inside on a timeout |
| Sweep.ExitIsFirstTouch | quantbuild/scripts/sweep_outcome_sim.py:130-172 | the exit bar is the first touch, at most max_bars ahead; a bar touching both levels counts as a stop; a timeout ends the window |
| Sweep.SliceAgreesExactly | quantbuild/scripts/sweep_outcome_sim.py:306-318 | for every event, skipped ones included: a contiguous slice and the full series with shifted indices agree exactly when an event the full series simulates fits into the slice, and the slice does not cut its window short without a touch or ends where the series does |
| Sweep.SliceShift | quantbuild/scripts/sweep_outcome_sim.py:111-122 | an event simulated on the slice is the same trade on the full series exactly in that case, and otherwise ends later there |
| Sweep.SliceSkips | quantbuild/scripts/sweep_outcome_sim.py:73-80 | the slice simulates exactly those events of the full series whose indices fit into it |
| Sweep.LastBarIsSkipped | quantbuild/scripts/sweep_outcome_sim.py:79-80 | an event displaced on the slice's last bar is skipped there and simulated on the full series |
| Sweep.CutShortIsClippedTimeout | quantbuild/scripts/sweep_outcome_sim.py:111-122 | the slice cuts a window short exactly when its run is a clipped timeout |
| Sweep.SimulateMirror | quantbuild/scripts/sweep_outcome_sim.py:61-172 | reflecting all prices and the sweep side leaves outcome, pay-off, holding time and exit bar unchanged |
| Sorting.SortSorted | quantbuild/scripts/validation_protocol.py:249-249 | the merged signals are in timestamp order |
| Sorting.SortStable | quantbuild/scripts/validation_protocol.py:249-249 | signals with equal timestamps keep their input order |
| Sorting.SortCanonical | quantbuild/scripts/validation_protocol.py:249-249 | two inputs sort alike exactly when they agree on the order inside every tie |
| Replay.SimulateSignals | quantbuild/scripts/validation_protocol.py:229-315 | the loop computes the run of the step machine over the time-sorted signals |
| Replay.HandleSignal | quantbuild/scripts/validation_protocol.py:257-315 | one pass: daily, drawdown, lockdown, heat, slippage gates in this order, then the booking; draws are consumed only after the heat gate |
| Replay.StoppedShort | quantbuild/scripts/validation_protocol.py:257-286 | a signal that fails a limit, LOCKDOWN or the heat engine is only counted, and no draw is spent |
| Replay.AtTheMarket | quantbuild/scripts/validation_protocol.py:287-315 | otherwise one pair of draws is spent; within the instrument's limits the signal leaves a trade of its pay-off less the slippage, at base or adaptive risk times the multiplier |
| Replay.EnginesTold | quantbuild/scripts/validation_protocol.py:299-315 | what the heat engine and the adaptive layer are told of a trade, and the equity and mode it is booked with |
| Replay.TradesAccounted | quantbuild/scripts/validation_protocol.py:249-315 | for every run: the trades belong to different signals in order, each its signal's pay-off less a slippage draw of its own |
| Replay.MetInTimeOrder | quantbuild/scripts/validation_protocol.py:249-249 | signals are met in the order of their timestamps |
| Replay.BooksBalance | quantbuild/scripts/validation_protocol.py:251-315 | executed plus blocked is the number of signals; equity is the sum of trade results and of the daily ledger; each day's entry is the sum of its trades; peak is the high-water mark counting the start |
| Replay.OvershootBounded | quantbuild/scripts/validation_protocol.py:263-299 | after any trade of any run, drawdown is below the limit plus that trade's loss, and its day's total above minus the daily limit minus that loss |
| Replay.HaltAbsorbs | quantbuild/scripts/validation_protocol.py:269-277 | at the drawdown limit, or in LOCKDOWN, every later signal only adds to the blocked count |
| Replay.NoTradeAfterHalt | quantbuild/scripts/validation_protocol.py:257-315 | once a run has halted its trades, equity, ledger and engines are final |
| Replay.HeatNeverAccumulates | quantbuild/scripts/validation_protocol.py:301-315 | if opening and closing a position cancel out, the heat engine is in its initial state at every signal |
| Replay.OrderIrrelevant | quantbuild/scripts/validation_protocol.py:249-315 | inputs that agree on the order of simultaneous signals replay alike |
| Replay.OrderMattersExactly | quantbuild/scripts/validation_protocol.py:249-315 | inputs replay alike under every configuration, engine and draw exactly when they agree on the signals and their order within each timestamp |
| Replay.DistinctTimesIrrelevant | quantbuild/scripts/validation_protocol.py:249-315 | with distinct timestamps the input order is irrelevant |
| Replay.TiesMatter | quantbuild/scripts/validation_protocol.py:249-315 | with equal timestamps the input order can change the number of trades |
| Ledger.BookingBalances | quantbuild/scripts/portfolio_dual_mode.py:257-269 | booking one trade keeps equity, peak, trade list and daily ledger in balance |
| Portfolio.SimulatePortfolio | quantbuild/scripts/portfolio_dual_mode.py:222-269 | the loop computes the run of the step machine over the time-sorted signals |
| Portfolio.StepExactly | quantbuild/scripts/portfolio_dual_mode.py:206-269 | a signal counts one for the first rule that refuses it, in order, or leaves its trade |
| Portfolio.TradesAccounted | quantbuild/scripts/portfolio_dual_mode.py:237-269 | for every run: the trades belong to different signals in order, each sized by its own instrument's multiplier |
| Portfolio.MetInTimeOrder | quantbuild/scripts/portfolio_dual_mode.py:228-228 | signals are met in the order of their timestamps |
| Portfolio.BooksBalance | quantbuild/scripts/portfolio_dual_mode.py:227-269 | executed plus refused is the number of signals, and equity, peak and ledger agree with the trades |
| Portfolio.MonthlyTotals | quantbuild/scripts/portfolio_dual_mode.py:287-292 | each month's entry is the sum of its trades, and the months sum to the equity |
| Portfolio.OvershootBounded | quantbuild/scripts/portfolio_dual_mode.py:206-217 | after any trade, equity lies above minus the total limit, and its day above minus the daily limit, except for at most that trade's loss |
| Portfolio.FloorAbsorbs | quantbuild/scripts/portfolio_dual_mode.py:210-212 | at the equity floor nothing but refusal counts ever changes again |
| Portfolio.FloorVersusDrawdown | quantbuild/scripts/portfolio_dual_mode.py:206-217 | over all runs: the floor implies the drawdown limit, they part exactly in the band between, and coincide while equity was never positive |
| Portfolio.DrawdownIgnored | quantbuild/scripts/portfolio_dual_mode.py:206-217 | for every drop there is a run that falls by it from its peak and still executes the next trade |
| Portfolio.DrawdownLimitIgnoredExactly | quantbuild/scripts/portfolio_dual_mode.py:206-217 | a configuration can trade past its drawdown limit exactly when it admits a first trade and risks something per trade |
| Portfolio.ExposureRulesAreStatic | quantbuild/scripts/portfolio_dual_mode.py:213-216 | the heat and correlation rules refuse every signal that reaches them or none, from the configuration alone |
| Portfolio.PresetCountersStayZero | quantbuild/scripts/portfolio_dual_mode.py:234-253 | the preset counters `daily_loss` and `total_dd` are never incremented |
| Portfolio.DistinctTimesIrrelevant | quantbuild/scripts/portfolio_dual_mode.py:228-269 | with distinct timestamps the input order is irrelevant |
| Challenge.SimulatePath | quantbuild/scripts/robustness_and_ftmo.py:156-196 | the outcome describes the path: the first trade at which drawdown or target fires, or the first day end at which the daily limit fires, or none of these; equity and peak are those of that place |
| Challenge.PathIsSumOfDraws | quantbuild/scripts/robustness_and_ftmo.py:160-189 | whatever the outcome, the path ends at the sum of its draws, at most five a day, times the risk, and its peak is the largest of zero and those sums |
| Challenge.OutcomeScales | quantbuild/scripts/robustness_and_ftmo.py:156-196 | scaling risk, target and both limits by one positive factor changes no outcome |
| Challenge.RiskSizesTheTrade | quantbuild/scripts/robustness_and_ftmo.py:170-172 | +4, +4, +4 at half a percent end at 6, short of 10 |
| Challenge.FiveTradesADay | quantbuild/scripts/robustness_and_ftmo.py:163-165 | of seven trades drawn for a day five are taken |
| Challenge.StopsOnce | quantbuild/scripts/robustness_and_ftmo.py:160-189 | a path stops in one place only, with one outcome |
| Challenge.OutcomeUnique | quantbuild/scripts/robustness_and_ftmo.py:191-200 | no path fits two outcomes |
| Challenge.PassCertifiesPath | quantbuild/scripts/robustness_and_ftmo.py:162-193 | a pass means drawdown below the limit after every trade up to the deciding one, and every completed day within its loss limit |
| Challenge.ChecksNeverClash | quantbuild/scripts/robustness_and_ftmo.py:173-184 | with positive target and limit, drawdown and target never both fire on a trade that is reached |
| Challenge.CheckOrderImmaterial | quantbuild/scripts/portfolio_dual_mode.py:372-386 | hence testing the target first classifies every path alike |
| Challenge.NonPositiveLimitClashes | quantbuild/scripts/robustness_and_ftmo.py:175-179 | with a non-positive limit every trade that is reached fires the drawdown check |
| Challenge.SimulateChallenge | quantbuild/scripts/robustness_and_ftmo.py:150-206 | for every draw sequence the four counts are those of the paths' outcomes and sum to the number of simulations; days to pass, final equities and drawdown figures are those of the paths; days to pass lie in the trading period |
| Challenge.MaxFallIs | quantbuild/scripts/robustness_and_ftmo.py:174-177 | the path's maximum drawdown bounds every drawdown up to a place and is one of them |
| Challenge.PassReportsNothing | quantbuild/scripts/robustness_and_ftmo.py:205-206 | a pass reports 0 as its maximum drawdown, and that is right exactly when equity never stood below its peak |
| Challenge.PassHidesFall | quantbuild/scripts/robustness_and_ftmo.py:205-206 | +2, -4, +12 passes after a fall of 4 and reports 0 |
| Challenge.DrawdownFailureReports | quantbuild/scripts/robustness_and_ftmo.py:205-206 | a drawdown failure reports at least its maximum drawdown, which is at least the limit, and exactly it when and only when it does not end in profit |
| Challenge.SurvivorReports | quantbuild/scripts/robustness_and_ftmo.py:205-206 | a path failing on a day's loss or on time: without profit the figure is too small exactly when it fell deeper before; in profit below its peak it is too large exactly when no fall was as large as the peak |
| Challenge.ProfitIsReportedAsFall | quantbuild/scripts/robustness_and_ftmo.py:205-206 | +2, -1 runs out of time after a fall of 1 and reports 2 |
| Challenge.DailyFailureReports | quantbuild/scripts/robustness_and_ftmo.py:205-206 | a daily failure reports at least its final drawdown, which is at least the daily limit |
| Challenge.FigureAboveFinalFall | quantbuild/scripts/robustness_and_ftmo.py:205-206 | the figure is at least the final drawdown, and equals it exactly when the path does not end in profit below its peak |
| Metrics.RunningDrawdown | quantbuild/scripts/strategy_variants_backtest.py:92-104 | the running-peak figure is the largest fall between two equity points, the first point being after the first trade |
| Metrics.ZeroStartDrawdown | quantbuild/scripts/rolling_year_runner.py:71-76 | the yearly figure is minus the largest fall with the start at zero included |
| Metrics.ZeroStartRelated | quantbuild/scripts/exit_analytics.py:176-188 | the yearly figure is the larger of the running-peak one and the depth below zero, and they agree exactly when the latter is not larger |
| Metrics.FirstLossIsMissed | quantbuild/scripts/exit_analytics.py:176-188 | on one losing trade the running-peak figure is 0 and the yearly one its loss |
| Metrics.Streaks | quantbuild/scripts/strategy_variants_backtest.py:106-121 | the lazily updated counters are the lengths of the longest contiguous runs of losing and of other trades |
| Metrics.StreakExample | quantbuild/scripts/strategy_variants_backtest.py:106-121 | a time-out counts as a loss, other results do not |
| Metrics.DrawdownWithinGrossLoss | quantbuild/scripts/production_analysis.py:123-125 | a drawdown lies between zero and the sum of all losses |
| Metrics.GrossLossPermutation | quantbuild/scripts/production_analysis.py:151-156 | shuffling leaves the gross loss unchanged |
| Metrics.MonteCarlo | quantbuild/scripts/production_analysis.py:143-157 | every shuffle ends at the total; its drawdown is its own largest fall and at most the gross loss; the worst-equity curve is the pointwise minimum of the paths and ends at the total |
| ConfigMerge.DeepMerge | quantmetrics_os/scripts/throughput_discovery_matrix.py:316-323 | the loop over a copy computes the recursive merge in whatever order the patch lists its keys; the same function in strategy_variants_backtest.py |
| ConfigMerge.MergeLookup | quantmetrics_os/scripts/throughput_discovery_matrix.py:316-323 | at every path: the patch's entry wins (two dictionaries merge), a patch leaf above hides it, and where the patch says nothing the base shows |
| ConfigMerge.LookupCases | quantmetrics_os/scripts/throughput_discovery_matrix.py:316-323 | exactly one of the three cases applies to any path |
| ConfigMerge.MergeIdempotent | quantbuild/scripts/strategy_variants_backtest.py:24-31 | applying a patch twice is applying it once |
| ConfigMerge.CoveredExact | quantbuild/scripts/strategy_variants_backtest.py:24-31 | merging c into a gives c exactly when c defines everything a defines |
| ConfigMerge.AssociativeExact | quantbuild/scripts/strategy_variants_backtest.py:24-31 | merging is associative on exactly the triples without an uncovered dictionary-leaf-dictionary clash |
| ConfigMerge.GroupingMatters | quantbuild/scripts/strategy_variants_backtest.py:24-31 | a dictionary, a leaf and an empty dictionary under one key merge differently by grouping |
| ConfigMerge.BuildVariant | quantmetrics_os/scripts/throughput_discovery_matrix.py:599-604 | the variant is the base with overridden filters, then the overlay merged in |
| ConfigMerge.VariantAgreesOutside | quantmetrics_os/scripts/throughput_discovery_matrix.py:597-605 | a variant agrees with the base on every path outside its override and overlay |
| ConfigMerge.VariantShowsChanges | quantmetrics_os/scripts/throughput_discovery_matrix.py:597-605 | an overridden filter shows the override's value, and every leaf of the overlay shows |
| ConfigMerge.ThroughputVariantRelaxes | quantmetrics_os/scripts/throughput_discovery_matrix.py:345-385 | the throughput variant turns session, regime, cooldown and news filters off |
| ConfigMerge.NewYorkVariantAdjustsSessions | quantmetrics_os/scripts/throughput_discovery_matrix.py:388-442 | the New York variant sets its earliest hour to 0 and leaves every filter alone |
| ConfigMerge.HardRiskStackKept | quantmetrics_os/scripts/throughput_discovery_matrix.py:345-442 | no variant of either matrix changes position limit, daily loss, spread or H1 gate of any base configuration |
| ConfigInPlace.DeepMergeInPlace | quantbuild/scripts/m5_engine_smoke.py:37-42 | on disjoint trees of dictionary objects the in-place merge leaves base standing for the functional result, as a tree that now shares the patch's objects, and the patch as it was |
| Gate.ComputeTradeMetrics | quantmetrics_os/scripts/promotion_gate.py:33-55 | metrics of the rows whose pnl_r parses, `nan` and `inf` included |
| Gate.ExpectancyIsMean | quantmetrics_os/scripts/promotion_gate.py:39-40 | on finite results expectancy times trades is the total |
| Gate.ProfitFactorIsRatio | quantmetrics_os/scripts/promotion_gate.py:41-49 | on finite results profit factor times losses is the gain; without losses it is infinite or missing |
| Gate.ProfitFactorRule | quantmetrics_os/scripts/promotion_gate.py:41-49 | in terms of sums, the profit factor rule asks for no infinite loss, and a gain that is infinite or positive and at least 1.25 times the losses |
| Gate.ExpectancyUndefined | quantmetrics_os/scripts/promotion_gate.py:40-49 | the expectancy is NaN exactly when a result is or infinite results cancel, the profit factor exactly in the latter case |
| Gate.ProfitFactorForcesExpectancy | quantmetrics_os/scripts/promotion_gate.py:40-49 | beside a profit factor of at least 1.25 the expectancy is positive exactly when no result is NaN |
| Gate.EvaluateGate | quantmetrics_os/scripts/promotion_gate.py:91-183 | reads the evidence off the artifacts; REJECT on a failed expectancy or profit factor rule, else VALIDATION_REQUIRED on any other failure, else PROMOTE; the failed rules are listed rejecting ones first |
| Gate.HasProtectiveGuard | quantmetrics_os/scripts/promotion_gate.py:58-62 | some guard's verdict reads EDGE_PROTECTIVE |
| Gate.MajorWarnings | quantmetrics_os/scripts/promotion_gate.py:65-72 | the warnings with a code and a count above zero, as counts are read |
| Gate.NoMajorExactly | quantmetrics_os/scripts/promotion_gate.py:65-72 | no warning is major exactly when each has a blank code or a negative count |
| Gate.MaxDrawdownFromStability | quantmetrics_os/scripts/promotion_gate.py:75-88 | the largest drawdown in the stability tables, or none |
| Gate.EvidenceUnique | quantmetrics_os/scripts/promotion_gate.py:91-108 | the evidence does not depend on the order of guards, dimensions and rows |
| Gate.RejectExactly | quantmetrics_os/scripts/promotion_gate.py:134-147 | the gate rejects exactly when the profit factor rule fails or a row reads NaN |
| Gate.PromoteExactly | quantmetrics_os/scripts/promotion_gate.py:122-183 | PROMOTE exactly on 100 trades, a good profit factor, no NaN, confidence not LOW, a protective guard, no major warning and, where known, a drawdown within the ratio |
| Gate.NanIsRejected | quantmetrics_os/scripts/promotion_gate.py:134-147 | a NaN beside a win passes the profit factor rule and is rejected |
| Gate.DecisionIgnoresOrder | quantmetrics_os/scripts/promotion_gate.py:33-55 | metrics and decision do not depend on the order of the rows |
| Gate.WinningTradeNeverHurts | quantmetrics_os/scripts/promotion_gate.py:122-183 | one more winning trade, even an infinite one, never worsens the decision |
| Gate.RelaxMeetsWatchlistExactly | quantmetrics_os/scripts/discovery_tiers.py:66-124 | a relax candidate meets the watchlist rule exactly when its expectancy is not at or below zero |
| Gate.TierBounds | quantmetrics_os/scripts/discovery_tiers.py:14-124 | where the bounds of both tiers lie over a baseline of 100 trades |
| Gate.RelaxImpliesWatchlist | quantmetrics_os/scripts/discovery_tiers.py:66-124 | on figures of one trade list every relax candidate meets the watchlist rule |
| Gate.RelaxWithoutWatchlist | quantmetrics_os/scripts/discovery_tiers.py:127-160 | on inconsistent figures a relax candidate can miss it |
| Gate.TieredRejectedExactly | quantmetrics_os/scripts/discovery_tiers.py:127-160 | a tiered row of a trade list is rejected by the gate exactly when its expectancy is NaN |
| Gate.TieredAndRejected | quantmetrics_os/scripts/discovery_tiers.py:127-160 | a trade list with a NaN whose row is a relax candidate and which the gate rejects |
| Clusters.PreferredIsMinimum | quantmetrics_os/scripts/discovery_clusters.py:57-66 | the preferred test is the member that is least by (rank, order, name) |
| Clusters.PreferredInWords | quantmetrics_os/scripts/discovery_clusters.py:57-66 | least rank first, then display order, then name |
| Clusters.RanksOf | quantmetrics_os/scripts/discovery_clusters.py:15-25 | one relaxed filter ranks before two, these before all, and these before unknown variants |
| Clusters.BucketsPartition | quantmetrics_os/scripts/discovery_clusters.py:78-89 | the buckets hold, for each tier and metric key once, the folders of exactly the rows with that key |
| Clusters.BuildDiscoveryClusters | quantmetrics_os/scripts/discovery_clusters.py:69-120 | the two loops compute the sorted clusters of the big buckets |
| Clusters.ClustersCanonical | quantmetrics_os/scripts/discovery_clusters.py:69-120 | with distinct folders the cluster list is independent of the row order |
| Clusters.EachVariantInOneCluster | quantmetrics_os/scripts/discovery_clusters.py:97-119 | with distinct folders no variant is in two clusters |
| Clusters.ClusterShape | quantmetrics_os/scripts/discovery_clusters.py:97-119 | a cluster has at least two different variants, and its preferred test is the least of them |
| Clusters.TogetherExactly | quantmetrics_os/scripts/discovery_clusters.py:28-54 | with distinct folders two variants share a cluster exactly when tier, whole trades and the rounded expectancy, profit factor and drawdown agree, without a NaN |
| Clusters.ClusterListSorted | quantmetrics_os/scripts/discovery_clusters.py:119-119 | relax candidates first, then by preferred test |
| Clusters.ClusterShowsPreferred | quantmetrics_os/scripts/discovery_clusters.py:97-118 | a cluster shows the metrics of its preferred test |
| Clusters.BuildTieredRows | quantmetrics_os/scripts/throughput_discovery_compare.py:251-299 | the rows with a tier, in table order, and the names with a watchlist line, each once |
| Clusters.TieredRowsAre | quantmetrics_os/scripts/throughput_discovery_compare.py:251-284 | which rows get a tier, written out, with their four figures |
| Clusters.UnclusteredWatchlist | quantmetrics_os/scripts/throughput_discovery_compare.py:440-460 | the names listed one by one are those on the watchlist and in no watchlist cluster, each once and sorted |
| Clusters.ReportWatchlist | quantmetrics_os/scripts/throughput_discovery_compare.py:385-468 | from the table to the report: with distinct folders every watchlist variant is listed by itself or is in one cluster, never both, neither or in two, and only watchlist variants are listed |
| Clusters.WatchlistShownOnce | quantmetrics_os/scripts/throughput_discovery_compare.py:385-468 | a watchlist variant is held back from the list exactly when some cluster contains it |
| Registry.PrintParse | quantresearch/quantresearch/experiment_registry.py:50-56 | reading a generated, zero-padded id gives back its number |
| Registry.IdsOf | quantresearch/quantresearch/experiment_registry.py:56-56 | ids are padded to three digits |
| Registry.NextId | quantresearch/quantresearch/experiment_registry.py:50-56 | the generated id carries the number after the largest among the well-formed ids |
| Registry.MaxNumberAttained | quantresearch/quantresearch/experiment_registry.py:50-56 | the largest number is that of some record, unless no id is well-formed |
| Registry.GeneratedIdFresh | quantresearch/quantresearch/edge_registry.py:61-70 | a generated id is new, whatever ids are stored and for any prefix |
| Registry.ExperimentRegistry.UpsertExperiment | quantresearch/quantresearch/experiment_registry.py:59-81 | the stored list becomes the upserted one, and the record then found under the id is returned |
| Registry.ExperimentRegistry.GetExperiment | quantresearch/quantresearch/experiment_registry.py:43-47 | the first record with the id, if any |
| Registry.ExperimentRegistry.DeleteExperiment | quantresearch/quantresearch/experiment_registry.py:84-91 | drops the records with the id and tells whether there was one |
| Registry.EdgeRegistry.AddRecord | quantresearch/quantresearch/edge_registry.py:73-98 | drops any record with the id and puts the new one last |
| Registry.RunKeepsIdsUnique | quantresearch/quantresearch/experiment_registry.py:59-91 | any sequence of upserts and deletes keeps experiment ids unique |
| Registry.AdditionsKeepIdsUnique | quantresearch/quantresearch/edge_registry.py:73-98 | any sequence of additions keeps edge and rejection ids unique |
| Registry.AddLastUnique | quantresearch/quantresearch/edge_registry.py:73-98 | an addition keeps ids unique and leaves the latest record last |
| Registry.UpsertIdempotentExact | quantresearch/quantresearch/experiment_registry.py:59-81 | upserting twice is upserting once exactly for records that name their id |
| Registry.UpsertKeepsOthers | quantresearch/quantresearch/experiment_registry.py:68-79 | an upsert leaves all other records and their order alone |
| Registry.UpsertExactly | quantresearch/quantresearch/experiment_registry.py:66-78 | a known id changes its records in place, a new one adds a record at the end |
| Registry.DeleteUndoesInsert | quantresearch/quantresearch/experiment_registry.py:84-91 | deleting a freshly inserted record restores the registry |
| Registry.DeleteUndoesGenerated | quantresearch/quantresearch/experiment_registry.py:59-91 | with a generated id it always does |
| Registry.UpsertGet | quantresearch/quantresearch/experiment_registry.py:68-81 | after an upsert the id holds the old fields overwritten by the new ones |

## Left out

- Signal generation, regime detection, parquet loading and the bodies of the heat engine and the adaptive layer are
  not part of this model; signals are given, and the engines are arbitrary functions.
- Broker, notification, dashboard, subprocess and orchestration code: input and output around code that is not part
  of this model.
- Floating-point rounding, `round` on reported figures (an abstract function where clusters use it), JSON, CSV and
  Markdown texts, warnings and timestamps.
- Probability statements: pass rates, percentiles and the distributions behind the draws; the model proves what holds
  for every draw.
- Replay.SimulateSignals: the local variables of the loop are gathered in one record; the summary figures computed
  after the loop are those of `Metrics`.
- The challenge simulator of portfolio_optimization_v2.py: it tests the target only at the end of a day and has no
  daily limit, and adds no property beyond those of `Challenge`.
- HybridSymmetry.HybridMirrorExact: the stop multiple sl_r is not negative, as in every call of the script.
- Gate.EvaluateGate: `upper` and `strip` are abstract functions, and drawdowns, trade counts and ratios are finite;
  only trade results, expectancies and profit factors may be infinite or NaN.
- Exit variants A and B of exit_analytics.py: A is the baseline exit with a label; B has four fixed pay-offs.
- ConfigMerge.DeepMerge: a configuration list is one opaque leaf, and the insertion order of keys is not modelled.
- Registry.NextId: the digit class of the id pattern is modelled as the ten ASCII digits.
- Files: a registry is the list it stores; reading and writing it is not modelled.
