/** A trade list with its running books: equity, high-water mark and per-day ledger. */
module Ledger {
  import opened Common

  /** `tag` is what the simulator notes beside the trade: the adaptive mode or the regime. */
  datatype Trade = Trade(ts: int, symbol: string, tag: string, pnlR: real, pnlPct: real, equity: real)

  function DayTotal(daily: map<int, real>, day: int): real { if day in daily then daily[day] else 0.0 }

  /** Profit of the first k trades. */
  function Profit(trades: seq<Trade>, k: nat): real
    requires k <= |trades|
  {
    if k == 0 then 0.0 else Profit(trades, k - 1) + trades[k - 1].pnlPct
  }

  /** Profit of those of the first k trades that closed on the given day. */
  function DayProfit(dayOf: int -> int, trades: seq<Trade>, k: nat, day: int): real
    requires k <= |trades|
  {
    if k == 0 then 0.0
    else DayProfit(dayOf, trades, k - 1, day) + if dayOf(trades[k - 1].ts) == day then trades[k - 1].pnlPct else 0.0
  }

  /** Highest equity reached over the first k trades, counting the start at zero. */
  function HighWater(trades: seq<Trade>, k: nat): real
    requires k <= |trades|
  {
    if k == 0 then 0.0 else Max(HighWater(trades, k - 1), trades[k - 1].equity)
  }

  /** Every trade's recorded equity, the running equity, the peak and the daily ledger all agree with the trades. */
  ghost predicate Balanced(dayOf: int -> int, trades: seq<Trade>, equity: real, peak: real, daily: map<int, real>) {
    var n := |trades|;
    && (forall k :: 0 <= k < n ==> trades[k].equity == Profit(trades, k + 1))
    && equity == Profit(trades, n) == MapSum(daily)
    && peak == HighWater(trades, n)
    && (forall day :: DayTotal(daily, day) == DayProfit(dayOf, trades, n, day))
  }

  lemma {:induction false} PrefixTotals(dayOf: int -> int, trades: seq<Trade>, t: Trade, k: nat, day: int)
    requires k <= |trades|
    ensures Profit(trades + [t], k) == Profit(trades, k)
    ensures HighWater(trades + [t], k) == HighWater(trades, k)
    ensures DayProfit(dayOf, trades + [t], k, day) == DayProfit(dayOf, trades, k, day)
  {
    if k > 0 { PrefixTotals(dayOf, trades, t, k - 1, day); }
  }

  /** Booking one more trade, as both simulators do it, keeps the books balanced. */
  lemma BookingBalances(dayOf: int -> int, trades: seq<Trade>, equity: real, peak: real, daily: map<int, real>,
                        t: Trade)
    requires Balanced(dayOf, trades, equity, peak, daily) && t.equity == equity + t.pnlPct
    ensures var day := dayOf(t.ts);
      Balanced(dayOf, trades + [t], t.equity, Max(peak, t.equity), daily[day := DayTotal(daily, day) + t.pnlPct])
  {
    var n, day := |trades|, dayOf(t.ts);
    var daily' := daily[day := DayTotal(daily, day) + t.pnlPct];
    forall k | 0 <= k <= n ensures Profit(trades + [t], k) == Profit(trades, k) {
      PrefixTotals(dayOf, trades, t, k, day);
    }
    PrefixTotals(dayOf, trades, t, n, day);
    MapSumAdd(daily, day, t.pnlPct);
    forall d ensures DayTotal(daily', d) == DayProfit(dayOf, trades + [t], n + 1, d) {
      PrefixTotals(dayOf, trades, t, n, d);
      assert DayTotal(daily, d) == DayProfit(dayOf, trades, n, d);
    }
  }

  function Loss(t: Trade): real { Max(0.0, -t.pnlPct) }

  lemma {:induction false} HighWaterAboveStart(trades: seq<Trade>, k: nat)
    requires k <= |trades|
    ensures HighWater(trades, k) >= 0.0 && (k > 0 ==> HighWater(trades, k) >= trades[k - 1].equity)
  {
    if k > 0 { HighWaterAboveStart(trades, k - 1); }
  }
}
