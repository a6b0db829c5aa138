/** Candles, and their reflection about a price level. */
module Prices {

  datatype Candle = Candle(hi: real, lo: real, cl: real, atr: real)

  /** Reflection of a price about a level. */
  function Reflect(level: real, price: real): real { 2.0 * level - price }

  function MirrorCandle(c: Candle, level: real): Candle {
    Candle(Reflect(level, c.lo), Reflect(level, c.hi), Reflect(level, c.cl), c.atr)
  }

  function MirrorSeries(candles: seq<Candle>, level: real): seq<Candle> {
    seq(|candles|, i requires 0 <= i < |candles| => MirrorCandle(candles[i], level))
  }
}
