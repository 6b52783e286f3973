/** The candle record that the gap report and the resampler read. */
module Candles {
  import opened Prelude
  import opened Timeframes

  /** What a resampled candle says about where it comes from. */
  datatype Origin = Origin(providerTimestamp: int, sourceTimeframe: Timeframe, targetTimeframe: Timeframe,
                           resamplingMethod: string)

  datatype Candle = Candle(
    timestamp: int,
    symbol: string,
    timeframe: Timeframe,
    open: real,
    high: real,
    low: real,
    close: real,
    volume: Option<real>,
    tickVolume: Option<real>,
    spread: Option<real>,
    isClosed: bool,
    source: string,
    provider: Option<string>,
    origin: Option<Origin>)

  function TimeKey(candle: Candle): real { candle.timestamp as real }

  predicate Ordered(candles: seq<Candle>) {
    forall i, j | 0 <= i < j < |candles| :: candles[i].timestamp <= candles[j].timestamp
  }

  /** `sorted(candles, key=timestamp)`. */
  function ByTime(candles: seq<Candle>): seq<Candle> { SortBy(candles, TimeKey) }

  lemma ByTimeOrders(candles: seq<Candle>)
    ensures Ordered(ByTime(candles))
    ensures multiset(ByTime(candles)) == multiset(candles) && |ByTime(candles)| == |candles|
    ensures forall c :: c in ByTime(candles) <==> c in candles
  {
    SortByOrders(candles, TimeKey);
    SameMembers(ByTime(candles), candles);
    forall i, j | 0 <= i < j < |candles|
      ensures ByTime(candles)[i].timestamp <= ByTime(candles)[j].timestamp
    {
      assert TimeKey(ByTime(candles)[i]) <= TimeKey(ByTime(candles)[j]);
    }
  }
}
