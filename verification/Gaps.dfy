/** The gap report of one candle series (data_quality/market_data.py:75-100). */
module Gaps {
  import opened Prelude
  import opened Timeframes
  import opened Candles
  import opened FxCalendar

  datatype Severity = INFO | WARNING | CRITICAL

  datatype Reason = FxWeekendOrMarketClosed | MissingMarketCandles

  datatype Gap = Gap(
    symbol: string,
    timeframe: Timeframe,
    start: int,
    end: int,
    expectedCandles: nat,
    actualCandles: nat,
    severity: Severity,
    reason: Reason)

  predicate SameSeries(a: Candle, b: Candle) { a.symbol == b.symbol && a.timeframe == b.timeframe }

  /** The gap between two neighbours of the ordered series, if there is one. */
  function GapBetween(previous: Candle, current: Candle): seq<Gap> {
    var delta := Delta(previous.timeframe);
    var start, end := previous.timestamp + delta, current.timestamp;
    if !SameSeries(previous, current) || start >= end then []
    else
      var expected := OpenPoints(start, end, delta);
      var severity := if expected == 0 then INFO else if expected >= 12 then CRITICAL else WARNING;
      var reason := if expected == 0 then FxWeekendOrMarketClosed else MissingMarketCandles;
      [Gap(previous.symbol, previous.timeframe, start, end, expected, 0, severity, reason)]
  }

  function GapsOf(ordered: seq<Candle>): seq<Gap> {
    if |ordered| < 2 then []
    else GapsOf(ordered[..|ordered| - 1]) + GapBetween(ordered[|ordered| - 2], ordered[|ordered| - 1])
  }

  method DetectMarketDataGaps(candles: seq<Candle>) returns (result: seq<Gap>)
    ensures result == GapsOf(ByTime(candles))
  {
    result := [];
    var ordered := ByTime(candles);
    assert |ordered| == |candles| by { ByTimeOrders(candles); }
    if |candles| < 2 { return; }
    var i := 1;
    assert ordered[..1] == [ordered[0]];
    while i < |ordered|
      invariant 1 <= i <= |ordered|
      invariant result == GapsOf(ordered[..i])
    {
      var previous, current := ordered[i - 1], ordered[i];
      i := i + 1;
      assert ordered[..i][..i - 1] == ordered[..i - 1];
      if previous.symbol != current.symbol || previous.timeframe != current.timeframe { continue; }
      var delta := Delta(previous.timeframe);
      var start, end := previous.timestamp + delta, current.timestamp;
      if start >= end { continue; }
      var expected := CountOpenIntervals(start, end, delta);
      var severity, reason;
      if expected == 0 {
        severity, reason := INFO, FxWeekendOrMarketClosed;
      } else {
        severity := if expected >= 12 then CRITICAL else WARNING;
        reason := MissingMarketCandles;
      }
      result := result + [Gap(previous.symbol, previous.timeframe, start, end, expected, 0, severity, reason)];
    }
    assert ordered[..i] == ordered;
  }

  // ------------------------------------------------------ nothing is lost

  predicate OnGrid(t: int, origin: int, timeframe: Timeframe) { (t - origin) % Delta(timeframe) == 0 }

  /** Candles of one symbol and timeframe whose stamps lie on one grid. */
  ghost predicate OneSeries(candles: seq<Candle>, symbol: string, timeframe: Timeframe, origin: int) {
    forall c | c in candles :: c.symbol == symbol && c.timeframe == timeframe && OnGrid(c.timestamp, origin, timeframe)
  }

  function Expected(gaps: seq<Gap>): nat {
    if gaps == [] then 0 else gaps[0].expectedCandles + Expected(gaps[1..])
  }

  lemma {:induction false} ExpectedConcat(a: seq<Gap>, b: seq<Gap>)
    ensures Expected(a + b) == Expected(a) + Expected(b)
  {
    if a == [] {
      assert a + b == b;
    } else {
      assert (a + b)[1..] == a[1..] + b;
      ExpectedConcat(a[1..], b);
    }
  }

  ghost predicate Stamped(candles: seq<Candle>, t: int) { exists c :: c in candles && c.timestamp == t }

  /** The distinct stamps that fall in market hours. */
  function OpenStamps(candles: seq<Candle>): set<int> {
    if candles == [] then {}
    else
      var last := candles[|candles| - 1].timestamp;
      OpenStamps(candles[..|candles| - 1]) + if IsFxMarketOpen(last) then {last} else {}
  }

  lemma {:induction false} OpenStampsAre(candles: seq<Candle>, t: int)
    ensures t in OpenStamps(candles) <==> IsFxMarketOpen(t) && Stamped(candles, t)
  {
    if candles != [] {
      var last := |candles| - 1;
      OpenStampsAre(candles[..last], t);
      StampedSnoc(candles, t);
    }
  }

  lemma StampedSnoc(candles: seq<Candle>, t: int)
    requires candles != []
    ensures Stamped(candles, t) <==> Stamped(candles[..|candles| - 1], t) || candles[|candles| - 1].timestamp == t
  {
    assert candles[|candles| - 1] in candles;
    if Stamped(candles, t) {
      var i :| 0 <= i < |candles| && candles[i].timestamp == t;
      assert i < |candles| - 1 ==> candles[i] in candles[..|candles| - 1];
    }
  }

  lemma OpenStampsSnoc(candles: seq<Candle>)
    requires candles != []
    ensures var prefix, last := candles[..|candles| - 1], candles[|candles| - 1].timestamp;
      |OpenStamps(candles)| == |OpenStamps(prefix)| + if IsFxMarketOpen(last) && !Stamped(prefix, last) then 1 else 0
  {
    var prefix, last := candles[..|candles| - 1], candles[|candles| - 1].timestamp;
    OpenStampsAre(prefix, last);
    if last in OpenStamps(prefix) {
      assert OpenStamps(candles) == OpenStamps(prefix);
    }
  }

  /** The same count, read off an ordered series: a stamp is new when it differs from the previous one. */
  function OpenSeen(ordered: seq<Candle>): nat {
    var n := |ordered|;
    if n == 0 then 0
    else
      var t := ordered[n - 1].timestamp;
      var isNew := n == 1 || ordered[n - 2].timestamp != t;
      OpenSeen(ordered[..n - 1]) + if IsFxMarketOpen(t) && isNew then 1 else 0
  }

  lemma {:induction false} OpenSeenCountsStamps(ordered: seq<Candle>)
    requires Ordered(ordered)
    ensures OpenSeen(ordered) == |OpenStamps(ordered)|
  {
    var n := |ordered|;
    if n > 0 {
      OpenSeenCountsStamps(ordered[..n - 1]);
      OpenStampsSnoc(ordered);
      if n > 1 {
        assert ordered[..n - 1][n - 2] in ordered[..n - 1];
        assert Stamped(ordered[..n - 1], ordered[n - 1].timestamp)
          <==> ordered[n - 2].timestamp == ordered[n - 1].timestamp;
      }
    }
  }

  lemma GridSteps(t: int, end: int, delta: int)
    requires delta > 0 && t <= end && (end - t) % delta == 0
    ensures FirstAtOrAfter(t, end, delta) == end
  {
    assert end - t == delta * ((end - t) / delta);
  }

  lemma SameGrid(a: int, b: int, origin: int, timeframe: Timeframe)
    requires OnGrid(a, origin, timeframe) && OnGrid(b, origin, timeframe)
    ensures OnGrid(b, a, timeframe)
    ensures a < b ==> a + Delta(timeframe) <= b
  {
    var delta := Delta(timeframe);
    var p, q := (a - origin) / delta, (b - origin) / delta;
    assert b - a == delta * q - delta * p == delta * (q - p);
    DivisionIs(b - a, delta, q - p, 0);
    if a < b < a + delta { DivisionIs(b - a, delta, 0, b - a); }
  }

  /** Walking from `first` to one past `b` passes `a`, then the gap after it, then `b`. */
  lemma WalkThroughGap(first: int, a: int, b: int, delta: int)
    requires delta > 0 && first <= a < a + delta <= b
    requires (a - first) % delta == 0 && (b - a) % delta == 0
    ensures OpenPoints(first, b + 1, delta)
         == OpenPoints(first, a + 1, delta) + OpenPoints(a + delta, b, delta) + (if IsFxMarketOpen(b) then 1 else 0)
  {
    DivisionStep(b - a, delta);
    GridSteps(first, a, delta);
    OpenPointsSplit(first, a, a + 1, delta);
    OpenPointsSplit(first, a, b + 1, delta);
    GridSteps(a + delta, b, delta);
    OpenPointsSplit(a + delta, b, b + 1, delta);
    assert OpenPoints(a + delta, a + 1, delta) == 0;
    assert OpenPoints(b + delta, b + 1, delta) == 0;
  }

  lemma WalkThroughPair(first: int, previous: Candle, current: Candle, delta: int)
    requires SameSeries(previous, current) && first <= previous.timestamp <= current.timestamp
    requires delta == Delta(previous.timeframe)
    requires OnGrid(previous.timestamp, first, previous.timeframe)
    requires OnGrid(current.timestamp, first, previous.timeframe)
    ensures OpenPoints(first, current.timestamp + 1, delta)
         == OpenPoints(first, previous.timestamp + 1, delta) + Expected(GapBetween(previous, current))
          + if IsFxMarketOpen(current.timestamp) && previous.timestamp != current.timestamp then 1 else 0
  {
    var a, b := previous.timestamp, current.timestamp;
    if a < b {
      SameGrid(a, b, first, previous.timeframe);
      WalkThroughGap(first, a, b, Delta(previous.timeframe));
      var gaps := GapBetween(previous, current);
      if gaps != [] { assert Expected(gaps[1..]) == 0; }
    }
  }

  /** An ordered series on the grid of `first`, link by link. */
  ghost predicate Chained(ordered: seq<Candle>, timeframe: Timeframe, first: int) {
    var n := |ordered|;
    if n < 2 then n == 1 && ordered[0].timestamp == first
    else
      var previous, current := ordered[n - 2], ordered[n - 1];
      && Chained(ordered[..n - 1], timeframe, first)
      && SameSeries(previous, current) && previous.timeframe == timeframe
      && first <= previous.timestamp <= current.timestamp
      && OnGrid(previous.timestamp, first, timeframe) && OnGrid(current.timestamp, first, timeframe)
  }

  lemma {:induction false} SeriesIsChained(ordered: seq<Candle>, symbol: string, timeframe: Timeframe, first: int)
    requires ordered != [] && Ordered(ordered) && ordered[0].timestamp == first
    requires OneSeries(ordered, symbol, timeframe, first)
    ensures Chained(ordered, timeframe, first)
  {
    var n := |ordered|;
    if n > 1 {
      SeriesIsChained(ordered[..n - 1], symbol, timeframe, first);
      assert ordered[n - 2] in ordered && ordered[n - 1] in ordered;
    }
  }

  lemma {:induction false} NothingLostOrdered(
    ordered: seq<Candle>, timeframe: Timeframe, first: int, last: int, delta: int)
    requires Chained(ordered, timeframe, first)
    requires last == ordered[|ordered| - 1].timestamp && delta == Delta(timeframe)
    ensures Expected(GapsOf(ordered)) + OpenSeen(ordered) == OpenPoints(first, last + 1, delta)
  {
    var n := |ordered|;
    var prefix, current := ordered[..n - 1], ordered[n - 1];
    if n == 1 {
      assert GapsOf(ordered) == [] && OpenSeen(prefix) == 0;
      assert OpenPoints(first + delta, first + 1, delta) == 0;
    } else {
      var previous := ordered[n - 2];
      NothingLostOrdered(prefix, timeframe, first, previous.timestamp, delta);
      ExpectedConcat(GapsOf(prefix), GapBetween(previous, current));
      WalkThroughPair(first, previous, current, delta);
    }
  }

  /**
   * Nothing is lost in the gap report: the candles it expects, plus the stamps it saw in
   * market hours, are every open grid point from the first stamp to the last one.
   */
  lemma NothingLost(candles: seq<Candle>, symbol: string, timeframe: Timeframe, first: Candle, last: Candle)
    requires first in candles && last in candles
    requires forall c | c in candles :: first.timestamp <= c.timestamp <= last.timestamp
    requires OneSeries(candles, symbol, timeframe, first.timestamp)
    ensures Expected(GapsOf(ByTime(candles))) + |OpenStamps(candles)|
         == OpenPoints(first.timestamp, last.timestamp + 1, Delta(timeframe))
  {
    var ordered := ByTime(candles);
    StampsSeen(candles);
    SeriesEnds(candles, symbol, timeframe, first, last);
    NothingLostOrdered(ordered, timeframe, first.timestamp, last.timestamp, Delta(timeframe));
  }

  lemma StampsSeen(candles: seq<Candle>)
    ensures OpenSeen(ByTime(candles)) == |OpenStamps(candles)|
  {
    ByTimeOrders(candles);
    OpenSeenCountsStamps(ByTime(candles));
    SameOpenStamps(ByTime(candles), candles);
  }

  lemma SeriesEnds(candles: seq<Candle>, symbol: string, timeframe: Timeframe, first: Candle, last: Candle)
    requires first in candles && last in candles
    requires forall c | c in candles :: first.timestamp <= c.timestamp <= last.timestamp
    requires OneSeries(candles, symbol, timeframe, first.timestamp)
    ensures var ordered := ByTime(candles);
      ordered != [] && Chained(ordered, timeframe, first.timestamp)
      && ordered[|ordered| - 1].timestamp == last.timestamp
  {
    ByTimeOrders(candles);
    OrderedEnds(candles, first, last);
    SeriesIsChained(ByTime(candles), symbol, timeframe, first.timestamp);
  }

  lemma SameOpenStamps(a: seq<Candle>, b: seq<Candle>)
    requires forall c :: c in a <==> c in b
    ensures OpenStamps(a) == OpenStamps(b)
  {
    forall t ensures t in OpenStamps(a) <==> t in OpenStamps(b) {
      OpenStampsAre(a, t);
      OpenStampsAre(b, t);
    }
  }

  lemma OrderedEnds(candles: seq<Candle>, first: Candle, last: Candle)
    requires first in candles && last in candles
    requires forall c | c in candles :: first.timestamp <= c.timestamp <= last.timestamp
    ensures |ByTime(candles)| == |candles|
    ensures ByTime(candles)[0].timestamp == first.timestamp
    ensures ByTime(candles)[|candles| - 1].timestamp == last.timestamp
  {
    ByTimeOrders(candles);
    var ordered := ByTime(candles);
    var i :| 0 <= i < |ordered| && ordered[i] == first;
    var j :| 0 <= j < |ordered| && ordered[j] == last;
    assert ordered[0] in candles && ordered[|ordered| - 1] in candles;
  }

  predicate Covers(gap: Gap, t: int) { gap.start <= t < gap.end }

  /** How many gaps of the report cover the instant t. */
  function Covering(gaps: seq<Gap>, t: int): nat {
    if gaps == [] then 0 else (if Covers(gaps[0], t) then 1 else 0) + Covering(gaps[1..], t)
  }

  lemma {:induction false} CoveringConcat(a: seq<Gap>, b: seq<Gap>, t: int)
    ensures Covering(a + b, t) == Covering(a, t) + Covering(b, t)
  {
    if a == [] {
      assert a + b == b;
    } else {
      assert (a + b)[1..] == a[1..] + b;
      CoveringConcat(a[1..], b, t);
    }
  }

  lemma CoveringPair(previous: Candle, current: Candle, t: int)
    requires SameSeries(previous, current)
    requires OnGrid(previous.timestamp, t, previous.timeframe)
    ensures Covering(GapBetween(previous, current), t)
         == if previous.timestamp < t < current.timestamp then 1 else 0
  {
    var gaps := GapBetween(previous, current);
    SameGrid(previous.timestamp, t, t, previous.timeframe);
    if gaps != [] { assert Covering(gaps[1..], t) == 0; }
  }

  /** A grid point up to the last stamp is missing exactly when one gap, and no more, covers it. */
  lemma {:induction false} GapsCoverTheMissing(ordered: seq<Candle>, symbol: string, timeframe: Timeframe, t: int)
    requires ordered != [] && Ordered(ordered)
    requires OneSeries(ordered, symbol, timeframe, t)
    requires ordered[0].timestamp <= t
    ensures Covering(GapsOf(ordered), t)
         == if Stamped(ordered, t) || ordered[|ordered| - 1].timestamp < t then 0 else 1
  {
    var n := |ordered|;
    var prefix, current := ordered[..n - 1], ordered[n - 1];
    assert current in ordered;
    StampedSnoc(ordered, t);
    if n == 1 {
      assert GapsOf(ordered) == [];
      assert Stamped(ordered, t) <==> current.timestamp == t;
    } else {
      var previous := ordered[n - 2];
      assert previous in ordered && previous in prefix && prefix[n - 2] == previous;
      assert forall c | c in prefix :: c in ordered && c.timestamp <= previous.timestamp;
      GapsCoverTheMissing(prefix, symbol, timeframe, t);
      assert GapsOf(ordered) == GapsOf(prefix) + GapBetween(previous, current);
      CoveringConcat(GapsOf(prefix), GapBetween(previous, current), t);
      CoveringPair(previous, current, t);
      assert Stamped(ordered, t) <==> Stamped(prefix, t) || current.timestamp == t;
    }
  }

  // --------------------------------------- the plain detector of the validator

  datatype PlainGap = PlainGap(after: int, before: int, expectedNext: int)

  function PlainGapBetween(previous: Candle, current: Candle): seq<PlainGap> {
    var expected := previous.timestamp + Delta(previous.timeframe);
    if SameSeries(previous, current) && current.timestamp > expected
    then [PlainGap(previous.timestamp, current.timestamp, expected)]
    else []
  }

  /** `MarketDataValidator.detect_gaps` (data_quality/validator.py:81-90), on the ordered candles. */
  function PlainGapsOf(ordered: seq<Candle>): seq<PlainGap> {
    if |ordered| < 2 then []
    else PlainGapsOf(ordered[..|ordered| - 1]) + PlainGapBetween(ordered[|ordered| - 2], ordered[|ordered| - 1])
  }

  lemma PlainGapsSnoc(ordered: seq<Candle>, i: nat)
    requires 0 < i < |ordered|
    ensures PlainGapsOf(ordered[..i + 1]) == PlainGapsOf(ordered[..i]) + PlainGapBetween(ordered[i - 1], ordered[i])
  {
    assert ordered[..i + 1][..i] == ordered[..i];
  }

  /** `detect_gaps`. */
  method DetectGaps(candles: seq<Candle>) returns (gaps: seq<PlainGap>)
    ensures gaps == PlainGapsOf(ByTime(candles))
  {
    gaps := [];
    var ordered := ByTime(candles);
    var i := 1;
    while i < |ordered|
      invariant 1 <= i && (i <= |ordered| || |ordered| == 0)
      invariant gaps == if |ordered| == 0 then [] else PlainGapsOf(ordered[..i])
    {
      var previous, current := ordered[i - 1], ordered[i];
      PlainGapsSnoc(ordered, i);
      i := i + 1;
      if previous.symbol != current.symbol || previous.timeframe != current.timeframe { continue; }
      var expected := previous.timestamp + Delta(previous.timeframe);
      if current.timestamp > expected {
        gaps := gaps + [PlainGap(previous.timestamp, current.timestamp, expected)];
      }
    }
    assert |ordered| > 0 ==> ordered[..i] == ordered;
  }

  function Interval(gap: Gap): (int, int) { (gap.start, gap.end) }

  function PlainInterval(gap: PlainGap): (int, int) { (gap.expectedNext, gap.before) }

  /** The two detectors report the same intervals in the same order, market closed or not. */
  lemma {:induction false} DetectorsAgree(ordered: seq<Candle>)
    ensures |GapsOf(ordered)| == |PlainGapsOf(ordered)|
    ensures forall i | 0 <= i < |GapsOf(ordered)| ::
      Interval(GapsOf(ordered)[i]) == PlainInterval(PlainGapsOf(ordered)[i])
  {
    if |ordered| >= 2 {
      DetectorsAgree(ordered[..|ordered| - 1]);
    }
  }

  predicate PlainCovers(gap: PlainGap, t: int) { gap.expectedNext <= t < gap.before }

  function PlainCovering(gaps: seq<PlainGap>, t: int): nat {
    if gaps == [] then 0 else (if PlainCovers(gaps[0], t) then 1 else 0) + PlainCovering(gaps[1..], t)
  }

  lemma {:induction false} SameIntervalsCoverAlike(gaps: seq<Gap>, plain: seq<PlainGap>, t: int)
    requires |gaps| == |plain| && forall i | 0 <= i < |gaps| :: Interval(gaps[i]) == PlainInterval(plain[i])
    ensures Covering(gaps, t) == PlainCovering(plain, t)
  {
    if gaps != [] {
      assert Interval(gaps[0]) == PlainInterval(plain[0]);
      SameIntervalsCoverAlike(gaps[1..], plain[1..], t);
    }
  }

  /** What the plain detector reports of a series covers each missing grid point once, and no stamped one. */
  lemma PlainGapsCoverTheMissing(ordered: seq<Candle>, symbol: string, timeframe: Timeframe, t: int)
    requires ordered != [] && Ordered(ordered)
    requires OneSeries(ordered, symbol, timeframe, t)
    requires ordered[0].timestamp <= t
    ensures PlainCovering(PlainGapsOf(ordered), t)
         == if Stamped(ordered, t) || ordered[|ordered| - 1].timestamp < t then 0 else 1
  {
    DetectorsAgree(ordered);
    SameIntervalsCoverAlike(GapsOf(ordered), PlainGapsOf(ordered), t);
    GapsCoverTheMissing(ordered, symbol, timeframe, t);
  }
}
