/**
 * The FX week and the gap report (data_quality/market_data.py): the market closes on
 * Friday at 22:00 UTC and opens again on Sunday at 22:00 UTC.
 */
module FxCalendar {
  import opened Prelude
  import opened Timeframes

  predicate IsFxMarketOpen(t: int) {
    var weekday := WeekdayOf(t);
    if weekday < 4 then true
    else if weekday == 4 then HourOf(t) < 22
    else if weekday == 5 then false
    else HourOf(t) >= 22
  }

  // ------------------------------------------- the walk over every grid point

  /** How many of the points t, t + delta, t + 2 * delta, ... before `end` fall in market hours. */
  function OpenPoints(t: int, end: int, delta: int): nat
    requires delta > 0
    decreases end - t
  {
    if t >= end then 0
    else (if IsFxMarketOpen(t) then 1 else 0) + OpenPoints(t + delta, end, delta)
  }

  /** The first point of the grid of `start` that is neither before `start` nor before `bound`. */
  function FirstAtOrAfter(start: int, bound: int, delta: int): int
    requires delta > 0
  {
    if bound <= start then start
    else start + delta * ((bound - start) / delta + (if (bound - start) % delta != 0 then 1 else 0))
  }

  lemma FirstAtOrAfterStep(start: int, bound: int, delta: int)
    requires delta > 0 && start < bound
    ensures FirstAtOrAfter(start, bound, delta) == FirstAtOrAfter(start + delta, bound, delta)
    ensures bound <= FirstAtOrAfter(start, bound, delta) < bound + delta
  {
    var d := bound - start;
    var q, r := d / delta, d % delta;
    assert d == delta * q + r && 0 <= r < delta;
    if d > delta {
      DivisionStep(d, delta);
    } else {
      if d == delta { DivisionIs(d, delta, 1, 0); } else { DivisionIs(d, delta, 0, d); }
    }
    assert delta * (q + 1) == delta * q + delta;
  }

  /** Cutting the walk at `bound` counts every point once, on one side or the other. */
  lemma {:induction false} OpenPointsSplit(start: int, bound: int, end: int, delta: int)
    requires delta > 0 && bound <= end
    ensures OpenPoints(start, end, delta)
         == OpenPoints(start, bound, delta) + OpenPoints(FirstAtOrAfter(start, bound, delta), end, delta)
    decreases bound - start
  {
    if start < bound {
      FirstAtOrAfterStep(start, bound, delta);
      OpenPointsSplit(start + delta, bound, end, delta);
    }
  }

  lemma {:induction false} OpenPointsAllClosed(t: int, end: int, delta: int)
    requires delta > 0
    requires forall u | t <= u < end :: !IsFxMarketOpen(u)
    ensures OpenPoints(t, end, delta) == 0
    decreases end - t
  {
    if t < end { OpenPointsAllClosed(t + delta, end, delta); }
  }

  lemma {:induction false} OpenPointsAllOpen(t: int, end: int, delta: int)
    requires delta > 0
    requires forall u | t <= u < end :: IsFxMarketOpen(u)
    ensures OpenPoints(t, end, delta) == if t < end then (end - t - 1) / delta + 1 else 0
    decreases end - t
  {
    if t < end {
      OpenPointsAllOpen(t + delta, end, delta);
      DivisionStep(end - t - 1, delta);
      if end <= t + delta { DivisionIs(end - t - 1, delta, 0, end - t - 1); }
    }
  }

  // ----------------------------------------------------- the day-by-day count

  /** The market hours of the UTC day that starts at `day`; empty on Saturday. */
  function OpenWindow(day: int): (int, int) {
    var weekday := WeekdayOf(day);
    if weekday < 4 then (day, day + DAY)
    else if weekday == 4 then (day, day + 22 * HOUR)
    else if weekday == 6 then (day + 22 * HOUR, day + DAY)
    else (day, day)
  }

  lemma NextMidnight(day: int)
    requires day % DAY == 0
    ensures (day + DAY) % DAY == 0
  {
  }

  lemma FieldsWithinDay(day: int, t: int)
    requires day % DAY == 0 && day <= t < day + DAY
    ensures WeekdayOf(t) == WeekdayOf(day) && t % DAY == t - day
  {
    var k := day / DAY;
    assert t == DAY * k + (t - day);
  }

  lemma OpenWindowIsMarketHours(day: int, t: int)
    requires day % DAY == 0 && day <= t < day + DAY
    ensures IsFxMarketOpen(t) <==> OpenWindow(day).0 <= t < OpenWindow(day).1
  {
    FieldsWithinDay(day, t);
  }

  /** One day of the walk is the arithmetic progression that meets that day's market hours. */
  lemma OpenPointsOfDay(start: int, end: int, delta: int, day: int)
    requires delta > 0 && day % DAY == 0 && day < end && start < day + DAY
    ensures OpenPoints(start, MinInt(end, day + DAY), delta)
         == OpenPoints(start, MinInt(end, day), delta)
          + var lower, upper := MaxInt(start, OpenWindow(day).0), MinInt(end, OpenWindow(day).1);
            var first := FirstAtOrAfter(start, lower, delta);
            if lower < upper && first < upper then (upper - first - 1) / delta + 1 else 0
  {
    var (openStart, openEnd) := OpenWindow(day);
    var stop := MinInt(end, day + DAY);
    var lower, upper := MaxInt(start, openStart), MinInt(end, openEnd);
    var mid := MinInt(stop, MaxInt(openStart, start));
    forall t | day <= t < day + DAY ensures IsFxMarketOpen(t) <==> openStart <= t < openEnd {
      OpenWindowIsMarketHours(day, t);
    }
    var atDay := FirstAtOrAfter(start, day, delta);
    if start < day { FirstAtOrAfterStep(start, day, delta); }
    OpenPointsSplit(start, day, stop, delta);
    if lower < upper {
      // closed up to `lower`, open up to `upper`, closed again
      var first := FirstAtOrAfter(start, lower, delta);
      var later := FirstAtOrAfter(start, upper, delta);
      OpenPointsSplit(start, lower, upper, delta);
      OpenPointsSplit(start, upper, stop, delta);
      OpenPointsSplit(start, day, lower, delta);
      FirstIsAtOrAfter(start, lower, delta);
      FirstIsAtOrAfter(start, upper, delta);
      FirstIsAtOrAfter(start, day, delta);
      OpenPointsAllClosed(atDay, lower, delta);
      OpenPointsAllOpen(first, upper, delta);
      OpenPointsAllClosed(later, stop, delta);
    } else {
      FirstIsAtOrAfter(start, day, delta);
      OpenPointsAllClosed(atDay, stop, delta);
    }
  }

  lemma FirstIsAtOrAfter(start: int, bound: int, delta: int)
    requires delta > 0
    ensures bound <= FirstAtOrAfter(start, bound, delta) && start <= FirstAtOrAfter(start, bound, delta)
  {
    if start < bound { FirstAtOrAfterStep(start, bound, delta); }
  }

  /** A whole Saturday adds nothing. */
  lemma SaturdayIsClosed(start: int, end: int, delta: int, day: int)
    requires delta > 0 && day % DAY == 0 && day < end && start < day + DAY && WeekdayOf(day) == 5
    ensures OpenPoints(start, MinInt(end, day + DAY), delta) == OpenPoints(start, MinInt(end, day), delta)
  {
    OpenPointsOfDay(start, end, delta, day);
  }

  /** `_count_open_intervals`: one step per UTC day, not one per candle. */
  method CountOpenIntervals(start: int, end: int, delta: int) returns (total: nat)
    requires delta > 0
    ensures total == OpenPoints(start, end, delta)
  {
    total := 0;
    var day := MidnightOf(start);
    while day < end
      invariant day % DAY == 0 && start < day + DAY
      invariant total == OpenPoints(start, MinInt(end, day), delta)
      decreases end - day
    {
      var weekday := WeekdayOf(day);
      var openStart, openEnd;
      if weekday < 4 {
        openStart, openEnd := day, day + DAY;
      } else if weekday == 4 {
        openStart, openEnd := day, day + 22 * HOUR;
      } else if weekday == 6 {
        openStart, openEnd := day + 22 * HOUR, day + DAY;
      } else {
        SaturdayIsClosed(start, end, delta, day);
        NextMidnight(day);
        day := day + DAY;
        continue;
      }
      NextMidnight(day);
      OpenPointsOfDay(start, end, delta, day);
      var lower, upper := MaxInt(start, openStart), MinInt(end, openEnd);
      if lower < upper {
        var first := FirstAtOrAfter(start, lower, delta);
        if first < upper {
          total := total + (upper - first - 1) / delta + 1;
        }
      }
      day := day + DAY;
    }
  }
}
