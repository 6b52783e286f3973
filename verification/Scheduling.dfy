/** Which candle a tick belongs to, and the identity of its cycle (observation/driver.py:57-73). */
module Scheduling {
  import opened Prelude
  import opened Timeframes

  /** Whole seconds since the epoch, dropping the fraction: `int()` rounds toward zero. */
  function WholeSeconds(t: int): int { if t >= 0 then t / SECOND else -(-t / SECOND) }

  function StepOf(intervalSeconds: int): int { MaxInt(intervalSeconds, 1) }

  function CandleTimestamp(now: int, intervalSeconds: int): int {
    var elapsed := WholeSeconds(now);
    SECOND * (elapsed - elapsed % StepOf(intervalSeconds))
  }

  /** The number of the interval that contains the instant. */
  function Bucket(t: int, intervalSeconds: int): int { t / (SECOND * StepOf(intervalSeconds)) }

  /** The instant where the interval of t begins. */
  function BucketStart(t: int, intervalSeconds: int): int {
    SECOND * StepOf(intervalSeconds) * Bucket(t, intervalSeconds)
  }

  lemma FloorBySeconds(t: int, step: int)
    requires step > 0
    ensures SECOND * (t / SECOND - t / SECOND % step) == SECOND * step * (t / (SECOND * step))
  {
    var s, f := t / SECOND, t % SECOND;
    var q, r := s / step, s % step;
    assert t == SECOND * (step * q + r) + f;
    assert SECOND * (step * q + r) == SECOND * step * q + SECOND * r;
    DivisionIs(t, SECOND * step, q, SECOND * r + f);
    assert SECOND * (step * q) == SECOND * step * q;
  }

  lemma SecondsBelow(now: int)
    requires now < 0
    ensures WholeSeconds(now) == now / SECOND + if now % SECOND == 0 then 0 else 1
  {
    var q, r := now / SECOND, now % SECOND;
    if r == 0 { DivisionIs(-now, SECOND, -q, 0); } else { DivisionIs(-now, SECOND, -q - 1, SECOND - r); }
  }

  lemma PreviousSameBucket(e: int, step: int)
    requires step > 0 && e % step != 0
    ensures e - 1 - (e - 1) % step == e - e % step
  {
    DivisionIs(e - 1, step, e / step, e % step - 1);
  }

  /** The instants that the truncation of the fraction sends to the wrong interval are not among these. */
  predicate FloorsWell(now: int, intervalSeconds: int) {
    now >= 0 || now % SECOND == 0 || (now / SECOND + 1) % StepOf(intervalSeconds) != 0
  }

  /**
   * The candle is the start of the interval that contains the tick, except for an instant before
   * 1970 in the last fraction of a second of an interval, whose candle is the next one.
   */
  lemma CandleIsFloorIff(now: int, intervalSeconds: int)
    ensures CandleTimestamp(now, intervalSeconds) == BucketStart(now, intervalSeconds)
      <==> FloorsWell(now, intervalSeconds)
    ensures !FloorsWell(now, intervalSeconds) ==> CandleTimestamp(now, intervalSeconds) > now
  {
    var step := StepOf(intervalSeconds);
    FloorBySeconds(now, step);
    if now < 0 {
      SecondsBelow(now);
      var e := WholeSeconds(now);
      if now % SECOND != 0 {
        if e % step != 0 { PreviousSameBucket(e, step); } else { BucketStartsBefore(now, step); }
      }
    }
  }

  lemma BucketStartsBefore(t: int, step: int)
    requires step > 0
    ensures SECOND * step * (t / (SECOND * step)) <= t
  {
  }

  lemma CandleContainsTick(now: int, intervalSeconds: int)
    requires FloorsWell(now, intervalSeconds)
    ensures CandleTimestamp(now, intervalSeconds) <= now
    ensures now < CandleTimestamp(now, intervalSeconds) + SECOND * StepOf(intervalSeconds)
    ensures CandleTimestamp(now, intervalSeconds) % (SECOND * StepOf(intervalSeconds)) == 0
  {
    CandleIsFloorIff(now, intervalSeconds);
    var size := SECOND * StepOf(intervalSeconds);
    DivisionIs(size * (now / size), size, now / size, 0);
  }

  /** The last microsecond of 1969 is given the candle of 1970. */
  lemma TickBefore1970()
    ensures !FloorsWell(-1, 60) && CandleTimestamp(-1, 60) == 0 && BucketStart(-1, 60) == -60 * SECOND
  {
    CandleIsFloorIff(-1, 60);
    DivisionIs(-1, 60 * SECOND, -1, 60 * SECOND - 1);
    SecondsBelow(-1);
    DivisionIs(-1, SECOND, -1, SECOND - 1);
  }

  // ------------------------------------------------------------ cycle identity

  function UpperChar(c: char): char { if 'a' <= c <= 'z' then (c as int - 32) as char else c }

  function Upper(s: string): string { seq(|s|, i requires 0 <= i < |s| => UpperChar(s[i])) }

  /** What the digest is taken of: the joined names, and the candle. */
  datatype CycleId = CycleId(names: string, candle: int)

  function CycleIdOf(symbol: string, timeframe: string, candle: int): CycleId {
    CycleId(Upper(symbol) + "|" + Upper(timeframe), candle)
  }

  lemma LastBar(a: string, b: string, c: string, d: string)
    requires '|' !in b && '|' !in d && a + "|" + b == c + "|" + d
    ensures a == c && b == d
  {
    var s, t := a + "|" + b, c + "|" + d;
    assert s[|a|] == '|' && t[|c|] == '|';
    assert |a| == |c|;
    assert a == s[..|a|] && c == t[..|c|];
    assert b == s[|a| + 1..] && d == t[|c| + 1..];
  }

  lemma UpperKeepsBars(s: string)
    requires '|' !in s
    ensures '|' !in Upper(s)
  {
    forall i | 0 <= i < |s| ensures Upper(s)[i] != '|' {
      assert s[i] in s;
    }
  }

  predicate SameNames(symbol: string, timeframe: string, symbol': string, timeframe': string) {
    Upper(symbol) == Upper(symbol') && Upper(timeframe) == Upper(timeframe')
  }

  /** Names that join to the same text are the same, if no timeframe holds a separator or both are as long. */
  lemma JoinedNames(symbol: string, timeframe: string, symbol': string, timeframe': string)
    requires ('|' !in timeframe && '|' !in timeframe') || |timeframe| == |timeframe'|
    ensures Upper(symbol) + "|" + Upper(timeframe) == Upper(symbol') + "|" + Upper(timeframe')
      <==> SameNames(symbol, timeframe, symbol', timeframe')
  {
    var a, b, c, d := Upper(symbol), Upper(timeframe), Upper(symbol'), Upper(timeframe');
    if a + "|" + b == c + "|" + d {
      if |timeframe| == |timeframe'| {
        SameLengthParts(a + "|", b, c + "|", d);
        assert a == (a + "|")[..|a|] && c == (c + "|")[..|c|];
      } else {
        UpperKeepsBars(timeframe);
        UpperKeepsBars(timeframe');
        LastBar(a, b, c, d);
      }
    }
  }

  lemma SameLengthParts(a: string, b: string, c: string, d: string)
    requires a + b == c + d && |b| == |d|
    ensures a == c && b == d
  {
    assert a == (a + b)[..|a|] && c == (c + d)[..|c|];
    assert b == (a + b)[|a|..] && d == (c + d)[|c|..];
  }

  /** The number of the interval whose start becomes the candle of a tick. */
  function CandleNumber(now: int, intervalSeconds: int): int {
    Bucket(now, intervalSeconds) + if FloorsWell(now, intervalSeconds) then 0 else 1
  }

  lemma CandleOfNumber(now: int, intervalSeconds: int)
    ensures CandleTimestamp(now, intervalSeconds)
         == SECOND * StepOf(intervalSeconds) * CandleNumber(now, intervalSeconds)
  {
    CandleIsFloorIff(now, intervalSeconds);
    if !FloorsWell(now, intervalSeconds) {
      var e, step := WholeSeconds(now), StepOf(intervalSeconds);
      SecondsBelow(now);
      FloorBySeconds(now, step);
      OneStepOn(e, step);
      assert SECOND * step * (Bucket(now, intervalSeconds) + 1)
         == SECOND * step * Bucket(now, intervalSeconds) + SECOND * step;
    }
  }

  lemma OneStepOn(e: int, step: int)
    requires step > 0 && e % step == 0
    ensures e - 1 - (e - 1) % step == e - step
  {
    assert e == step * (e / step);
    DivisionIs(e - 1, step, e / step - 1, step - 1);
  }

  /**
   * Two ticks share a cycle exactly when the joined names and the candle agree, whatever the letter
   * case; for a driver, whose timeframe is fixed, that is the same symbol and the same interval.
   */
  lemma SameCycleIff(
    symbol: string, timeframe: string, now: int, symbol': string, timeframe': string, now': int, intervalSeconds: int)
    ensures CycleIdOf(symbol, timeframe, CandleTimestamp(now, intervalSeconds))
         == CycleIdOf(symbol', timeframe', CandleTimestamp(now', intervalSeconds))
      <==> Upper(symbol) + "|" + Upper(timeframe) == Upper(symbol') + "|" + Upper(timeframe')
           && CandleNumber(now, intervalSeconds) == CandleNumber(now', intervalSeconds)
    ensures ('|' !in timeframe && '|' !in timeframe') || |timeframe| == |timeframe'| ==>
      (Upper(symbol) + "|" + Upper(timeframe) == Upper(symbol') + "|" + Upper(timeframe')
       <==> SameNames(symbol, timeframe, symbol', timeframe'))
  {
    CandleOfNumber(now, intervalSeconds);
    CandleOfNumber(now', intervalSeconds);
    ProductOrder(SECOND * StepOf(intervalSeconds), CandleNumber(now, intervalSeconds),
                 CandleNumber(now', intervalSeconds));
    if ('|' !in timeframe && '|' !in timeframe') || |timeframe| == |timeframe'| {
      JoinedNames(symbol, timeframe, symbol', timeframe');
    }
  }

  /** A separator in a name can hide in the join: two different pairs of names share their cycles. */
  lemma SeparatorCollides(candle: int)
    ensures CycleIdOf("A|B", "C", candle) == CycleIdOf("A", "B|C", candle) && !SameNames("A|B", "C", "A", "B|C")
  {
    assert Upper("A|B") + "|" + Upper("C") == "A|B|C" == Upper("A") + "|" + Upper("B|C");
    assert |Upper("A|B")| == 3 && |Upper("A")| == 1;
  }
}
