/** The next checkpoint hour (observation/time_exit.py:83-91). */
module TimeExit {
  import opened Prelude
  import opened Timeframes

  /** A whole hour whose hour of the day is divisible by the step. */
  predicate IsCheckpoint(t: int, step: int)
    requires step > 0
  {
    t % HOUR == 0 && HourOf(t) % step == 0
  }

  lemma WholeHour(n: int)
    ensures HourOf(HOUR * n) == n % 24 && HOUR * n % HOUR == 0
  {
    DivisionIs(HOUR * n, DAY, n / 24, HOUR * (n % 24));
    DivisionIs(HOUR * (n % 24), HOUR, n % 24, 0);
    DivisionIs(HOUR * n, HOUR, n, 0);
  }

  lemma StepAbove(h: int, step: int)
    requires step > 0
    ensures (h - h % step + step) % step == 0
  {
    assert h - h % step + step == step * (h / step + 1);
    DivisionIs(h - h % step + step, step, h / step + 1, 0);
  }

  /** The hour of the day of the n-th hour is not divisible by the step. */
  predicate Misses(n: int, step: int)
    requires step > 0
  {
    n % 24 % step != 0
  }

  /** k hours after the hour f is no later than the next multiple of the step, and no later than midnight. */
  predicate InReach(f: int, k: int, step: int)
    requires step > 0
  {
    1 <= k <= step - f % 24 % step && k <= 24 - f % 24
  }

  lemma ReachIsShort(f: int, k: int, step: int)
    requires step > 0 && (k == 1 || InReach(f, k, step))
    ensures InReach(f, k, step) && 1 <= k <= MinInt(step, 24)
  {
  }

  /** After h, the hours run into a multiple of the step, or into midnight, whichever comes first. */
  lemma HoursLeft(f: int, k: int, step: int)
    requires step > 0 && InReach(f, k, step) && Misses(f + k, step)
    ensures InReach(f, k + 1, step)
  {
    var h := f % 24;
    StepAbove(h, step);
    if k == 24 - h {
      DivisionIs(f + k, 24, f / 24 + 1, 0);
    } else {
      DivisionIs(f + k, 24, f / 24, h + k);
    }
  }

  lemma NoCheckpointBetween(moment: int, f: int, k: int, step: int)
    requires step > 0 && f == moment / HOUR
    requires forall n | f < n < f + k :: Misses(n, step)
    ensures forall t | moment < t < HOUR * (f + k) :: !IsCheckpoint(t, step)
  {
    forall t | moment < t < HOUR * (f + k) && t % HOUR == 0 ensures !IsCheckpoint(t, step) {
      var n := t / HOUR;
      assert t == HOUR * n;
      WholeHour(n);
      assert Misses(n, step);
    }
  }

  /**
   * `next_checkpoint`: the least checkpoint strictly after the moment. It is found within 24
   * increments and is at most min(step, 24) hours away, whether or not the step divides 24.
   */
  method NextCheckpoint(moment: int, checkpointHours: int) returns (anchor: int, ghost increments: nat)
    ensures var step := MaxInt(1, checkpointHours);
      moment < anchor && IsCheckpoint(anchor, step) && forall t | moment < t < anchor :: !IsCheckpoint(t, step)
    ensures anchor - moment <= MinInt(MaxInt(1, checkpointHours), 24) * HOUR
    ensures increments <= 24
  {
    var step := MaxInt(1, checkpointHours);
    ghost var f := moment / HOUR;
    anchor := moment - moment % HOUR;
    increments := 0;
    assert anchor == HOUR * f;
    if anchor <= moment {
      anchor := anchor + HOUR;
      increments := 1;
    }
    WholeHour(f + increments);
    ReachIsShort(f, increments, step);
    while HourOf(anchor) % step != 0
      invariant InReach(f, increments, step) && increments <= MinInt(step, 24)
      invariant anchor == HOUR * (f + increments) && HourOf(anchor) == (f + increments) % 24
      invariant forall n | f < n < f + increments :: Misses(n, step)
      decreases 24 - increments
    {
      HoursLeft(f, increments, step);
      ReachIsShort(f, increments + 1, step);
      anchor := anchor + HOUR;
      increments := increments + 1;
      WholeHour(f + increments);
    }
    WholeHour(f + increments);
    NoCheckpointBetween(moment, f, increments, step);
  }
}
