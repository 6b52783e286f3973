/** Instants are integers: microseconds since 1970-01-01T00:00:00 UTC, a Thursday. */
module Timeframes {

  const SECOND: int := 1_000_000
  const MINUTE: int := 60 * SECOND
  const HOUR: int := 60 * MINUTE
  const DAY: int := 24 * HOUR

  datatype Timeframe = M1 | M5 | M15 | M30 | H1 | H4 | D1

  /** The grid step of a timeframe. */
  function Delta(timeframe: Timeframe): int {
    match timeframe
    case M1 => MINUTE
    case M5 => 5 * MINUTE
    case M15 => 15 * MINUTE
    case M30 => 30 * MINUTE
    case H1 => HOUR
    case H4 => 4 * HOUR
    case D1 => DAY
  }

  // The calendar fields of an instant, as `datetime` exposes them in UTC.

  function MidnightOf(t: int): int { t - t % DAY }

  function HourOf(t: int): int { t % DAY / HOUR }

  function MinuteOf(t: int): int { t % HOUR / MINUTE }

  /** Monday is 0 and Sunday is 6. */
  function WeekdayOf(t: int): int { (t / DAY + 3) % 7 }
}
