/** Go's `time.Time` and `time.Duration` as integers. An instant is a count of
    nanoseconds since the Unix epoch; a duration is a count of nanoseconds. */
module GoTime {

  type Instant = int
  type Duration = int

  const Nanosecond: Duration := 1
  const Second: Duration := 1_000_000_000
  const Minute: Duration := 60 * Second
  const Hour: Duration := 60 * Minute
  const Day: Duration := 24 * Hour

  /** The zero `time.Time`: midnight UTC, January 1 of year 1. */
  const ZeroTime: Instant := -62_135_596_800 * Second

  /** `time.Until(t)` at the instant `now`. */
  function Until(now: Instant, t: Instant): Duration { t - now }

  /** `now.Sub(t)`, also `time.Since(t)` at `now`. */
  function Since(now: Instant, t: Instant): Duration { now - t }
}
