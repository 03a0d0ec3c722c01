/** Instants and durations, counted in nanoseconds. */
module Clock {
  /** An instant. The zero time, which stands for "not set", is 0. */
  type Time = int

  type Duration = int

  const ZERO_TIME: Time := 0
  const SECOND: Duration := 1_000_000_000
  const MINUTE: Duration := 60 * SECOND
}
