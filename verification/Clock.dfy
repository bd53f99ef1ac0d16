/** Lengths of time, in milliseconds. */
module Clock {

  const HOUR_MS := 3_600_000
  const DAY_MS := 24 * HOUR_MS
}
