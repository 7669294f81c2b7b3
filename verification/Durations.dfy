/** Lengths of time in seconds. */
module Durations {
  const HOUR := 3600
  const DAY := 86400
  const YEAR := 31536000.0
}
