/** Readings of a monotonic clock, in seconds. */
module Clock {

  /** `Unusable` is a clock that raises, or answers with something other than a finite number. */
  datatype Reading = Seconds(at: real) | Unusable
}
