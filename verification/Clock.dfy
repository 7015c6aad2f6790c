/** Time, in milliseconds since the start of a run. */
module Clock {
  type Time = nat

  const SECOND: Time := 1000
}
