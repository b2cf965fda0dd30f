/** Timestamps of the scheduler: naive local date-times counted in whole
    seconds from an epoch at midnight, so that the calendar day of a
    timestamp is its floor quotient by the length of a day. */
module Clock {

  const Minute: int := 60
  const Hour: int := 60 * Minute
  const SecondsPerDay: int := 24 * Hour

  /** The calendar day of a timestamp (`datetime.date()`). */
  function DayOf(t: int): (d: int)
    ensures d * SecondsPerDay <= t < (d + 1) * SecondsPerDay
  {
    t / SecondsPerDay
  }

  /** `datetime.combine(day, time)`: the timestamp of a time of day on a day. */
  function Combine(day: int, timeOfDay: int): (t: int)
    requires 0 <= timeOfDay < SecondsPerDay
    ensures DayOf(t) == day
    ensures t % SecondsPerDay == timeOfDay
  {
    day * SecondsPerDay + timeOfDay
  }

  /** Splitting a timestamp into day and time of day and combining them again gives it back. */
  lemma CombineSplit(t: int)
    ensures Combine(DayOf(t), t % SecondsPerDay) == t
  {
  }

  /** A later timestamp never falls on an earlier day. */
  lemma DayOfMonotone(a: int, b: int)
    requires a <= b
    ensures DayOf(a) <= DayOf(b)
  {
  }
}
