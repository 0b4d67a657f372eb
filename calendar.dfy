/** Instants and calendar days as the scopes and the controller use them.

    An instant is a whole number of seconds counted from midnight of day 0 in
    the application's time zone, so day `d` runs from `BeginningOfDay(d)` up to,
    but not including, `BeginningOfDay(d + 1)`. Rails' `end_of_day` is the last
    representable instant of a day (23:59:59.999999999); no whole-second instant
    lies between it and the next midnight, so for a whole-second instant `t`
    both `t <= end_of_day` and `t < end_of_day` hold exactly when `t` is before
    the next day's beginning. */
module Calendar {

  const SecondsPerHour: int := 3600
  const SecondsPerDay: int := 86400

  /** `t.to_date`: the index of the day that contains instant `t`. */
  function DayOf(t: int): int {
    t / SecondsPerDay
  }

  /** `day.beginning_of_day`: the midnight that opens day `d`. */
  function BeginningOfDay(d: int): int {
    d * SecondsPerDay
  }

  /** `t <= day.end_of_day`, equivalently `t < day.end_of_day`, for a whole-second `t`. */
  predicate NotAfterEndOfDay(t: int, d: int) {
    t < BeginningOfDay(d + 1)
  }

  /** `n.days.from_now` seen from `now`. */
  function DaysFrom(now: int, n: int): int {
    now + n * SecondsPerDay
  }

  /** `n.hours.from_now` seen from `now`. */
  function HoursFrom(now: int, n: int): int {
    now + n * SecondsPerHour
  }

  /** An instant lies in the day `DayOf` names, and in no other. */
  lemma DayOfCharacterized(t: int, d: int)
    ensures DayOf(t) == d <==> BeginningOfDay(d) <= t && NotAfterEndOfDay(t, d)
  {
  }

  /** Moving `n` whole days moves the day index by `n`. */
  lemma DayOfDaysFrom(now: int, n: int)
    ensures DayOf(DaysFrom(now, n)) == DayOf(now) + n
  {
  }

  /** `(now + n.days).end_of_day` bounds exactly the instants before the
      midnight that follows day `DayOf(now) + n`. */
  lemma EndOfDayAfterDays(now: int, n: int, t: int)
    ensures NotAfterEndOfDay(t, DayOf(DaysFrom(now, n))) <==> t < BeginningOfDay(DayOf(now) + n + 1)
  {
  }
}
