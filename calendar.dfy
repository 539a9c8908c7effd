/** The wall clock the estimator reads, and the bound below which a departure
    date is rejected. */
module Calendar {
  import opened Trip

  /** The clock as the estimator reads it: the instant now, the instant at
      which the current month began (midnight of its first day), the day of the
      month (getDate, 1 to 31) and the day of the week (getDay, 0 for Sunday to
      6 for Saturday). All instants are milliseconds. */
  datatype Clock = Clock(now: int, monthStart: int, dayOfMonth: int, weekday: int)

  /** now lies on day dayOfMonth of the month that began at monthStart. */
  predicate Consistent(c: Clock)
  {
    1 <= c.dayOfMonth <= 31 && 0 <= c.weekday <= 6
    && c.monthStart + (c.dayOfMonth - 1) * Day <= c.now < c.monthStart + c.dayOfMonth * Day
  }

  /** `new Date(year, month, d, 0, 0, 0)` for the current year and month:
      midnight of day d, where day 0 is the last day of the previous month. */
  function Midnight(c: Clock, d: int): (r: int)
  {
    c.monthStart + (d - 1) * Day
  }

  /** The bound as written: the day number passed to the Date constructor is
      getDay(), the day of the week. */
  function CutoffAsWritten(c: Clock): (r: int)
    ensures Consistent(c) ==> c.monthStart - Day <= r <= c.monthStart + 5 * Day
  {
    Midnight(c, c.weekday)
  }

  /** The intended bound: midnight at the start of the current day. */
  function StartOfToday(c: Clock): (r: int)
    ensures Consistent(c) ==> r <= c.now < r + Day
  {
    Midnight(c, c.dayOfMonth)
  }

  /** As written, whenever the day of the week exceeds the day of the month
      (a Saturday the 2nd, say) the bound lies after now, so departures between
      now and that bound are rejected; the intended bound never lies after now. */
  lemma AsWrittenRejectsUpcomingDepartures(c: Clock)
    requires Consistent(c) && c.weekday > c.dayOfMonth
    ensures c.now < CutoffAsWritten(c)
    ensures StartOfToday(c) <= c.now
  {
  }

  /** As written, whenever the day of the month exceeds the day of the week
      (a Monday the 20th, say) departures from yesterday, which lie in the past,
      are still accepted. */
  lemma AsWrittenAcceptsPastDepartures(c: Clock)
    requires Consistent(c) && c.weekday < c.dayOfMonth
    ensures CutoffAsWritten(c) <= StartOfToday(c) - Day
  {
  }
}
