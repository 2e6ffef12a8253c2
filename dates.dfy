/** Calendar dates as integer triples and the instant "now" as a date plus a
    time of day, standing in for Python's naive `datetime` values. */
module Dates {

  datatype Date = Date(year: int, month: int, day: int)

  /** A naive local timestamp: a date and the microseconds elapsed since its
      midnight (`datetime.today()` has microsecond resolution). */
  datatype Moment = Moment(date: Date, micros: int)

  const MicrosPerDay: int := 86_400_000_000

  /** The end date a workspace gets when its configuration has none. */
  const DefaultEndDate: Date := Date(1900, 1, 1)

  predicate IsLeapYear(y: int) {
    y % 4 == 0 && (y % 100 != 0 || y % 400 == 0)
  }

  function DaysInMonth(y: int, m: int): int
    requires 1 <= m <= 12
  {
    if m == 2 then (if IsLeapYear(y) then 29 else 28)
    else if m == 4 || m == 6 || m == 9 || m == 11 then 30
    else 31
  }

  /** The dates `datetime.strptime(s, "%Y-%m-%d")` can produce. */
  predicate ValidDate(d: Date) {
    1 <= d.year <= 9999 && 1 <= d.month <= 12 && 1 <= d.day <= DaysInMonth(d.year, d.month)
  }

  predicate ValidMoment(t: Moment) {
    ValidDate(t.date) && 0 <= t.micros < MicrosPerDay
  }

  /** Chronological order of dates. */
  predicate DateLess(a: Date, b: Date) {
    a.year < b.year
    || (a.year == b.year && a.month < b.month)
    || (a.year == b.year && a.month == b.month && a.day < b.day)
  }

  /** Chronological order of timestamps, as Python compares `datetime`s. */
  predicate MomentLess(a: Moment, b: Moment) {
    DateLess(a.date, b.date) || (a.date == b.date && a.micros < b.micros)
  }

  /** What `strptime` yields for a date: that day at 00:00:00. */
  function Midnight(d: Date): Moment {
    Moment(d, 0)
  }

  /** `datetime.today() > end_date`: the instant is strictly after the start of the end date. */
  predicate PastEndDate(now: Moment, end: Date) {
    MomentLess(Midnight(end), now)
  }

  /** Expiry in calendar terms: on the end date itself an entry is already
      past it at any moment after midnight; on the day before it never is. */
  lemma PastEndDateIff(now: Moment, end: Date)
    requires ValidMoment(now)
    ensures PastEndDate(now, end) <==> DateLess(end, now.date) || (now.date == end && now.micros > 0)
    ensures DateLess(now.date, end) ==> !PastEndDate(now, end)
    ensures now == Midnight(end) ==> !PastEndDate(now, end)
  {
  }

  /** The default end date is in the past for every present-day instant. */
  lemma DefaultEndDatePast(now: Moment)
    requires ValidMoment(now) && now.date.year > 1900
    ensures PastEndDate(now, DefaultEndDate)
  {
  }
}
