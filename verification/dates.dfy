/** Calendar dates as the scraper uses them: the date part of a Python
    `datetime` produced by parsing `YYYY-MM-DD`. Only comparison and the
    two year-boundary dates (1 January, 31 December) are needed, so no
    general day arithmetic is defined here. */
module Dates {

  /** Python's `datetime.MINYEAR` and `datetime.MAXYEAR`. */
  const MinYear: int := 1
  const MaxYear: int := 9999

  datatype Date = Date(year: int, month: int, day: int)

  /** An inclusive pair of dates, as produced by the year splitter. */
  datatype DateRange = DateRange(lo: Date, hi: Date)

  predicate IsLeapYear(y: int) {
    (y % 4 == 0 && y % 100 != 0) || y % 400 == 0
  }

  /** Number of days in a month of the proleptic Gregorian calendar. */
  function DaysInMonth(y: int, m: int): (n: int)
    requires 1 <= m <= 12
    ensures 28 <= n <= 31
    ensures m == 12 ==> n == 31
  {
    if m == 2 then (if IsLeapYear(y) then 29 else 28)
    else if m == 4 || m == 6 || m == 9 || m == 11 then 30
    else 31
  }

  /** A date that a Python `datetime` can represent. */
  predicate Valid(d: Date) {
    && MinYear <= d.year <= MaxYear
    && 1 <= d.month <= 12
    && 1 <= d.day <= DaysInMonth(d.year, d.month)
  }

  /** Strict chronological order: lexicographic on (year, month, day). */
  predicate Before(a: Date, b: Date) {
    || a.year < b.year
    || (a.year == b.year && a.month < b.month)
    || (a.year == b.year && a.month == b.month && a.day < b.day)
  }

  predicate NotAfter(a: Date, b: Date) {
    a == b || Before(a, b)
  }

  function Jan1(y: int): Date { Date(y, 1, 1) }

  function Dec31(y: int): Date { Date(y, 12, 31) }

  /** Python's `min(a, b)`: the first argument unless the second is smaller. */
  function MinDate(a: Date, b: Date): (m: Date)
    ensures m == a || m == b
    ensures NotAfter(m, a) && NotAfter(m, b)
  {
    if Before(b, a) then b else a
  }

  /** A valid date lies between 1 January and 31 December of its own year. */
  lemma WithinItsYear(d: Date)
    requires Valid(d)
    ensures NotAfter(Jan1(d.year), d) && NotAfter(d, Dec31(d.year))
  {
  }

  lemma NotAfterTransitive(a: Date, b: Date, c: Date)
    requires NotAfter(a, b) && NotAfter(b, c)
    ensures NotAfter(a, c)
  {
  }

  /** The order is total: of two dates, one is not after the other. */
  lemma Total(a: Date, b: Date)
    ensures NotAfter(a, b) || Before(b, a)
    ensures !(NotAfter(a, b) && Before(b, a))
  {
  }

  /** A date's year bounds where it can fall in the order. */
  lemma YearMonotone(a: Date, b: Date)
    requires NotAfter(a, b)
    ensures a.year <= b.year
  {
  }
}
