/** Calendar dates and instants as Python's `datetime` understands them: the
    proleptic Gregorian calendar, years 1 to 9999, instants counted in seconds. */
module Dates {

  /** An instant, in seconds since the start of 0001-01-01 minus one day
      (so that midnight of a date is its ordinal times a day). */
  type Instant = int

  const SecondsPerDay: int := 86400
  const MinYear: int := 1
  const MaxYear: int := 9999

  datatype Date = Date(year: int, month: int, day: int)

  predicate IsLeapYear(y: int)
  {
    y % 4 == 0 && (y % 100 != 0 || y % 400 == 0)
  }

  function DaysInMonth(y: int, m: int): (n: int)
    requires 1 <= m <= 12
    ensures 28 <= n <= 31
    ensures n == 29 <==> (m == 2 && IsLeapYear(y))
  {
    if m == 2 then (if IsLeapYear(y) then 29 else 28)
    else if m == 4 || m == 6 || m == 9 || m == 11 then 30
    else 31
  }

  /** `datetime(y, m, d)` accepts exactly these triples; any other raises `ValueError`. */
  predicate IsValidDate(d: Date)
  {
    MinYear <= d.year <= MaxYear && 1 <= d.month <= 12 && 1 <= d.day <= DaysInMonth(d.year, d.month)
  }

  function DaysInYear(y: int): int
  {
    if IsLeapYear(y) then 366 else 365
  }

  /** Days in the years before `y` (Python's `_days_before_year`, summed year by year). */
  function DaysBeforeYear(y: int): (n: int)
    requires y >= 1
    ensures n >= 0
  {
    if y == 1 then 0 else DaysBeforeYear(y - 1) + DaysInYear(y - 1)
  }

  /** Days in the months of year `y` before month `m`. */
  function DaysBeforeMonth(y: int, m: int): (n: int)
    requires 1 <= m <= 12
    ensures n >= 0
    decreases m
  {
    if m == 1 then 0 else DaysBeforeMonth(y, m - 1) + DaysInMonth(y, m - 1)
  }

  /** Python's `date.toordinal()`: 0001-01-01 is day 1. */
  function DayNumber(d: Date): int
    requires IsValidDate(d)
  {
    DaysBeforeYear(d.year) + DaysBeforeMonth(d.year, d.month) + d.day
  }

  /** `datetime(y, m, d)` as an instant: midnight of that day. */
  function Midnight(d: Date): Instant
    requires IsValidDate(d)
  {
    DayNumber(d) * SecondsPerDay
  }

  /** Calendar order on dates (year, then month, then day). */
  predicate Before(a: Date, b: Date)
  {
    a.year < b.year || (a.year == b.year && (a.month < b.month || (a.month == b.month && a.day < b.day)))
  }

  /** `timedelta(days=n)` as a span of seconds. */
  function Days(n: int): int
  {
    n * SecondsPerDay
  }

  /** `(later - earlier).days`: whole days, rounded towards minus infinity as
      Python's `timedelta` normalisation does. */
  function WholeDays(later: Instant, earlier: Instant): (n: int)
    ensures Days(n) <= later - earlier < Days(n + 1)
  {
    (later - earlier) / SecondsPerDay
  }

  lemma {:induction false} DaysBeforeMonthBound(y: int, m: int)
    requires 1 <= m <= 12
    ensures DaysBeforeMonth(y, m) + DaysInMonth(y, m) <= DaysInYear(y)
    decreases 12 - m
  {
    if m < 12 {
      DaysBeforeMonthBound(y, m + 1);
    }
  }

  lemma {:induction false} DaysBeforeMonthMonotone(y: int, m1: int, m2: int)
    requires 1 <= m1 < m2 <= 12
    ensures DaysBeforeMonth(y, m1) + DaysInMonth(y, m1) <= DaysBeforeMonth(y, m2)
    decreases m2
  {
    if m1 < m2 - 1 {
      DaysBeforeMonthMonotone(y, m1, m2 - 1);
    }
  }

  lemma {:induction false} DaysBeforeYearMonotone(y1: int, y2: int)
    requires 1 <= y1 < y2
    ensures DaysBeforeYear(y1) + DaysInYear(y1) <= DaysBeforeYear(y2)
    decreases y2
  {
    if y1 < y2 - 1 {
      DaysBeforeYearMonotone(y1, y2 - 1);
    }
  }

  /** The ordinal respects calendar order: an earlier date has a smaller number. */
  lemma DayNumberMonotone(a: Date, b: Date)
    requires IsValidDate(a) && IsValidDate(b) && Before(a, b)
    ensures DayNumber(a) < DayNumber(b)
  {
    if a.year < b.year {
      DaysBeforeMonthBound(a.year, a.month);
      DaysBeforeYearMonotone(a.year, b.year);
    } else if a.month < b.month {
      DaysBeforeMonthMonotone(a.year, a.month, b.month);
    }
  }

  /** Two valid dates denote the same instant exactly when they are the same date. */
  lemma MidnightInjective(a: Date, b: Date)
    requires IsValidDate(a) && IsValidDate(b)
    ensures Midnight(a) == Midnight(b) <==> a == b
  {
    if a != b {
      if Before(a, b) {
        DayNumberMonotone(a, b);
      } else {
        DayNumberMonotone(b, a);
      }
    }
  }

  /** Calendar order and instant order agree. */
  lemma MidnightOrder(a: Date, b: Date)
    requires IsValidDate(a) && IsValidDate(b)
    ensures Midnight(a) < Midnight(b) <==> Before(a, b)
  {
    if Before(a, b) {
      DayNumberMonotone(a, b);
    } else if a != b {
      DayNumberMonotone(b, a);
    }
  }
}
