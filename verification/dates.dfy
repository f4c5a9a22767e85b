/**
 * Calendar dates without time of day.
 *
 * A date is a year, a zero-based month (0 = January, as in JavaScript's
 * `getMonth()`) and a day of the month.  Dates are totally ordered by
 * `Ordinal`, which sorts by month index and then by day.  `AddMonths` keeps
 * the day of the month; `AddDays` walks the real calendar day by day.
 */
module Dates {

  type Month = m: int | 0 <= m < 12
  type Day = d: int | 1 <= d <= 31 witness 1

  datatype Date = Date(year: int, month: Month, day: Day)

  /** Months since January of year 0: the position of the date's month on a single line. */
  function MonthIndex(d: Date): int {
    12 * d.year + d.month
  }

  /** A number that orders dates: earlier dates have smaller ordinals. */
  function Ordinal(d: Date): int {
    32 * MonthIndex(d) + d.day
  }

  predicate Before(a: Date, b: Date) {
    Ordinal(a) < Ordinal(b)
  }

  predicate NotAfter(a: Date, b: Date) {
    Ordinal(a) <= Ordinal(b)
  }

  /** The date whose month index is `index`, on day `day`. */
  function FromMonthIndex(index: int, day: Day): (d: Date)
    ensures MonthIndex(d) == index && d.day == day
  {
    Date(index / 12, index % 12, day)
  }

  /** The first day of the month of `d`. */
  function FirstOfMonth(d: Date): (r: Date)
    ensures MonthIndex(r) == MonthIndex(d) && r.day == 1
    ensures NotAfter(r, d)
  {
    d.(day := 1)
  }

  /** `n` calendar months after `d` (a negative `n` goes back), on the same day of the month. */
  function AddMonths(d: Date, n: int): (r: Date)
    ensures MonthIndex(r) == MonthIndex(d) + n && r.day == d.day
  {
    FromMonthIndex(MonthIndex(d) + n, d.day)
  }

  predicate IsLeapYear(y: int) {
    y % 4 == 0 && (y % 100 != 0 || y % 400 == 0)
  }

  function DaysInMonth(y: int, m: Month): (n: int)
    ensures 28 <= n <= 31
  {
    if m == 1 then (if IsLeapYear(y) then 29 else 28)
    else if m == 3 || m == 5 || m == 8 || m == 10 then 30
    else 31
  }

  /** The following calendar day. */
  function NextDay(d: Date): (r: Date)
    ensures Before(d, r)
  {
    if d.day < DaysInMonth(d.year, d.month) then d.(day := d.day + 1)
    else FromMonthIndex(MonthIndex(d) + 1, 1)
  }

  /** `n` calendar days after `d`. */
  function AddDays(d: Date, n: nat): (r: Date)
    ensures n == 0 ==> r == d
    ensures n > 0 ==> Before(d, r)
    decreases n
  {
    if n == 0 then d else AddDays(NextDay(d), n - 1)
  }

  lemma OrdinalInjective(a: Date, b: Date)
    requires Ordinal(a) == Ordinal(b)
    ensures a == b
  {
    assert MonthIndex(a) == MonthIndex(b) && a.day == b.day;
    assert a.year == b.year;
  }

  /** Dates compare by month first: a date of an earlier month is earlier. */
  lemma MonthOrder(a: Date, b: Date)
    ensures MonthIndex(a) < MonthIndex(b) ==> Before(a, b)
    ensures NotAfter(a, b) ==> MonthIndex(a) <= MonthIndex(b)
  {
  }
}
