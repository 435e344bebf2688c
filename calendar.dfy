/**
 * Proleptic Gregorian calendar facts, and the JavaScript `Date` constructor
 * `new Date(year, month, day)` restricted to the arguments the picker gives it
 * (a month index 0..11 and a day 1..31).
 */
module Calendar {

  /** A calendar date as the picker stores it: full year, 0-based month, 1-based day. */
  datatype Date = Date(year: int, month: int, day: int)

  /** Divisible by 4, and not by 100 unless also by 400. */
  predicate IsLeapYear(y: int) {
    y % 4 == 0 && (y % 100 != 0 || y % 400 == 0)
  }

  /** Number of days of year `year` that come before the first of month `m` (m == 12: the whole year). */
  function DaysBeforeMonth(m: int, year: int): (n: int)
    requires 0 <= m <= 12
    ensures m == 0 ==> n == 0
    ensures m == 12 ==> n == (if IsLeapYear(year) then 366 else 365)
  {
    [0, 31, 59, 90, 120, 151, 181, 212, 243, 273, 304, 334, 365][m]
      + (if m >= 2 && IsLeapYear(year) then 1 else 0)
  }

  /**
   * Length of month `month` of year `year`: the day before the first of the
   * next month, which is how the source obtains it (day 0 of month + 1).
   */
  function DaysInMonth(month: int, year: int): (n: int)
    requires 0 <= month < 12
    ensures 28 <= n <= 31
    ensures n == 31 <==> month in {0, 2, 4, 6, 7, 9, 11}
    ensures n == 30 <==> month in {3, 5, 8, 10}
    ensures month == 1 ==> (n == 29 <==> IsLeapYear(year))
  {
    DaysBeforeMonth(month + 1, year) - DaysBeforeMonth(month, year)
  }

  /** A calendar-valid date: month index 0..11 and day within that month. */
  predicate ValidDate(d: Date) {
    0 <= d.month < 12 && 1 <= d.day <= DaysInMonth(d.month, d.year)
  }

  /** Day of the year, 1-based, of a valid date. */
  function DayOfYear(d: Date): (n: int)
    requires ValidDate(d)
    ensures 1 <= n <= DaysBeforeMonth(12, d.year)
  {
    DaysBeforeMonth(d.month, d.year) + d.day
  }

  /** The year `new Date(y, ...)` actually uses: an argument in 0..99 is read as 1900 + y. */
  function FullYear(y: int): (r: int)
    ensures !(0 <= r <= 99)
    ensures !(0 <= y <= 99) ==> r == y
  {
    if 0 <= y <= 99 then 1900 + y else y
  }

  /**
   * `new Date(year, month, day)` for a month index 0..11 and a day 1..31.
   * A day beyond the month's length rolls over into the next month.
   */
  function MakeDate(year: int, month: int, day: int): (r: Date)
    requires 0 <= month < 12 && 1 <= day <= 31
    ensures ValidDate(r)
    ensures r.year == FullYear(year)
    ensures DayOfYear(r) == DaysBeforeMonth(month, FullYear(year)) + day
    ensures day <= DaysInMonth(month, FullYear(year)) <==> r.month == month
  {
    var y := FullYear(year);
    var n := DaysInMonth(month, y);
    if day <= n then Date(y, month, day)
    else Date(y, month + 1, day - n)
  }

  /**
   * `getDaysInMonth(month, year)`: the day before the first of month + 1 in
   * the year `new Date` reads, so a year argument in 0..99 gives the length of
   * that month in 1900 + year.
   */
  function GetDaysInMonth(month: int, year: int): (n: int)
    requires 0 <= month < 12
    ensures n == DaysBeforeMonth(month + 1, FullYear(year)) - DaysBeforeMonth(month, FullYear(year))
    ensures !(0 <= year <= 99) ==> n == DaysInMonth(month, year)
    ensures 0 <= year <= 99 ==> n == DaysInMonth(month, 1900 + year)
  {
    DaysInMonth(month, FullYear(year))
  }
}
