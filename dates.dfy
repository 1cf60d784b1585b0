/** The part of JavaScript's `Date` that the calendar relies on, as integer
    arithmetic on the proleptic Gregorian calendar: local dates only, months
    numbered 0 to 11 as in `getMonth`, weekdays 0 (Sunday) to 6 as in
    `getDay`. */
module GregorianDates {

  /** A local calendar date. */
  datatype CalDate = CalDate(year: int, month: int, day: int)

  predicate IsLeap(y: int)
  {
    y % 4 == 0 && (y % 100 != 0 || y % 400 == 0)
  }

  /** Number of days of month `m` (0 to 11) of year `y`. */
  function DaysInMonth(y: int, m: int): (n: int)
    requires 0 <= m < 12
    ensures 28 <= n <= 31
    ensures n == 29 <==> m == 1 && IsLeap(y)
    ensures n == 28 <==> m == 1 && !IsLeap(y)
    ensures n == 30 <==> m in {3, 5, 8, 10}
  {
    if m == 1 then (if IsLeap(y) then 29 else 28)
    else if m == 3 || m == 5 || m == 8 || m == 10 then 30
    else 31
  }

  /** A date that names an existing day. */
  predicate ValidDate(d: CalDate)
  {
    0 <= d.month < 12 && 1 <= d.day <= DaysInMonth(d.year, d.month)
  }

  function DaysInYear(y: int): int
  {
    if IsLeap(y) then 366 else 365
  }

  /** The number of days from 1 January of year 1 to 1 January of year `y`
      (negative before year 1). Dafny's `/` rounds down for a positive
      divisor, which is what the count of leap years needs. */
  function DaysBeforeYear(y: int): int
  {
    365 * (y - 1) + (y - 1) / 4 - (y - 1) / 100 + (y - 1) / 400
  }

  /** Days in the months of year `y` before month `m`; from March on a leap
      year has one more. */
  function DaysBeforeMonth(y: int, m: int): int
    requires 0 <= m <= 12
  {
    [0, 31, 59, 90, 120, 151, 181, 212, 243, 273, 304, 334, 365][m] + (if m >= 2 && IsLeap(y) then 1 else 0)
  }

  /** Each month starts where the previous one ends. */
  lemma MonthStep(y: int, m: int)
    requires 0 <= m < 12
    ensures DaysBeforeMonth(y, m + 1) == DaysBeforeMonth(y, m) + DaysInMonth(y, m)
  {
  }

  /** Day number: consecutive dates have consecutive numbers; 1 January of
      year 1 is day 0. */
  function DayNumber(d: CalDate): int
    requires 0 <= d.month < 12
  {
    DaysBeforeYear(d.year) + DaysBeforeMonth(d.year, d.month) + d.day - 1
  }

  /** `getDay()`: 0 is Sunday. 1 January of year 1 was a Monday. */
  function DayOfWeek(d: CalDate): (w: int)
    requires 0 <= d.month < 12
    ensures 0 <= w < 7
  {
    (DayNumber(d) + 1) % 7
  }

  /** The first day of the Unix epoch, 1 January 1970, was a Thursday. */
  lemma EpochIsThursday()
    ensures DayOfWeek(CalDate(1970, 0, 1)) == 4
  {
  }

  lemma FloorStep4(a: int)
    ensures a / 4 - (a - 1) / 4 == (if a % 4 == 0 then 1 else 0)
  {
  }

  lemma FloorStep100(a: int)
    ensures a / 100 - (a - 1) / 100 == (if a % 100 == 0 then 1 else 0)
  {
  }

  lemma FloorStep400(a: int)
    ensures a / 400 - (a - 1) / 400 == (if a % 400 == 0 then 1 else 0)
  {
  }

  /** A year is 365 days long, 366 in a leap year. */
  lemma YearLength(y: int)
    ensures DaysBeforeYear(y + 1) == DaysBeforeYear(y) + DaysInYear(y)
  {
    FloorStep4(y);
    FloorStep100(y);
    FloorStep400(y);
  }

  /** The twelve months of a year add up to the year. */
  lemma MonthsFillYear(y: int)
    ensures DaysBeforeMonth(y, 12) == DaysInYear(y)
  {
  }

  /** The first of the month after month `m` of year `y`. */
  function FirstOfNextMonth(y: int, m: int): CalDate
    requires 0 <= m < 12
  {
    if m == 11 then CalDate(y + 1, 0, 1) else CalDate(y, m + 1, 1)
  }

  /** The first of the next month comes exactly `DaysInMonth` days after
      the first of this month, so its weekday is shifted by that many. */
  lemma NextMonthStart(y: int, m: int)
    requires 0 <= m < 12
    ensures DayNumber(FirstOfNextMonth(y, m)) == DayNumber(CalDate(y, m, 1)) + DaysInMonth(y, m)
    ensures DayOfWeek(FirstOfNextMonth(y, m)) == (DayOfWeek(CalDate(y, m, 1)) + DaysInMonth(y, m)) % 7
  {
    MonthStep(y, m);
    if m == 11 {
      YearLength(y);
      MonthsFillYear(y);
    }
    var a, n := DayNumber(CalDate(y, m, 1)), DaysInMonth(y, m);
    assert DayNumber(FirstOfNextMonth(y, m)) == a + n;
    ShiftWeekday(a + 1, n);
  }

  lemma ShiftWeekday(a: int, n: int)
    ensures (a + n) % 7 == (a % 7 + n) % 7
  {
  }

  // ---------------------------------------------------------------------
  // The `Date` constructor
  // ---------------------------------------------------------------------

  /** The year `new Date(y, ...)` uses: a year from 0 to 99 is read as
      1900 + y. */
  function DateYear(y: int): (r: int)
    ensures 0 <= y <= 99 ==> r == 1900 + y
    ensures (y < 0 || y > 99) ==> r == y
  {
    if 0 <= y <= 99 then 1900 + y else y
  }

  /** `new Date(y, m)` and `new Date(y, m, 1)`: the first of month `m`,
      where a month outside 0 to 11 carries into the year. */
  function MakeMonth(y: int, m: int): (d: CalDate)
    ensures ValidDate(d) && d.day == 1
    ensures 12 * d.year + d.month == 12 * DateYear(y) + m
  {
    CalDate(DateYear(y) + m / 12, m % 12, 1)
  }

  /** For a month from 0 to 11, `new Date(y, m)` stays in that month. */
  lemma MakeMonthInYear(y: int, m: int)
    requires 0 <= m < 12
    ensures MakeMonth(y, m) == CalDate(DateYear(y), m, 1)
  {
  }

  /** Day `d` of a month falls `d - 1` weekdays after its first. */
  lemma WeekdayInMonth(y: int, m: int, d: int)
    requires 0 <= m < 12
    ensures DayOfWeek(CalDate(y, m, d)) == (DayOfWeek(CalDate(y, m, 1)) + d - 1) % 7
  {
    var first := DayNumber(CalDate(y, m, 1));
    assert DayNumber(CalDate(y, m, d)) == first + d - 1;
    ShiftWeekday(first + 1, d - 1);
  }

  /** `new Date(y, m, d)` for a day `d` that exists in month `m`. */
  function MakeDate(y: int, m: int, d: int): (r: CalDate)
    requires 0 <= m < 12 && 1 <= d <= DaysInMonth(DateYear(y), m)
    ensures ValidDate(r) && r == CalDate(DateYear(y), m, d)
  {
    CalDate(DateYear(y) + m / 12, m % 12, d)
  }

  /** `new Date(y, m + 1, 0)`: day 0 of the next month, which is the last
      day of month `m`. */
  function LastOfMonth(y: int, m: int): (d: CalDate)
    requires 0 <= m < 12
    ensures d == CalDate(DateYear(y), m, DaysInMonth(DateYear(y), m))
  {
    DayBefore(MakeMonth(y, m + 1))
  }

  /** The day before the first of a month. */
  function DayBefore(first: CalDate): CalDate
    requires ValidDate(first) && first.day == 1
  {
    if first.month == 0 then CalDate(first.year - 1, 11, 31)
    else CalDate(first.year, first.month - 1, DaysInMonth(first.year, first.month - 1))
  }
}
