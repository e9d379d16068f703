/** The part of .NET's `DateTime` the client relies on: instants as whole
    seconds since 0001-01-01T00:00:00 (day 0, a Monday), the calendar date of
    an instant, adding days, the day of the week (Sunday = 0 … Saturday = 6)
    and the proleptic Gregorian year and month, computed as `DateTime` does
    (400-, 100-, 4- and 1-year cycles). */
module Dates {

  /** A `DateTime` or `DateTimeOffset`, in seconds since 0001-01-01T00:00:00. */
  type Instant = int

  const SecondsPerDay := 86400

  /** `DayOfWeek.Sunday` and `DayOfWeek.Monday`. */
  const Sunday := 0
  const Monday := 1

  /** The number of the calendar day an instant falls on. */
  function DayNumber(t: Instant): int
  {
    t / SecondsPerDay
  }

  /** `t.Date`: midnight at the start of the day of `t`. */
  function DateOnly(t: Instant): (r: Instant)
    ensures DayNumber(r) == DayNumber(t)
    ensures r <= t < r + SecondsPerDay
  {
    DayNumber(t) * SecondsPerDay
  }

  /** `t.AddDays(n)`. */
  function AddDays(t: Instant, n: int): Instant
  {
    t + n * SecondsPerDay
  }

  /** `(int)t.DayOfWeek`: day 0 is a Monday, so Sunday is 0 and Monday is 1. */
  function DayOfWeek(t: Instant): (d: int)
    ensures 0 <= d < 7
  {
    (DayNumber(t) + 1) % 7
  }

  const DaysPer400Years := 146097
  const DaysPer100Years := 36524
  const DaysPer4Years := 1461
  const DaysPerYear := 365

  predicate IsLeapYear(year: int)
  {
    year % 4 == 0 && (year % 100 != 0 || year % 400 == 0)
  }

  /** The number of days in months 1..m of a year (`DaysToMonth365/366[m]`). */
  function DaysToMonth(leap: bool, m: int): int
    requires 0 <= m <= 12
  {
    var common := [0, 31, 59, 90, 120, 151, 181, 212, 243, 273, 304, 334, 365];
    common[m] + (if leap && m >= 2 then 1 else 0)
  }

  /** The month that day `n` (0-based) of a year falls in, searching from month `m`. */
  function MonthFrom(n: int, leap: bool, m: int): (r: int)
    requires 1 <= m <= 12
    decreases 12 - m
    ensures m <= r <= 12
  {
    if m == 12 || n < DaysToMonth(leap, m) then m else MonthFrom(n, leap, m + 1)
  }

  datatype CivilDate = CivilDate(year: int, month: int, day: int)

  /** The calendar date of a day number, as `DateTime.GetDatePart` computes it. */
  function ToCivil(dayNumber: int): (c: CivilDate)
    ensures 1 <= c.month <= 12
  {
    var y400 := dayNumber / DaysPer400Years;
    var n1 := dayNumber % DaysPer400Years;
    var q100 := n1 / DaysPer100Years;
    var y100 := if q100 == 4 then 3 else q100;
    var n2 := n1 - y100 * DaysPer100Years;
    var y4 := n2 / DaysPer4Years;
    var n3 := n2 % DaysPer4Years;
    var q1 := n3 / DaysPerYear;
    var y1 := if q1 == 4 then 3 else q1;
    var n4 := n3 - y1 * DaysPerYear;
    var leap := y1 == 3 && (y4 != 24 || y100 == 3);
    var m := MonthFrom(n4, leap, 1);
    CivilDate(400 * y400 + 100 * y100 + 4 * y4 + y1 + 1, m, n4 - DaysToMonth(leap, m - 1) + 1)
  }

  /** `t.Year`. */
  function Year(t: Instant): int
  {
    ToCivil(DayNumber(t)).year
  }

  /** `t.Month`, always in 1..12. */
  function Month(t: Instant): (m: int)
    ensures 1 <= m <= 12
  {
    ToCivil(DayNumber(t)).month
  }

  /** `new DateTime(year, month, day)`, as `DateTime.DateToTicks` computes it. */
  function FromCivil(year: int, month: int, day: int): Instant
    requires 1 <= month <= 12
  {
    var y := year - 1;
    var n := y * DaysPerYear + y / 4 - y / 100 + y / 400
             + DaysToMonth(IsLeapYear(year), month - 1) + day - 1;
    n * SecondsPerDay
  }

}
