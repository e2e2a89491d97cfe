/**
  The proleptic Gregorian calendar, as JavaScript's Date uses it: a civil date
  (year, month, day) and its day number counted from 1970-01-01.
  Days before a year are given in closed form and checked against a plain
  year-by-year sum.
*/
module Calendar {

  /** Days from 0000-01-01 to 1970-01-01. */
  const UnixEpochDays: int := 719528

  datatype CivilDate = CivilDate(year: int, month: int, day: int)

  predicate IsLeapYear(y: int) {
    y % 4 == 0 && (y % 100 != 0 || y % 400 == 0)
  }

  /** A year's length is the sum of its twelve months. */
  function DaysInYear(y: int): (n: int)
    ensures n == DaysInMonth(y, 1) + DaysInMonth(y, 2) + DaysInMonth(y, 3) + DaysInMonth(y, 4)
      + DaysInMonth(y, 5) + DaysInMonth(y, 6) + DaysInMonth(y, 7) + DaysInMonth(y, 8)
      + DaysInMonth(y, 9) + DaysInMonth(y, 10) + DaysInMonth(y, 11) + DaysInMonth(y, 12)
  {
    if IsLeapYear(y) then 366 else 365
  }

  function DaysInMonth(y: int, m: int): (n: int)
    requires 1 <= m <= 12
    ensures 28 <= n <= 31
    ensures m == 2 ==> (n == 29 <==> IsLeapYear(y))
  {
    if m == 2 then (if IsLeapYear(y) then 29 else 28)
    else if m == 4 || m == 6 || m == 9 || m == 11 then 30
    else 31
  }

  /** A date that exists in the calendar. */
  predicate IsValid(d: CivilDate) {
    1 <= d.month <= 12 && 1 <= d.day <= DaysInMonth(d.year, d.month)
  }

  /** Days from y-01-01 to m-01 of the same year (m == 13 gives the year's length). */
  function DaysBeforeMonth(y: int, m: int): (n: int)
    requires 1 <= m <= 13
  {
    var leap := if IsLeapYear(y) then 1 else 0;
    match m
    case 1 => 0
    case 2 => 31
    case 3 => 59 + leap
    case 4 => 90 + leap
    case 5 => 120 + leap
    case 6 => 151 + leap
    case 7 => 181 + leap
    case 8 => 212 + leap
    case 9 => 243 + leap
    case 10 => 273 + leap
    case 11 => 304 + leap
    case 12 => 334 + leap
    case _ => 365 + leap
  }

  /** Days from 0000-01-01 to y-01-01 (negative for negative y): 365 a year plus one
      for each year before y divisible by 4, less those divisible by 100, plus those
      divisible by 400. */
  function DaysBeforeYear(y: int): int {
    365 * y + (y + 3) / 4 - (y + 99) / 100 + (y + 399) / 400
  }

  /** Reference definition: the year lengths of years 0 .. y-1 added one by one. */
  function SumOfYearLengths(y: nat): int {
    if y == 0 then 0 else SumOfYearLengths(y - 1) + DaysInYear(y - 1)
  }

  /** Day number: days since 1970-01-01 (negative before it). A day past the end
      of its month is counted on into the following months, as the Date
      arithmetic MakeDay does. */
  function DayNumber(d: CivilDate): int
    requires 1 <= d.month <= 12
  {
    DaysBeforeYear(d.year) + DaysBeforeMonth(d.year, d.month) + d.day - 1 - UnixEpochDays
  }

  /** Lexicographic order on (year, month, day). */
  predicate DateLe(a: CivilDate, b: CivilDate) {
    a.year < b.year
    || (a.year == b.year && (a.month < b.month || (a.month == b.month && a.day <= b.day)))
  }

  predicate DateLt(a: CivilDate, b: CivilDate) {
    DateLe(a, b) && a != b
  }

  // ---------- lemmas ----------

  /** Each month adds its own length to the running total; the twelve together make the year. */
  lemma MonthStep(y: int, m: int)
    requires 1 <= m <= 12
    ensures DaysBeforeMonth(y, m + 1) == DaysBeforeMonth(y, m) + DaysInMonth(y, m)
    ensures DaysBeforeMonth(y, 13) == DaysInYear(y)
  {
  }

  /** Days before the months of a year never exceed the year minus the month itself. */
  lemma MonthsBeforeMonotone(y: int, m1: int, m2: int)
    requires 1 <= m1 < m2 <= 13
    ensures DaysBeforeMonth(y, m1) + DaysInMonth(y, m1) <= DaysBeforeMonth(y, m2)
  {
    MonthStep(y, m1);
  }

  /** Stepping y by one raises the count of multiples of 4 below y exactly when y is one. */
  lemma FourStep(y: int)
    ensures (y + 4) / 4 == (y + 3) / 4 + if y % 4 == 0 then 1 else 0
  {
  }

  /** The same for multiples of 100. */
  lemma HundredStep(y: int)
    ensures (y + 100) / 100 == (y + 99) / 100 + if y % 100 == 0 then 1 else 0
  {
  }

  /** The same for multiples of 400. */
  lemma FourHundredStep(y: int)
    ensures (y + 400) / 400 == (y + 399) / 400 + if y % 400 == 0 then 1 else 0
  {
  }

  /** Every multiple of 400 is a multiple of 100. */
  lemma CenturyOf400(y: int)
    requires y % 400 == 0
    ensures y % 100 == 0
  {
    var q := y / 400;
    assert y == 100 * (4 * q);
  }

  /** Every multiple of 100 is a multiple of 4. */
  lemma FourOfCentury(y: int)
    requires y % 100 == 0
    ensures y % 4 == 0
  {
    var q := y / 100;
    assert y == 4 * (25 * q);
  }

  /** The closed form grows by 366 across a leap year and by 365 across any other. */
  lemma LeapDayCount(y: int)
    ensures DaysBeforeYear(y + 1) == DaysBeforeYear(y) + if IsLeapYear(y) then 366 else 365
  {
    FourStep(y);
    HundredStep(y);
    FourHundredStep(y);
    if y % 400 == 0 {
      CenturyOf400(y);
    }
    if y % 100 == 0 {
      FourOfCentury(y);
    }
  }

  /** The closed form grows by exactly one year length per year. */
  lemma YearStep(y: int)
    ensures DaysBeforeYear(y + 1) == DaysBeforeYear(y) + DaysInYear(y)
  {
    LeapDayCount(y);
  }

  /** The closed form equals the year-by-year sum. */
  lemma {:induction false} DaysBeforeYearIsSum(y: nat)
    ensures DaysBeforeYear(y) == SumOfYearLengths(y)
  {
    if y > 0 {
      DaysBeforeYearIsSum(y - 1);
      YearStep(y - 1);
    }
  }

  lemma EpochIsDayZero()
    ensures IsValid(CivilDate(1970, 1, 1)) && DayNumber(CivilDate(1970, 1, 1)) == 0
  {
  }

  /** Every later year starts after the whole of an earlier one. */
  lemma {:induction false} YearsMonotone(y1: int, y2: int)
    requires y1 < y2
    ensures DaysBeforeYear(y1) + DaysInYear(y1) <= DaysBeforeYear(y2)
    decreases y2 - y1
  {
    YearStep(y1);
    if y1 + 1 < y2 {
      YearsMonotone(y1 + 1, y2);
      YearStep(y1 + 1);
    }
  }

  /** Day numbers are strictly increasing in calendar order. */
  lemma DayNumberStrictlyMonotone(a: CivilDate, b: CivilDate)
    requires IsValid(a) && IsValid(b) && DateLt(a, b)
    ensures DayNumber(a) < DayNumber(b)
  {
    if a.year < b.year {
      MonthsBeforeMonotone(a.year, a.month, 13);
      MonthStep(a.year, 12);
      YearsMonotone(a.year, b.year);
    } else if a.month < b.month {
      MonthsBeforeMonotone(a.year, a.month, b.month);
    }
  }

  /** Calendar order and day-number order agree, in both directions. */
  lemma DateLeIffDayNumberLe(a: CivilDate, b: CivilDate)
    requires IsValid(a) && IsValid(b)
    ensures DateLe(a, b) <==> DayNumber(a) <= DayNumber(b)
  {
    if a != b {
      if DateLe(a, b) {
        DayNumberStrictlyMonotone(a, b);
      } else {
        DayNumberStrictlyMonotone(b, a);
      }
    }
  }

  /** Two valid dates with the same day number are the same date. */
  lemma DayNumberInjective(a: CivilDate, b: CivilDate)
    requires IsValid(a) && IsValid(b) && DayNumber(a) == DayNumber(b)
    ensures a == b
  {
    DateLeIffDayNumberLe(a, b);
    DateLeIffDayNumberLe(b, a);
  }

  /** Day-number arithmetic only: a day past the month's end has the same day
      number as its counterpart in the next month, so (2024, 2, 30) counts as
      (2024, 3, 1) and (2023, 12, 32) as (2024, 1, 1). Which days reach this
      function is the date parser's business: it never passes a day above 31. */
  lemma DayNumberRollsOver(y: int, m: int, d: int)
    requires 1 <= m <= 12 && d > DaysInMonth(y, m)
    ensures m < 12 ==>
      DayNumber(CivilDate(y, m, d)) == DayNumber(CivilDate(y, m + 1, d - DaysInMonth(y, m)))
    ensures m == 12 ==>
      DayNumber(CivilDate(y, m, d)) == DayNumber(CivilDate(y + 1, 1, d - DaysInMonth(y, m)))
  {
    MonthStep(y, m);
    YearStep(y);
  }

  /** A known anchor: 2024-01-01 is day 19723 after the Unix epoch. */
  lemma DayNumberOf2024()
    ensures DayNumber(CivilDate(2024, 1, 1)) == 19723
  {
  }
}
