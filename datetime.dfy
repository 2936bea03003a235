/** Month lengths and the leap-year rule of datetime.go. This rule
  * adds the 3200/172800-year refinement to the Gregorian rule, so it differs
  * from Utils.IsLeap (and the legacy ctime rule) on years like 3200. */
module DateTime {
  import Utils
  import Julian
  import GoMath

  /** Days of each month of a common year, January first. */
  const MonthDaysTable: seq<int> := [31, 28, 31, 30, 31, 30, 31, 31, 30, 31, 30, 31]

  /** Gregorian leap years with the extra rule that years divisible by 3200
    * are common unless they are divisible by 172800. (Go's truncating `%`
    * and Dafny's agree on whether the remainder is 0.) */
  function IsLeapYear(year: int): (leap: bool)
    ensures leap <==> Utils.IsLeap(year) && (year % 3200 != 0 || year % 172800 == 0)
  {
    year % 4 == 0 && (year % 100 != 0 || year % 400 == 0) && (year % 3200 != 0 || year % 172800 == 0)
  }

  /** The two leap rules disagree exactly on the years divisible by 3200 but
    * not by 172800, where this rule sees a common year. */
  lemma LeapRulesDiffer(year: int)
    ensures IsLeapYear(year) != Utils.IsLeap(year) <==> year % 3200 == 0 && year % 172800 != 0
    ensures year % 3200 == 0 && year % 172800 != 0 ==> !IsLeapYear(year) && Utils.IsLeap(year)
  {
  }

  lemma IsLeapYearTestVectors()
    ensures !IsLeapYear(1900) && IsLeapYear(1940) && IsLeapYear(2000) && !IsLeapYear(2100)
    ensures !IsLeapYear(3200) && Utils.IsLeap(3200) && IsLeapYear(172800)
  {
  }

  /** The number of days of month `month` of `year`. A month outside 1..12
    * would index the source's table out of range. */
  function GregorianMonthDays(year: int, month: int): (days: int)
    requires 1 <= month <= 12
    ensures 28 <= days <= 31
    ensures days == 29 <==> month == 2 && IsLeapYear(year)
    ensures month != 2 ==> days == MonthDaysTable[month - 1]
  {
    if month == 2 && IsLeapYear(year) then 29 else MonthDaysTable[month - 1]
  }

  /** The days of the months before month m (1..13) of a year. */
  function DaysBeforeMonth(year: int, m: int): int
    requires 1 <= m <= 13
    decreases m
  {
    if m == 1 then 0 else DaysBeforeMonth(year, m - 1) + GregorianMonthDays(year, m - 1)
  }

  /** A year has 366 days exactly when it is a leap year, 365 otherwise. */
  lemma YearLength(year: int)
    ensures DaysBeforeMonth(year, 13) == (if IsLeapYear(year) then 366 else 365)
  {
    assert DaysBeforeMonth(year, 3) == 59 + (if IsLeapYear(year) then 1 else 0);
    assert DaysBeforeMonth(year, 7) == DaysBeforeMonth(year, 3) + 122;
    assert DaysBeforeMonth(year, 10) == DaysBeforeMonth(year, 7) + 92;
  }

  /** The month table agrees with the Julian Day formula of julian.go on
    * Gregorian dates, the first of a month being the month's length after the
    * first of the month before; February only does so under the plain rule. */
  lemma MonthLengthMatchesJulianDay(year: int, month: int)
    requires year > 1582 && 1 <= month <= 12
    ensures var next := if month == 12 then Julian.JulianDay(year + 1, 1, 1, [])
                        else Julian.JulianDay(year, month + 1, 1, []);
            next - Julian.JulianDay(year, month, 1, [])
            == (if month == 2 && Utils.IsLeap(year) then 29 else MonthDaysTable[month - 1]) as real
  {
    if month == 2 {
      FebruaryLength(year);
    } else if month == 12 {
      DecemberLength(year);
    } else {
      WithinYearLength(year, month);
    }
  }

  lemma WithinYearLength(year: int, month: int)
    requires year > 1582 && 1 <= month <= 11 && month != 2
    ensures Julian.JulianDay(year, month + 1, 1, []) - Julian.JulianDay(year, month, 1, [])
            == MonthDaysTable[month - 1] as real
  {
    var y := year + 4800 - (if month <= 2 then 1 else 0);
    FirstOfMonth(year, month);
    FirstOfMonth(year, month + 1);
    var start := ShiftedYearStart(y);
    var first, next := ShiftedMonthStart[month - 1], ShiftedMonthStart[month];
    assert Julian.JulianDay(year, month, 1, []) == (first + start) as real + 0.5;
    assert Julian.JulianDay(year, month + 1, 1, []) == (next + start) as real + 0.5;
    MonthStartStep(month);
  }

  /** Consecutive entries of ShiftedMonthStart differ by the month's length. */
  lemma MonthStartStep(month: int)
    requires 1 <= month <= 11 && month != 2
    ensures ShiftedMonthStart[month] - ShiftedMonthStart[month - 1] == MonthDaysTable[month - 1]
  {
    if month == 1 {
    } else if month <= 6 {
      assert month in {3, 4, 5, 6};
    } else {
      assert month in {7, 8, 9, 10, 11};
    }
  }

  lemma FebruaryLength(year: int)
    requires year > 1582
    ensures Julian.JulianDay(year, 3, 1, []) - Julian.JulianDay(year, 2, 1, [])
            == if Utils.IsLeap(year) then 29.0 else 28.0
  {
    FirstOfMonth(year, 2);
    FirstOfMonth(year, 3);
    YearStartStep(year);
  }

  lemma DecemberLength(year: int)
    requires year > 1582
    ensures Julian.JulianDay(year + 1, 1, 1, []) - Julian.JulianDay(year, 12, 1, []) == 31.0
  {
    FirstOfMonth(year, 12);
    FirstOfMonth(year + 1, 1);
    assert year + 1 + 4800 - 1 == year + 4800;
  }

  /** From 1 March of the year before to 1 March are 366 days exactly in a leap year. */
  lemma YearStartStep(year: int)
    ensures ShiftedYearStart(year + 4800) - ShiftedYearStart(year + 4799)
            == if Utils.IsLeap(year) then 366 else 365
  {
    var y := year + 4800;
    assert (y % 4 == 0) == (year % 4 == 0);
    assert (y % 100 == 0) == (year % 100 == 0);
    assert (y % 400 == 0) == (year % 400 == 0);
    LeapDayCount(y);
  }

  /** Days from 1 March to the first of each month, January and February
    * counted in the year that began the March before. */
  const ShiftedMonthStart: seq<int> := [306, 337, 0, 31, 61, 92, 122, 153, 184, 214, 245, 275]

  /** The Gregorian day count of 1 March of shifted year y, less 32045. */
  function ShiftedYearStart(y: int): int
  {
    365 * y + y / 4 - y / 100 + y / 400 - 32045
  }

  /** The Julian Day of the first of a Gregorian month, as a sum of integer terms. */
  lemma FirstOfMonth(year: int, month: int)
    requires year > 1582 && 1 <= month <= 12
    ensures var y := year + 4800 - (if month <= 2 then 1 else 0);
            Julian.JulianDay(year, month, 1, [])
            == (ShiftedMonthStart[month - 1] + ShiftedYearStart(y)) as real + 0.5
  {
    var y := year + 4800 - (if month <= 2 then 1 else 0);
    assert GoMath.FloorDiv(14 - month, 12) == (if month <= 2 then 1 else 0);
    assert Julian.ShiftedYear(year, month) == y;
    var m := Julian.ShiftedMonth(month);
    assert GoMath.FloorDiv(153 * m + 2, 5) == ShiftedMonthStart[month - 1];
    assert Julian.DayWithTime(1, []) == 1.0;
  }

  /** How the Gregorian leap-day terms step from shifted year y - 1 to y. */
  lemma LeapDayCount(y: int)
    ensures y / 4 - (y - 1) / 4 == (if y % 4 == 0 then 1 else 0)
    ensures y / 100 - (y - 1) / 100 == (if y % 100 == 0 then 1 else 0)
    ensures y / 400 - (y - 1) / 400 == (if y % 400 == 0 then 1 else 0)
  {
  }
}
