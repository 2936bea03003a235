/** Julian Day conversions of julian.go: civil date and time to Julian Day
  * (Julian calendar up to 1582-10-04, Gregorian from 1582-10-15), the inverse
  * after Meeus, Astronomical Algorithms chapter 7, the Modified Julian Day and
  * the J2000 epoch helpers. Decimal rounding is the identity here, so every
  * value is the one the source computes before rounding. */
module Julian {
  import opened GoMath

  // The calendar reform: the Julian calendar was last used on 1582-10-04 and
  // the Gregorian calendar first used on 1582-10-15.
  const JulianAbandonmentYear := 1582
  const JulianAbandonmentMonth := 10
  const JulianAbandonmentDay := 4
  const GregorianAdoptionYear := 1582
  const GregorianAdoptionMonth := 10
  const GregorianAdoptionDay := 15

  /** Julian Day of 1582-10-15 at noon, where the inverse switches calendars. */
  const JulianGregorianBoundary: real := 2299161.0
  /** Julian Day of the J2000.0 epoch. */
  const JulianDayJ2000: real := 2451545.0
  /** Days in a Julian year. */
  const DaysOfAYear: real := 365.25

  /** The optional time parts hour, minute, second and millisecond, by
    * position; a missing part is 0 and parts after the fourth are ignored. */
  function TimePart(parts: seq<real>, i: nat): real
  {
    if i < |parts| then parts[i] else 0.0
  }

  /** The date lies on or before the last day of the Julian calendar. */
  predicate IsJulianDate(year: int, month: int, day: int)
  {
    year < JulianAbandonmentYear
    || (year == JulianAbandonmentYear && month < JulianAbandonmentMonth)
    || (year == JulianAbandonmentYear && month == JulianAbandonmentMonth && day <= JulianAbandonmentDay)
  }

  /** The date lies on or after the first day of the Gregorian calendar. */
  predicate IsGregorianDate(year: int, month: int, day: int)
  {
    year > GregorianAdoptionYear
    || (year == GregorianAdoptionYear && month > GregorianAdoptionMonth)
    || (year == GregorianAdoptionYear && month == GregorianAdoptionMonth && day >= GregorianAdoptionDay)
  }

  /** The ten days 1582-10-05 .. 1582-10-14 that neither calendar contains. */
  predicate InReformGap(year: int, month: int, day: int)
  {
    !IsJulianDate(year, month, day) && !IsGregorianDate(year, month, day)
  }

  /** The year counted from 4801 BC with years starting in March. */
  function ShiftedYear(year: int, month: int): int
  {
    year + 4800 - FloorDiv(14 - month, 12)
  }

  /** The month counted from March = 0; every integer month lands in 0..11. */
  function ShiftedMonth(month: int): (m: int)
    ensures 0 <= m <= 11
    ensures 3 <= month <= 12 ==> m == month - 3
    ensures 1 <= month <= 2 ==> m == month + 9
  {
    month + 12 * FloorDiv(14 - month, 12) - 3
  }

  /** Julian Day Number (JD + 0.5) of a Julian-calendar date given as shifted year and month. */
  function JdnInJulian(y: int, m: int, d: real): real
  {
    d + (FloorDiv(153 * m + 2, 5) + 365 * y + FloorDiv(y, 4) - 32083) as real
  }

  /** Julian Day Number (JD + 0.5) of a Gregorian-calendar date given as shifted year and month. */
  function JdnInGregorian(y: int, m: int, d: real): real
  {
    d + (FloorDiv(153 * m + 2, 5) + 365 * y + FloorDiv(y, 4) - FloorDiv(y, 100) + FloorDiv(y, 400) - 32045) as real
  }

  /** The day of the month with the time of day added as a fraction. */
  function DayWithTime(day: int, timeParts: seq<real>): real
  {
    var second := TimePart(timeParts, 2) + TimePart(timeParts, 3) / 1000.0;
    day as real + TimePart(timeParts, 0) / 24.0 + TimePart(timeParts, 1) / 1440.0 + second / 86400.0
  }

  /** Julian Day of a civil date and optional time parts (hour, minute,
    * second, millisecond). A date inside the reform gap is given the value
    * the source computes from the unshifted adoption date. */
  function JulianDay(year: int, month: int, day: int, timeParts: seq<real>): real
  {
    var y := ShiftedYear(year, month);
    var m := ShiftedMonth(month);
    var d := DayWithTime(day, timeParts);
    var jdn :=
      if IsJulianDate(year, month, day) then JdnInJulian(y, m, d)
      else if IsGregorianDate(year, month, day) then JdnInGregorian(y, m, d)
      else JdnInGregorian(GregorianAdoptionYear, GregorianAdoptionMonth, GregorianAdoptionDay as real);
    jdn - 0.5
  }

  lemma JulianDayTestVectors()
    ensures JulianDay(1581, 1, 1, [12.0]) == 2298519.0
    ensures JulianDay(2021, 12, 6, []) == 2459554.5
    ensures JulianDay(2021, 12, 6, [12.0]) == 2459555.0
    ensures -0.0000000005 < JulianDay(2021, 12, 6, [12.0, 10.0, 10.0]) - 2459555.007060185 < 0.0000000005
  {
    JulianDayOf20211206();
  }

  /** 2021-12-06 is Julian Day number 2459555 in the Gregorian branch. */
  lemma JulianDayOf20211206()
    ensures forall t: seq<real> {:trigger DayWithTime(6, t)} ::
              JulianDay(2021, 12, 6, t) == DayWithTime(6, t) + 2459548.5
  {
    assert ShiftedYear(2021, 12) == 6821 && ShiftedMonth(12) == 9;
    assert FloorDiv(153 * 9 + 2, 5) == 275;
    assert FloorDiv(6821, 4) == 1705 && FloorDiv(6821, 100) == 68 && FloorDiv(6821, 400) == 17;
  }

  /** The last Julian day and the first Gregorian day are consecutive Julian Days. */
  lemma CalendarReformBoundary()
    ensures JulianDay(1582, 10, 4, [12.0]) == 2299160.0
    ensures JulianDay(1582, 10, 15, [12.0]) == JulianGregorianBoundary
  {
  }

  /** Every instant of a day inside the reform gap maps to one constant,
    * which is not the Julian Day of the adoption date. */
  lemma ReformGapCollapses(day: int, timeParts: seq<real>)
    requires 5 <= day <= 14
    ensures InReformGap(1582, 10, day)
    ensures JulianDay(1582, 10, day, timeParts) == 546088.5
    ensures JulianDay(1582, 10, day, timeParts) != JulianDay(1582, 10, 15, [])
  {
  }

  /** The two calendar branches and the gap cover every date exactly once. */
  lemma CalendarBranchesPartition(year: int, month: int, day: int)
    ensures !(IsJulianDate(year, month, day) && IsGregorianDate(year, month, day))
    ensures InReformGap(year, month, day) <==> (year == 1582 && month == 10 && 5 <= day <= 14)
  {
  }

  /** Outside the gap the time of day adds linearly to the Julian Day of midnight. */
  lemma TimeOfDayIsLinear(year: int, month: int, day: int, timeParts: seq<real>)
    requires !InReformGap(year, month, day)
    ensures JulianDay(year, month, day, timeParts)
         == JulianDay(year, month, day, []) + TimePart(timeParts, 0) / 24.0 + TimePart(timeParts, 1) / 1440.0
            + (TimePart(timeParts, 2) + TimePart(timeParts, 3) / 1000.0) / 86400.0
  {
  }

  /** Outside the gap consecutive days of a month are one Julian Day apart. */
  lemma NextDayIsNextJulianDay(year: int, month: int, day: int)
    requires !InReformGap(year, month, day) && !InReformGap(year, month, day + 1)
    requires IsJulianDate(year, month, day) == IsJulianDate(year, month, day + 1)
    ensures JulianDay(year, month, day + 1, []) == JulianDay(year, month, day, []) + 1.0
  {
  }

  // ----- The inverse: Julian Day to calendar date and time -----

  /** The calendar fields JdToTimeMap returns. */
  datatype TimeMap = TimeMap(year: int, month: int, day: int, hour: int, minute: int, second: int, millisecond: int)

  /** Meeus's A: the integer day count with the Gregorian-only leap days put back,
    * so that the Julian-calendar month arithmetic applies. */
  function MeeusA(z: int): int
  {
    if (z as real) < JulianGregorianBoundary then z
    else
      var a := (((z as real) - 2305507.25) / 36524.25).Floor;
      z + 10 + a - ((a as real) / 4.0).Floor
  }

  /** One pass of the month arithmetic: C counts years from 4716 BC, E counts
    * months from March, and `days` is the whole-day part B - D - floor(30.6 E). */
  datatype Reckoning = Reckoning(c: int, e: int, days: int)

  function Reckon(a: int): Reckoning
  {
    var b := a + 1524;
    var c := (((b as real) - 122.1) / DaysOfAYear).Floor;
    var d := (DaysOfAYear * (c as real)).Floor;
    var e := (((b - d) as real) / 30.6).Floor;
    Reckoning(c, e, b - d - (30.6 * (e as real)).Floor)
  }

  /** Day of year B - D counted from March lies in 123..488. */
  lemma ReckonYearDay(a: int)
    ensures var b := a + 1524;
            var c := (((b as real) - 122.1) / DaysOfAYear).Floor;
            var d := (DaysOfAYear * (c as real)).Floor;
            123 <= b - d <= 488
  {
    var b := a + 1524;
    var c := (((b as real) - 122.1) / DaysOfAYear).Floor;
    var d := (DaysOfAYear * (c as real)).Floor;
    assert DaysOfAYear * (c as real) <= (b as real) - 122.1;
    assert (b as real) - 122.1 < DaysOfAYear * (c as real) + DaysOfAYear;
  }

  /** Every pass yields a month count in 4..15 and a whole-day part in 0..31. */
  lemma ReckonBounds(a: int)
    ensures 4 <= Reckon(a).e <= 15
    ensures 0 <= Reckon(a).days <= 31
  {
    ReckonYearDay(a);
    var b := a + 1524;
    var c := (((b as real) - 122.1) / DaysOfAYear).Floor;
    var d := (DaysOfAYear * (c as real)).Floor;
    var e := (((b - d) as real) / 30.6).Floor;
    assert 30.6 * (e as real) <= (b - d) as real < 30.6 * (e as real) + 30.6;
  }

  /** If a pass lands on day 0 of a month, the pass one day earlier lands on
    * day 30 of the previous month of the same year: the correction loop of
    * JdToTimeMap runs its body at most once. */
  lemma CorrectionRunsOnce(a: int)
    requires Reckon(a).days == 0
    ensures Reckon(a - 1).days == 30
    ensures Reckon(a - 1).e == Reckon(a).e - 1
    ensures Reckon(a - 1).c == Reckon(a).c
  {
    ReckonYearDay(a);
    var b := a + 1524;
    var c := (((b as real) - 122.1) / DaysOfAYear).Floor;
    var d := (DaysOfAYear * (c as real)).Floor;
    var e := (((b - d) as real) / 30.6).Floor;
    var n := b - d;
    assert 30.6 * (e as real) <= n as real < 30.6 * (e as real) + 30.6;
    assert n == (30.6 * (e as real)).Floor;
    assert n as real == 30.6 * (e as real);
    assert e == 5 || e == 10 || e == 15 by {
      assert 153 * e == 5 * n;
      ReckonBounds(a);
    }
    // One day earlier the year count is unchanged.
    var c' := ((((b - 1) as real) - 122.1) / DaysOfAYear).Floor;
    assert DaysOfAYear * (c as real) <= ((b - 1) as real) - 122.1;
    assert c' == c;
    var e' := ((((b - 1) - d) as real) / 30.6).Floor;
    assert e' == e - 1;
    assert (30.6 * (e' as real)).Floor == n - 31;
  }

  /** Calendar month and year from a pass: E = 4..13 is March..December and
    * E = 14, 15 is January, February of the following year. */
  function MonthOfCount(e: int): int
  {
    if e < 14 then e - 1 else e - 13
  }

  function YearOfCount(c: int, month: int): int
  {
    if month > 2 then c - 4716 else c - 4715
  }

  /** Hours, minutes, seconds and milliseconds of a day fraction, extracted
    * step by step with the 0.000000005 h nudge. The hour can reach 24. */
  function ClockOfFraction(dayD: real): (clock: (int, int, int, int))
    requires 0.0 <= dayD < 1.0
    ensures 0 <= clock.0 <= 24 && 0 <= clock.1 <= 59 && 0 <= clock.2 <= 59 && 0 <= clock.3 <= 999
    ensures dayD == 0.0 ==> clock == (0, 0, 0, 0)
  {
    if dayD > 0.0 then
      var hhF := dayD * 24.0 + 0.000000005;
      var hh := hhF.Floor;
      var hhD := hhF - hh as real;
      if hhD > 0.0 then
        var iiF := hhD * 60.0;
        var ii := iiF.Floor;
        var iiD := iiF - ii as real;
        if iiD > 0.0 then
          var ssF := iiD * 60.0;
          var ss := ssF.Floor;
          var ssD := ssF - ss as real;
          if ssD > 0.0 then (hh, ii, ss, Trunc(ssD * 1000.0)) else (hh, ii, ss, 0)
        else (hh, ii, 0, 0)
      else (hh, 0, 0, 0)
    else (0, 0, 0, 0)
  }

  /** After the one-day correction the day lies in 1..31 and E in 4..15. */
  lemma CorrectedBounds(a: int)
    ensures var k := if Reckon(a).days >= 1 then 0 else 1;
            1 <= Reckon(a - k).days + k <= 31 && 4 <= Reckon(a - k).e <= 15
  {
    ReckonBounds(a);
    ReckonBounds(a - 1);
    if Reckon(a).days == 0 {
      CorrectionRunsOnce(a);
    }
  }

  /** The calendar date and time for Meeus's day count `a` and day fraction
    * `f`, with the day-0 correction applied once as CorrectionRunsOnce shows
    * is enough. */
  function CalendarOfCount(a: int, f: real): (tm: TimeMap)
    requires 0.0 <= f < 1.0
    ensures 1 <= tm.month <= 12 && 1 <= tm.day <= 31
    ensures 0 <= tm.hour <= 24 && 0 <= tm.minute <= 59 && 0 <= tm.second <= 59 && 0 <= tm.millisecond <= 999
  {
    CorrectedBounds(a);
    var k := if Reckon(a).days >= 1 then 0 else 1;
    var r := Reckon(a - k);
    var month := MonthOfCount(r.e);
    var clock := ClockOfFraction(f);
    TimeMap(YearOfCount(r.c, month), month, r.days + k, clock.0, clock.1, clock.2, clock.3)
  }

  /** The calendar date and time of a Julian Day. */
  function CalendarOfJd(jd: real): (tm: TimeMap)
    ensures 1 <= tm.month <= 12 && 1 <= tm.day <= 31
    ensures 0 <= tm.hour <= 24 && 0 <= tm.minute <= 59 && 0 <= tm.second <= 59 && 0 <= tm.millisecond <= 999
  {
    var jdn := jd + 0.5;
    var z := jdn.Floor;
    CalendarOfCount(MeeusA(z), jdn - z as real)
  }

  lemma CalendarOfJdUnfold(jd: real)
    ensures var z := (jd + 0.5).Floor;
            CalendarOfJd(jd) == CalendarOfCount(MeeusA(z), (jd + 0.5) - z as real)
  {
  }

  /** CalendarOfJd at a Julian Day that is a fraction f past the start of day z. */
  lemma CalendarOfJdAt(jd: real, z: int, f: real)
    requires 0.0 <= f < 1.0 && jd + 0.5 == z as real + f
    ensures CalendarOfJd(jd) == CalendarOfCount(MeeusA(z), f)
  {
    assert (jd + 0.5).Floor == z;
  }

  /** The correction loop of JdToTimeMap: passes are repeated one day
    * earlier until the day part reaches 1, which takes at most one step back. */
  method CorrectedReckoning(a0: int, f: real) returns (c: int, e: int, dayF: real, k: int)
    requires 0.0 <= f < 1.0
    ensures k == (if Reckon(a0).days >= 1 then 0 else 1)
    ensures Reckon(a0 - k) == Reckoning(c, e, (dayF - f).Floor)
    ensures dayF == Reckon(a0 - k).days as real + f && dayF >= 1.0
  {
    var a := a0;
    dayF, c, e, k := 1.0, 0, 0, 0;
    while true
      invariant (k == 0 && a == a0) || (k == 1 && a == a0 - 1 && Reckon(a0).days == 0)
      decreases 1 - k
    {
      var b := a + 1524;
      c := (((b as real) - 122.1) / DaysOfAYear).Floor;
      var d := (DaysOfAYear * (c as real)).Floor;
      e := (((b - d) as real) / 30.6).Floor;
      dayF := (b - d - (30.6 * (e as real)).Floor) as real + f;
      assert Reckon(a) == Reckoning(c, e, b - d - (30.6 * (e as real)).Floor);
      ReckonBounds(a);
      if dayF >= 1.0 {
        break;
      }
      if k == 1 {
        CorrectionRunsOnce(a0);
      }
      a := a - 1;
      k := k + 1;
    }
  }

  /** The day of the month and the time-of-day fraction JdToTimeMap takes
    * from the corrected day part, with the dead day-0 fix of the source
    * (`dayF` is at least 1 once the correction loop ends). */
  method SplitDayPart(dayF0: real, k: int, ghost days: int, f: real) returns (day: int, dayD: real)
    requires 0.0 <= f < 1.0 && 0 <= k && dayF0 == days as real + f && dayF0 >= 1.0
    ensures day == days + k && dayD == f
  {
    var dayF := dayF0 + k as real;
    if dayF == 0.0 {
      dayF := dayF + 1.0;
    }
    day := dayF.Floor;
    dayD := dayF - day as real;
  }

  /** JdToTimeMap of julian.go: Meeus's inverse with 30.6 and a correction
    * loop that steps back one day when the pass lands on day 0. */
  method JdToTimeMap(jd: real) returns (tm: TimeMap)
    ensures tm == CalendarOfJd(jd)
    ensures 1 <= tm.month <= 12 && 1 <= tm.day <= 31
    ensures 0 <= tm.hour <= 24 && 0 <= tm.minute <= 59 && 0 <= tm.second <= 59 && 0 <= tm.millisecond <= 999
  {
    var jdn := jd + 0.5;
    var z := jdn.Floor;
    var f := jdn - z as real;
    var a := MeeusA(z);
    var c, e, dayF, k := CorrectedReckoning(a, f);
    var month := if e < 14 then e - 1 else e - 13;
    var year := if month > 2 then c - 4716 else c - 4715;
    var day, dayD := SplitDayPart(dayF, k, Reckon(a - k).days, f);
    var clock := ClockOfFraction(dayD);
    tm := TimeMap(year, month, day, clock.0, clock.1, clock.2, clock.3);
    assert tm == CalendarOfCount(a, f);
    CalendarOfJdUnfold(jd);
  }

  /** The passes JdToTimeMap makes for the Julian Days of julian_test.go. */
  lemma ReckonTestPoints()
    ensures MeeusA(2298519) == 2298519 && Reckon(2298519) == Reckoning(6296, 14, 1)
    ensures MeeusA(2459555) == 2459568 && Reckon(2459568) == Reckoning(6737, 13, 6)
  {
    assert (((2298519 + 1524) as real - 122.1) / DaysOfAYear).Floor == 6296;
    assert (DaysOfAYear * 6296.0).Floor == 2299614;
    assert ((429 as real) / 30.6).Floor == 14;
    assert (30.6 * 14.0).Floor == 428;
    assert (((2459555 as real) - 2305507.25) / 36524.25).Floor == 4;
    assert (((2459568 + 1524) as real - 122.1) / DaysOfAYear).Floor == 6737;
    assert (DaysOfAYear * 6737.0).Floor == 2460689;
    assert ((403 as real) / 30.6).Floor == 13;
    assert (30.6 * 13.0).Floor == 397;
  }

  /** JdToTimeMap gives back the dates and times julian_test.go expects. */
  lemma CalendarOfJd2298519()
    ensures CalendarOfJd(2298519.0) == TimeMap(1581, 1, 1, 12, 0, 0, 0)
  {
    ReckonTestPoints();
    assert (2298519.0 + 0.5).Floor == 2298519;
    assert ClockOfFraction(0.5) == (12, 0, 0, 0) by {
      assert (0.5 * 24.0 + 0.000000005).Floor == 12;
      assert ((0.000000005 * 60.0) * 60.0 * 1000.0).Floor == 0;
    }
  }

  lemma CalendarOfJd2459554Midnight()
    ensures CalendarOfJd(2459554.5) == TimeMap(2021, 12, 6, 0, 0, 0, 0)
  {
    ReckonTestPoints();
    assert (2459554.5 + 0.5).Floor == 2459555;
  }

  lemma CalendarOfJd2459555Noon()
    ensures CalendarOfJd(2459555.0) == TimeMap(2021, 12, 6, 12, 0, 0, 0)
  {
    ReckonTestPoints();
    assert (2459555.0 + 0.5).Floor == 2459555;
    assert ClockOfFraction(0.5) == (12, 0, 0, 0) by {
      assert (0.5 * 24.0 + 0.000000005).Floor == 12;
      assert ((0.000000005 * 60.0) * 60.0 * 1000.0).Floor == 0;
    }
  }

  lemma CalendarOfJd2459555Clock()
    ensures CalendarOfJd(2459555.007060185) == TimeMap(2021, 12, 6, 12, 10, 10, 0)
  {
    ReckonTestPoints();
    assert (2459555.007060185 + 0.5).Floor == 2459555;
    assert ClockOfFraction(0.507060185) == (12, 10, 10, 0) by {
      assert (0.507060185 * 24.0 + 0.000000005).Floor == 12;
      assert (0.169444445 * 60.0).Floor == 10;
      assert (0.1666667 * 60.0).Floor == 10;
      assert (0.000002 * 1000.0).Floor == 0;
    }
  }

  // ----- The round trip: JdToTimeMap undoes JulianDay -----

  /** Days in a month of the calendar JulianDay reads the date in: February
    * has the Julian leap day of every fourth year up to 1582 and the
    * Gregorian rule from 1583 on. */
  function ReformMonthDays(year: int, month: int): (n: int)
    requires 1 <= month <= 12
    ensures 28 <= n <= 31
    ensures month != 2 ==> n == [31, 28, 31, 30, 31, 30, 31, 31, 30, 31, 30, 31][month - 1]
  {
    if month == 2 then
      (if year % 4 == 0 && (year <= 1582 || year % 100 != 0 || year % 400 == 0) then 29 else 28)
    else if month == 4 || month == 6 || month == 9 || month == 11 then 30
    else 31
  }

  /** The day number (JD + 0.5 at midnight) of day `day` of the March-based
    * month m of the shifted year y in the Julian calendar. */
  function JulianCount(y: int, m: int, day: int): int
  {
    day + FloorDiv(153 * m + 2, 5) + 365 * y + FloorDiv(y, 4) - 32083
  }

  /** The same in the Gregorian calendar. */
  function GregorianCount(y: int, m: int, day: int): int
  {
    day + FloorDiv(153 * m + 2, 5) + 365 * y + FloorDiv(y, 4) - FloorDiv(y, 100) + FloorDiv(y, 400) - 32045
  }

  /** A pass over a count that lies on day n of the March-based year c
    * (1 March is day 123) finds c, the month count e bracketing n by 30.6-day
    * steps, and the day n - floor(30.6 e). */
  lemma ReckonOfYearDay(a: int, c: int, e: int, n: int)
    requires a + 1524 == 365 * c + c / 4 + n
    requires 123 <= n <= 487 + (if c % 4 == 3 then 1 else 0)
    requires 153 * e <= 5 * n < 153 * (e + 1)
    ensures Reckon(a) == Reckoning(c, e, n - (153 * e) / 5)
  {
    var b := a + 1524;
    var dd := 365 * c + c / 4;
    assert c == 4 * (c / 4) + c % 4;
    assert DaysOfAYear * (c as real) == dd as real + (c % 4) as real / 4.0;
    assert (((b as real) - 122.1) / DaysOfAYear).Floor == c;
    assert (DaysOfAYear * (c as real)).Floor == dd;
    assert (((b - dd) as real) / 30.6).Floor == e;
    assert 153 * e == 5 * ((153 * e) / 5) + (153 * e) % 5;
    assert (30.6 * (e as real)).Floor == (153 * e) / 5;
  }

  /** Reckoning the Julian count of a date gives its year count, month count
    * and day. The pass lands on day 0 exactly for the 31st of March, August
    * and January, and one day earlier (the correction) on day 30 of the
    * same month. */
  lemma ReckonOfDate(y: int, m: int, day: int)
    requires 0 <= m <= 11 && 1 <= day
    requires m < 11 ==> day + FloorDiv(153 * m + 2, 5) <= FloorDiv(153 * m + 155, 5)
    requires m == 11 ==> day <= 28 + (if y % 4 == 3 then 1 else 0)
    ensures var a := JulianCount(y, m, day);
            var k := if Reckon(a).days >= 1 then 0 else 1;
            Reckon(a - k) == Reckoning(y - 84, m + 4, day - k)
  {
    var a := JulianCount(y, m, day);
    var n := day + FloorDiv(153 * m + 2, 5) + 122;
    var c := y - 84;
    assert FloorDiv(y, 4) == c / 4 + 21;
    assert (153 * (m + 4)) / 5 == FloorDiv(153 * m + 2, 5) + 122;
    if 5 * n == 153 * (m + 5) {
      ReckonOfYearDay(a, c, m + 5, n);
      ReckonOfYearDay(a - 1, c, m + 4, n - 1);
    } else {
      ReckonOfYearDay(a, c, m + 4, n);
    }
  }

  /** MeeusA puts back the leap days the Gregorian calendar drops: on the
    * Gregorian count of a date it gives the Julian count of the same
    * shifted year, month and day. */
  lemma MeeusAOfGregorian(y: int, m: int, day: int)
    requires 0 <= m <= 11 && 1 <= day
    requires day + FloorDiv(153 * m + 2, 5) <= 365 + (if (y + 1) % 4 == 0 && ((y + 1) % 100 != 0 || (y + 1) % 400 == 0) then 1 else 0)
    requires GregorianCount(y, m, day) >= 2299161
    ensures MeeusA(GregorianCount(y, m, day)) == JulianCount(y, m, day)
  {
    var q := (y - 4800) / 100;
    var r := (y - 4800) % 100;
    var p, s := q / 4, q % 4;
    var w := day + FloorDiv(153 * m + 2, 5) + 365 * r + r / 4;
    GregorianCountSplit(y, m, day);
    CenturyFloors(p, s, w);
  }

  /** The Gregorian count of a day in the shifted year y, split into whole
    * 400-year cycles p, centuries s within the cycle and days w within the
    * century; the Julian count of the same day is q - p - 2 days later, where
    * q counts the centuries since shifted year 4800. */
  lemma GregorianCountSplit(y: int, m: int, day: int)
    requires 0 <= m <= 11 && 1 <= day
    requires day + FloorDiv(153 * m + 2, 5) <= 365 + (if (y + 1) % 4 == 0 && ((y + 1) % 100 != 0 || (y + 1) % 400 == 0) then 1 else 0)
    ensures var q, r := (y - 4800) / 100, (y - 4800) % 100;
            var p, s := q / 4, q % 4;
            var w := day + FloorDiv(153 * m + 2, 5) + 365 * r + r / 4;
            && GregorianCount(y, m, day) == w + 146097 * p + 36524 * s + 1721119
            && 0 <= s <= 3 && 1 <= w <= 36524 + (if s == 3 then 1 else 0)
            && JulianCount(y, m, day) == GregorianCount(y, m, day) + q - p - 2
  {
    var q, r := (y - 4800) / 100, (y - 4800) % 100;
    var p, s := q / 4, q % 4;
    var f := FloorDiv(153 * m + 2, 5);
    assert y == 4800 + 100 * q + r && 0 <= r < 100;
    assert q == 4 * p + s && 0 <= s < 4;
    assert FloorDiv(y, 4) == 1200 + 25 * q + r / 4 && FloorDiv(y, 100) == 48 + q && FloorDiv(y, 400) == 12 + p;
    assert 1 <= day + f + 365 * r + r / 4 <= 36524 + (if s == 3 then 1 else 0) by {
      if r == 99 {
        assert y + 1 == 100 * (q + 49);
        assert (y + 1) % 400 == 0 <==> s == 3;
      }
    }
  }

  /** The two floors of MeeusA at a Gregorian count that lies w days into
    * century s of 400-year cycle p: the elapsed Gregorian centuries less 16
    * and a quarter of them. */
  lemma CenturyFloors(p: int, s: int, w: int)
    requires 0 <= s <= 3 && 1 <= w <= 36524 + (if s == 3 then 1 else 0)
    ensures var z := w + 146097 * p + 36524 * s + 1721119;
            var al := ((z as real - 2305507.25) / 36524.25).Floor;
            al == 4 * p + s - 16 && ((al as real) / 4.0).Floor == p - 4
  {
    var z := w + 146097 * p + 36524 * s + 1721119;
    var q := 4 * p + s;
    var rest := (w as real - 0.25 * s as real - 0.25) / 36524.25;
    assert z as real - 2305507.25 == 36524.25 * (q - 16) as real + (w as real - 0.25 * s as real - 0.25);
    assert (z as real - 2305507.25) / 36524.25 == (q - 16) as real + rest;
    assert 0.0 <= rest < 1.0;
    assert ((q - 16) as real) / 4.0 == (p - 4) as real + (s as real) / 4.0;
  }

  /** The Julian count of a Julian-calendar date is at most that of
    * 1582-10-04, and the Gregorian count of a Gregorian date at least that
    * of 1582-10-15, so MeeusA takes the branch of the calendar. */
  lemma CountsOfCalendars(year: int, month: int, day: int)
    requires 1 <= month <= 12 && 1 <= day <= ReformMonthDays(year, month)
    ensures var y, m := ShiftedYear(year, month), ShiftedMonth(month);
            (IsJulianDate(year, month, day) ==> JulianCount(y, m, day) <= 2299160)
            && (IsGregorianDate(year, month, day) ==> GregorianCount(y, m, day) >= 2299161)
  {
    var y, m := ShiftedYear(year, month), ShiftedMonth(month);
    assert month >= 3 ==> y == year + 4800;
    assert month <= 2 ==> y == year + 4799;
  }

  /** The clock of a whole-second time of day reads back exactly: the
    * 0.000000005 h nudge never carries into the next unit. */
  lemma ClockOfWholeTime(hour: int, minute: int, second: int)
    requires 0 <= hour < 24 && 0 <= minute < 60 && 0 <= second < 60
    ensures var t := hour as real / 24.0 + minute as real / 1440.0 + second as real / 86400.0;
            0.0 <= t < 1.0 && ClockOfFraction(t) == (hour, minute, second, 0)
  {
    var t := hour as real / 24.0 + minute as real / 1440.0 + second as real / 86400.0;
    if t > 0.0 {
      var hhF := t * 24.0 + 0.000000005;
      assert hhF == hour as real + (minute as real / 60.0 + second as real / 3600.0 + 0.000000005);
      assert hhF.Floor == hour;
      var hhD := hhF - hour as real;
      var iiF := hhD * 60.0;
      assert iiF == minute as real + (second as real / 60.0 + 0.0000003);
      assert iiF.Floor == minute;
      var iiD := iiF - minute as real;
      var ssF := iiD * 60.0;
      assert ssF == second as real + 0.000018;
      assert ssF.Floor == second;
      var ssD := ssF - second as real;
      assert Trunc(ssD * 1000.0) == 0;
    }
  }

  /** The calendar of the Julian count of a date in the March-based month m
    * of the shifted year y, with a time of day whose clock reads back. */
  lemma CalendarOfDateCount(y: int, m: int, day: int, f: real, clock: (int, int, int, int))
    requires 0 <= m <= 11 && 1 <= day
    requires m < 11 ==> day + FloorDiv(153 * m + 2, 5) <= FloorDiv(153 * m + 155, 5)
    requires m == 11 ==> day <= 28 + (if y % 4 == 3 then 1 else 0)
    requires 0.0 <= f < 1.0 && ClockOfFraction(f) == clock
    ensures var month := MonthOfCount(m + 4);
            CalendarOfCount(JulianCount(y, m, day), f)
            == TimeMap(YearOfCount(y - 84, month), month, day, clock.0, clock.1, clock.2, clock.3)
  {
    ReckonOfDate(y, m, day);
  }

  /** The first day, counted from the 1st of March, of March-based month m
    * and of the month after it. */
  lemma MarchMonthStarts(m: int)
    requires 0 <= m <= 11
    ensures FloorDiv(153 * m + 2, 5) == [0, 31, 61, 92, 122, 153, 184, 214, 245, 275, 306, 337][m]
    ensures FloorDiv(153 * m + 155, 5) == [31, 61, 92, 122, 153, 184, 214, 245, 275, 306, 337, 367][m]
  {
    var f, g := FloorDiv(153 * m + 2, 5), FloorDiv(153 * m + 155, 5);
    assert 5 * f <= 153 * m + 2 < 5 * f + 5;
    assert 5 * g <= 153 * m + 155 < 5 * g + 5;
  }

  /** A valid civil day, restated for the March-based month: it fits before
    * the next month's first day, February (the last month) has a leap day
    * only when the Julian rule would give one, and in the Gregorian calendar
    * February's leap day follows its rule for the next shifted year. */
  lemma MarchDayBounds(year: int, month: int, day: int)
    requires 1 <= month <= 12 && 1 <= day <= ReformMonthDays(year, month)
    ensures var y, m := ShiftedYear(year, month), ShiftedMonth(month);
            (m < 11 ==> day + FloorDiv(153 * m + 2, 5) <= FloorDiv(153 * m + 155, 5))
            && (m == 11 ==> day <= 28 + (if y % 4 == 3 then 1 else 0))
            && (IsGregorianDate(year, month, day) ==>
                  day + FloorDiv(153 * m + 2, 5)
                  <= 365 + (if (y + 1) % 4 == 0 && ((y + 1) % 100 != 0 || (y + 1) % 400 == 0) then 1 else 0))
  {
    var y, m := ShiftedYear(year, month), ShiftedMonth(month);
    MarchMonthStarts(m);
    if month <= 2 {
      assert y == year + 4799;
    }
  }

  /** Outside the reform gap, JulianDay is half a day before the day count
    * of the date in its own calendar plus the clock's fraction of a day. */
  lemma JulianDayOfCount(year: int, month: int, day: int, hour: int, minute: int, second: int)
    requires !InReformGap(year, month, day)
    ensures var y, m := ShiftedYear(year, month), ShiftedMonth(month);
            var z := if IsJulianDate(year, month, day) then JulianCount(y, m, day) else GregorianCount(y, m, day);
            JulianDay(year, month, day, [hour as real, minute as real, second as real])
            == z as real + (hour as real / 24.0 + minute as real / 1440.0 + second as real / 86400.0) - 0.5
  {
    var parts := [hour as real, minute as real, second as real];
    var t := hour as real / 24.0 + minute as real / 1440.0 + second as real / 86400.0;
    assert DayWithTime(day, parts) == day as real + t;
  }

  /** MeeusA carries the day count of a valid date outside the reform gap,
    * in whichever calendar it belongs to, to its Julian-calendar count. */
  lemma MeeusAOfCount(year: int, month: int, day: int)
    requires 1 <= month <= 12 && 1 <= day <= ReformMonthDays(year, month)
    requires !InReformGap(year, month, day)
    ensures var y, m := ShiftedYear(year, month), ShiftedMonth(month);
            var z := if IsJulianDate(year, month, day) then JulianCount(y, m, day) else GregorianCount(y, m, day);
            MeeusA(z) == JulianCount(y, m, day)
  {
    var y, m := ShiftedYear(year, month), ShiftedMonth(month);
    CountsOfCalendars(year, month, day);
    if !IsJulianDate(year, month, day) {
      MarchDayBounds(year, month, day);
      MeeusAOfGregorian(y, m, day);
    }
  }

  /** For a valid date outside the reform gap and a whole-second clock, the
    * inverse conversion of JulianDay reduces to the Julian-calendar count of
    * the date and the clock's fraction of a day: a Gregorian date's count is
    * carried back to the Julian count by MeeusA. */
  lemma CalendarOfJdOfCount(year: int, month: int, day: int, hour: int, minute: int, second: int)
    requires 1 <= month <= 12 && 1 <= day <= ReformMonthDays(year, month)
    requires !InReformGap(year, month, day)
    requires 0 <= hour < 24 && 0 <= minute < 60 && 0 <= second < 60
    ensures CalendarOfJd(JulianDay(year, month, day, [hour as real, minute as real, second as real]))
         == CalendarOfCount(JulianCount(ShiftedYear(year, month), ShiftedMonth(month), day),
                            hour as real / 24.0 + minute as real / 1440.0 + second as real / 86400.0)
  {
    var y, m := ShiftedYear(year, month), ShiftedMonth(month);
    var t := hour as real / 24.0 + minute as real / 1440.0 + second as real / 86400.0;
    var jd := JulianDay(year, month, day, [hour as real, minute as real, second as real]);
    var z := if IsJulianDate(year, month, day) then JulianCount(y, m, day) else GregorianCount(y, m, day);
    JulianDayOfCount(year, month, day, hour, minute, second);
    MeeusAOfCount(year, month, day);
    CalendarOfJdAt(jd, z, t);
  }

  /** JdToTimeMap undoes JulianDay: a valid date outside the reform gap with
    * a clock of whole seconds reads back with the same fields and no
    * milliseconds. */
  lemma CalendarOfJdRoundTrip(year: int, month: int, day: int, hour: int, minute: int, second: int)
    requires 1 <= month <= 12 && 1 <= day <= ReformMonthDays(year, month)
    requires !InReformGap(year, month, day)
    requires 0 <= hour < 24 && 0 <= minute < 60 && 0 <= second < 60
    ensures CalendarOfJd(JulianDay(year, month, day, [hour as real, minute as real, second as real]))
         == TimeMap(year, month, day, hour, minute, second, 0)
  {
    var y, m := ShiftedYear(year, month), ShiftedMonth(month);
    var t := hour as real / 24.0 + minute as real / 1440.0 + second as real / 86400.0;
    assert MonthOfCount(m + 4) == month && YearOfCount(y - 84, month) == year by {
      assert month >= 3 ==> y == year + 4800;
      assert month <= 2 ==> y == year + 4799;
    }
    CalendarOfJdOfCount(year, month, day, hour, minute, second);
    ClockOfWholeTime(hour, minute, second);
    MarchDayBounds(year, month, day);
    CalendarOfDateCount(y, m, day, t, (hour, minute, second, 0));
  }

  // ----- Modified Julian Day and the J2000 epoch -----

  /** MJD = JD - 2400000.5: day 0 starts at midnight of 1858-11-17. */
  function JdToMjd(jd: real): real
  {
    jd - 2400000.5
  }

  function MjdToJd(mjd: real): real
  {
    mjd + 2400000.5
  }

  lemma MjdShiftsInvert(x: real)
    ensures JdToMjd(MjdToJd(x)) == x
    ensures MjdToJd(JdToMjd(x)) == x
  {
  }

  function Mjd(year: int, month: int, day: int, timeParts: seq<real>): real
  {
    JdToMjd(JulianDay(year, month, day, timeParts))
  }

  method MjdToTimeMap(mjd: real) returns (tm: TimeMap)
    ensures tm == CalendarOfJd(MjdToJd(mjd))
  {
    tm := JdToTimeMap(MjdToJd(mjd));
  }

  lemma MjdTestVectors()
    ensures Mjd(2021, 12, 6, []) == 59554.0
    ensures Mjd(2021, 12, 6, [12.0]) == 59554.5
  {
  }

  lemma MjdToTimeMapTestVectors()
    ensures CalendarOfJd(MjdToJd(59554.0)) == TimeMap(2021, 12, 6, 0, 0, 0, 0)
    ensures CalendarOfJd(MjdToJd(59554.5)) == TimeMap(2021, 12, 6, 12, 0, 0, 0)
  {
    assert MjdToJd(59554.0) == 2459554.5 && MjdToJd(59554.5) == 2459555.0;
    CalendarOfJd2459554Midnight();
    CalendarOfJd2459555Noon();
  }

  /** Days since the J2000.0 epoch. */
  function JulianDayFromJ2000(jd: real): real
  {
    jd - JulianDayJ2000
  }

  /** Julian centuries of 36525 days since J2000.0. */
  function JulianCentury(jd: real): real
  {
    JulianDayFromJ2000(jd) / DaysOfAYear / 100.0
  }

  /** Julian millennia of 365250 days since J2000.0. */
  function JulianThousandYear(jd: real): real
  {
    JulianDayFromJ2000(jd) / DaysOfAYear / 1000.0
  }

  /** The epoch helpers measure the same interval in days, centuries and millennia. */
  lemma EpochScales(t: real)
    ensures JulianDayFromJ2000(JulianDayJ2000 + t) == t
    ensures JulianCentury(JulianDayJ2000 + 36525.0 * t) == t
    ensures JulianThousandYear(JulianDayJ2000 + 365250.0 * t) == t
    ensures JulianCentury(JulianDayJ2000 + t) == 10.0 * JulianThousandYear(JulianDayJ2000 + t)
  {
  }
}
