/** The older revision of the package, date.go: its own civil-date to
  * Julian Day conversion and back, the sexagenary pillars of a Date, the
  * lunar year tables built from astronomy already moved to China time, and
  * the conversions between a Date and a LunarDate. The solar terms and new
  * moons come from a LegacyEphemeris input; time.Time is the Civil date and
  * weekday the caller passes. */
module LegacyDate {
  import opened Wrappers
  import GoMath
  import Julian
  import Utils
  import opened LegacyCtime
  import opened LunarTables
  import opened LunarMonths
  import LunarConversion
  import Sexagenary

  // ------------------------------------------------------------ inputs

  /** What date.go takes from its astronomy: the 16 Jie of
    * pureJQsinceSpring(year), the 15 Zhongqi of zQsinceWinterSolstice(year)
    * and the 20 true new moons sMsinceWinterSolstice computes for a year,
    * all already in China time (one third of a day added) and, for the new
    * moons, corrected by delta T. */
  datatype LegacyEphemeris = LegacyEphemeris(jie: (int, int) -> real, zhongqi: (int, int) -> real, newMoon: (int, int) -> real)

  function PureJQ(eph: LegacyEphemeris, year: int): (jq: seq<real>)
    ensures |jq| == 16
  {
    seq(16, j => eph.jie(year, j))
  }

  function ZQ(eph: LegacyEphemeris, year: int): (zq: seq<real>)
    ensures |zq| == 15
  {
    seq(15, j => eph.zhongqi(year, j))
  }

  function NewMoons(eph: LegacyEphemeris, year: int): (tjd: seq<real>)
    ensures |tjd| == 20
  {
    seq(20, i => eph.newMoon(year, i))
  }

  // ------------------------------------------------------------ year clamps

  /** The clamp CtimeNewDate applies: years below 1000 become 1000, above 3000 become 3000. */
  function ClampYear(y: int): (r: int)
    ensures 1000 <= r <= 3000
    ensures 1000 <= y <= 3000 ==> r == y
  {
    if y < 1000 then 1000 else if y > 3000 then 3000 else y
  }

  /** Clamping twice is clamping once, and the clamp keeps the order of years. */
  lemma ClampYearLaws(y: int, z: int)
    ensures ClampYear(ClampYear(y)) == ClampYear(y)
    ensures y <= z ==> ClampYear(y) <= ClampYear(z)
    ensures y < 1000 ==> ClampYear(y) == 1000
    ensures y > 3000 ==> ClampYear(y) == 3000
  {
  }

  /** The year NewDate and NewLunarDate write back: 0 stands for the current year,
    * any other year is clamped. */
  function DefaultYear(y: int, current: int): (r: int)
    ensures y == 0 ==> r == current
    ensures y != 0 ==> r == ClampYear(y)
  {
    if y == 0 then current else ClampYear(y)
  }

  /** A field NewDate defaults: 0 stands for the current value, and a value
    * still 0 becomes DateNewCtime's 1. */
  function DefaultField(x: int, current: int): (r: int)
    ensures x != 0 ==> r == x
    ensures x == 0 ==> r == (if current == 0 then 1 else current)
    ensures r != 0
  {
    var x1 := if x == 0 then current else x;
    if x1 == 0 then 1 else x1
  }

  /** The year of the Date NewDate returns: the current year for 0 (1970 when
    * that is 0 too), clamped again by CtimeNewDate. */
  function NewDateYear(y: int, current: int): (r: int)
    ensures 1000 <= r <= 3000
    ensures y != 0 ==> r == ClampYear(y)
    ensures y == 0 && 1000 <= current <= 3000 ==> r == current
  {
    var y1 := DefaultYear(y, current);
    ClampYear(if y1 == 0 then 1970 else y1)
  }

  /** The pillars of a fresh Date: all zero. */
  const NoPillars: TianGanDiZhi := TianGanDiZhi(0, 0, 0, 0, 0, 0, 0, 0)

  /** CtimeNewDate: a new Date with the fields of a time value, the year clamped. */
  method CtimeNewDate(c: DateArgs, week: int) returns (nd: Date)
    ensures fresh(nd)
    ensures nd.Year == ClampYear(c.year) && nd.Month == c.month && nd.Day == c.day
    ensures nd.Hour == c.hour && nd.Min == c.min && nd.Sec == c.sec && nd.Nsec == 0
    ensures nd.Week == week && nd.Loc == Some(c.loc) && nd.Pillars == Some(NoPillars)
  {
    var y := c.year;
    if y < 1000 {
      y := 1000;
    } else if y > 3000 {
      y := 3000;
    }
    nd := new Date(y, c.month, c.day, c.hour, c.min, c.sec, 0);
    nd.Week := week;
    nd.Loc := Some(c.loc);
    nd.Pillars := Some(NoPillars);
  }

  /** NewDate: fills the caller's Date with the current date's year, month and
    * day where they are 0 (clamping any other year), then builds a new Date
    * through DateNewCtime and CtimeNewDate. `now` is the current date and
    * `week` the weekday of the time value. */
  method NewDate(d: Date, now: Civil, week: int) returns (nd: Date)
    modifies d
    ensures fresh(nd)
    ensures d.Year == (var y := DefaultYear(old(d.Year), now.year); if y == 0 then 1970 else y)
    ensures d.Month == DefaultField(old(d.Month), now.month) && d.Day == DefaultField(old(d.Day), now.day)
    ensures d.Loc == (if old(d.Loc).None? then Some(Local) else old(d.Loc))
    ensures d.Hour == old(d.Hour) && d.Min == old(d.Min) && d.Sec == old(d.Sec) && d.Nsec == old(d.Nsec)
    ensures d.Week == old(d.Week) && d.Pillars == old(d.Pillars)
    ensures nd.Year == NewDateYear(old(d.Year), now.year) && nd.Month == d.Month && nd.Day == d.Day
    ensures nd.Hour == d.Hour && nd.Min == d.Min && nd.Sec == d.Sec && nd.Nsec == 0
    ensures nd.Week == week && nd.Loc == d.Loc && nd.Pillars == Some(NoPillars)
  {
    if d.Year == 0 {
      d.Year := now.year;
    } else if d.Year < 1000 {
      d.Year := 1000;
    } else if d.Year > 3000 {
      d.Year := 3000;
    }
    if d.Month == 0 {
      d.Month := now.month;
    }
    if d.Day == 0 {
      d.Day := now.day;
    }
    if d.Loc.None? {
      d.Loc := Some(Local);
    }
    var args := DateNewCtime(d);
    nd := CtimeNewDate(args, week);
  }

  // ------------------------------------------------------------ Solar2Julian

  /** Solar2Julian: the Julian Day of a civil date and time, counting years
    * from March; 0 for the ten days 1582-10-05..14 that neither calendar has. */
  function SolarToJulian(year: int, month: int, day: int, hour: int, min: int, sec: int): real
  {
    var yp := year + ((month as real - 3.0) / 10.0).Floor;
    var mp := GoMath.GoRem(month + 9, 12) as real;
    var jdm := mp * 30.0 + ((mp + 1.0) * 34.0 / 57.0).Floor as real;
    var jdh := (hour as real + (min as real + sec as real / 60.0) / 60.0) / 24.0;
    if Julian.IsGregorianDate(year, month, day) then
      var jdy := (yp as real * 365.25).Floor - (yp as real / 100.0).Floor + (yp as real / 400.0).Floor;
      jdy as real + jdm + (day - 1) as real + jdh + 1721119.5
    else if Julian.IsJulianDate(year, month, day) then
      var jdy := (yp as real * 365.25).Floor;
      jdy as real + jdm + (day - 1) as real + jdh + 1721117.5
    else 0.0
  }

  /** Solar2Julian of a Date. */
  function Solar2Julian(d: Date): real
    reads d
  {
    SolarToJulian(d.Year, d.Month, d.Day, d.Hour, d.Min, d.Sec)
  }

  /** The year term: the year from March moved back one for January and February. */
  lemma MarchYear(year: int, month: int)
    requires 1 <= month <= 12
    ensures year + ((month as real - 3.0) / 10.0).Floor == Julian.ShiftedYear(year, month) - 4800
  {
    if month < 3 {
      assert -1.0 <= (month as real - 3.0) / 10.0 < 0.0;
    } else {
      assert 0.0 <= (month as real - 3.0) / 10.0 < 1.0;
    }
  }

  /** The month term of Solar2Julian is the days before month mp of a year
    * from March, as julian.go counts them. */
  lemma MonthTerm(month: int)
    requires 1 <= month <= 12
    ensures var mp := GoMath.GoRem(month + 9, 12);
            mp == Julian.ShiftedMonth(month)
            && mp as real * 30.0 + ((mp as real + 1.0) * 34.0 / 57.0).Floor as real == GoMath.FloorDiv(153 * mp + 2, 5) as real
  {
    var mp := GoMath.GoRem(month + 9, 12);
    assert mp == (if month < 3 then month + 9 else month - 3);
    assert 0 <= mp <= 11;
    var t := ((mp as real + 1.0) * 34.0 / 57.0);
    if mp <= 0 { assert t.Floor == 0; }
    else if mp == 1 { assert t.Floor == 1; }
    else if mp == 2 { assert t.Floor == 1; }
    else if mp == 3 { assert t.Floor == 2; }
    else if mp == 4 { assert t.Floor == 2; }
    else if mp == 5 { assert t.Floor == 3; }
    else if mp == 6 { assert t.Floor == 4; }
    else if mp == 7 { assert t.Floor == 4; }
    else if mp == 8 { assert t.Floor == 5; }
    else if mp == 9 { assert t.Floor == 5; }
    else if mp == 10 { assert t.Floor == 6; }
    else { assert t.Floor == 7; }
  }

  /** A quarter-day Julian year: 365.25 yp rounds down to 365 yp plus the
    * leap days. */
  lemma JulianYearDays(yp: int)
    ensures (yp as real * 365.25).Floor == 365 * yp + GoMath.FloorDiv(yp, 4)
  {
    var q := GoMath.FloorDiv(yp, 4);
    assert yp == 4 * q + yp % 4 && 0 <= yp % 4 < 4;
    assert yp as real * 365.25 == (365 * yp + q) as real + (yp % 4) as real / 4.0;
  }

  /** Floor division by a shift of whole multiples. */
  lemma FloorDivShift(a: int, k: int, b: int)
    requires b > 0
    ensures GoMath.FloorDiv(a + b * k, b) == GoMath.FloorDiv(a, b) + k
  {
    GoMath.ModShift(a, k, b);
    assert a == b * (a / b) + a % b;
    GoMath.EuclidUnique(a + b * k, b, a / b + k, a % b);
  }

  /** Outside the reform gap Solar2Julian is julian.go's JulianDay of the
    * same date and clock (before its rounding to seven decimals). */
  lemma SolarToJulianIsJulianDay(year: int, month: int, day: int, hour: int, min: int, sec: int)
    requires 1 <= month <= 12 && !Julian.InReformGap(year, month, day)
    ensures SolarToJulian(year, month, day, hour, min, sec)
            == Julian.JulianDay(year, month, day, [hour as real, min as real, sec as real])
  {
    var y := Julian.ShiftedYear(year, month);
    var yp := y - 4800;
    MarchYear(year, month);
    MonthTerm(month);
    JulianYearDays(yp);
    var m := Julian.ShiftedMonth(month);
    var jdm := GoMath.FloorDiv(153 * m + 2, 5);
    var dt := Julian.DayWithTime(day, [hour as real, min as real, sec as real]);
    var jdh := (hour as real + (min as real + sec as real / 60.0) / 60.0) / 24.0;
    assert dt == day as real + jdh;
    FloorDivShift(yp, 1200, 4);
    if Julian.IsGregorianDate(year, month, day) {
      FloorDivShift(yp, 48, 100);
      FloorDivShift(yp, 12, 400);
      assert (yp as real / 100.0).Floor == GoMath.FloorDiv(yp, 100);
      assert (yp as real / 400.0).Floor == GoMath.FloorDiv(yp, 400);
      Julian.CalendarBranchesPartition(year, month, day);
      assert Julian.JulianDay(year, month, day, [hour as real, min as real, sec as real]) == Julian.JdnInGregorian(y, m, dt) - 0.5;
    } else {
      assert Julian.JulianDay(year, month, day, [hour as real, min as real, sec as real]) == Julian.JdnInJulian(y, m, dt) - 0.5;
    }
  }

  /** The ten missing days all give 0. */
  lemma SolarToJulianGap(day: int, hour: int, min: int, sec: int)
    requires 5 <= day <= 14
    ensures SolarToJulian(1582, 10, day, hour, min, sec) == 0.0
  {
  }

  // ------------------------------------------------------------ Julian2Solar

  /** The civil fields Julian2Solar computes before NewDate. */
  datatype SolarFields = SolarFields(year: int, month: int, day: int, hour: int, min: int, sec: int)

  /** The clock of a Julian Day: its fraction after midnight in whole seconds
    * (with a half-millisecond nudge), split into hours, minutes and seconds;
    * the hour is 24 only when the nudge carries the last second over. */
  function ClockOfJd(jd: real): (c: (int, int, int))
    ensures 0 <= c.0 <= 24 && 0 <= c.1 < 60 && 0 <= c.2 < 60
    ensures c.0 * 3600 + c.1 * 60 + c.2 == ((jd + 0.5 - (jd + 0.5).Floor as real) * 24.0 * 60.0 * 60.0 + 0.00005).Floor
  {
    var f := jd + 0.5 - (jd + 0.5).Floor as real;
    var sd := (f * 24.0 * 60.0 * 60.0 + 0.00005).Floor;
    assert 0 <= sd <= 86400;
    var mt := sd / 60;
    var ss := GoMath.GoRem(sd, 60);
    var hh := mt / 60;
    var mm := GoMath.GoRem(mt, 60);
    assert sd == 60 * mt + ss && mt == 60 * hh + mm;
    (hh, mm, ss)
  }

  /** Julian2Solar's date arithmetic on day jdr counted from its calendar's
    * epoch: centuries of 36524.25 (or 36525) days, years of 365.25 days and
    * months of 30.6 days counted from March, giving year, month and day. */
  function MarchDate(jdr: real, gregorian: bool): (int, int, int)
  {
    var y4h := if gregorian then 146097.0 else 146100.0;
    var yh := y4h / 4.0;
    var cen := ((jdr + 0.75) / yh).Floor as real;
    var da := (jdr + 0.75 - cen * yh).Floor as real;
    var ywl := 1461.0 / 4.0;
    var jy := ((da + 0.75) / ywl).Floor as real;
    var da2 := (da + 0.75 - ywl * jy + 1.0).Floor as real;
    var ml := 153.0 / 5.0;
    var mp := ((da2 - 0.5) / ml).Floor;
    var da3 := ((da2 - 0.5) - 30.6 * mp as real + 1.0).Floor;
    var y := 100.0 * cen + jy;
    var m := GoMath.GoRem(mp + 2, 12) + 1;
    var y2 := if m < 3 then y + 1.0 else y;
    (y2.Floor, m, da3)
  }

  /** Julian2Solar: the calendar of a Julian Day is Gregorian from JD
    * 2299160.5 on; its whole days after that calendar's epoch give the date
    * and its fraction the clock. */
  function SolarOfJd(jd: real): (f: SolarFields)
  {
    var gregorian := jd >= 2299160.5;
    var init := if gregorian then 1721119.5 else 1721117.5;
    var jdr := (jd - init).Floor as real;
    var date := MarchDate(jdr, gregorian);
    var clock := ClockOfJd(jd);
    SolarFields(date.0, date.1, date.2, clock.0, clock.1, clock.2)
  }

  /** The day of the year from March lies in 1..366, so the month is a
    * month and the day a day of it. */
  lemma SolarOfJdRanges(jd: real)
    ensures 1 <= SolarOfJd(jd).month <= 12
    ensures 1 <= SolarOfJd(jd).day <= 31
  {
  }

  /** Julian2Solar on 2021-12-06 at midnight, a Gregorian date. */
  lemma SolarOfJdGregorianVector()
    ensures SolarOfJd(2459554.5) == SolarFields(2021, 12, 6, 0, 0, 0)
  {
    assert (2459554.5 - 1721119.5).Floor == 738435;
    assert ((738435.0 + 0.75) / 36524.25).Floor == 20;
    assert (738435.0 + 0.75 - 20.0 * 36524.25).Floor == 7950;
    assert ((7950.0 + 0.75) / 365.25).Floor == 21;
    assert (7950.0 + 0.75 - 365.25 * 21.0 + 1.0).Floor == 281;
    assert ((281.0 - 0.5) / 30.6).Floor == 9;
    assert ((281.0 - 0.5) - 30.6 * 9.0 + 1.0).Floor == 6;
    assert ClockOfJd(2459554.5) == (0, 0, 0);
  }

  /** Julian2Solar on 1581-01-01 at noon, a Julian-calendar date. */
  lemma SolarOfJdJulianVector()
    ensures SolarOfJd(2298519.0) == SolarFields(1581, 1, 1, 12, 0, 0)
  {
    assert (2298519.0 - 1721117.5).Floor == 577401;
    assert ((577401.0 + 0.75) / 36525.0).Floor == 15;
    assert (577401.0 + 0.75 - 15.0 * 36525.0).Floor == 29526;
    assert ((29526.0 + 0.75) / 365.25).Floor == 80;
    assert (29526.0 + 0.75 - 365.25 * 80.0 + 1.0).Floor == 307;
    assert ((307.0 - 0.5) / 30.6).Floor == 10;
    assert ((307.0 - 0.5) - 30.6 * 10.0 + 1.0).Floor == 1;
    assert ClockOfJd(2298519.0) == (12, 0, 0);
  }

  /** Solar2Julian on the same two dates gives their Julian Days back. */
  lemma SolarToJulianTestVectors()
    ensures SolarToJulian(2021, 12, 6, 0, 0, 0) == 2459554.5
    ensures SolarToJulian(1581, 1, 1, 12, 0, 0) == 2298519.0
  {
    SolarToJulianIsJulianDay(2021, 12, 6, 0, 0, 0);
    SolarToJulianIsJulianDay(1581, 1, 1, 12, 0, 0);
    Julian.TimeOfDayIsLinear(2021, 12, 6, [0.0, 0.0, 0.0]);
    Julian.TimeOfDayIsLinear(1581, 1, 1, [12.0, 0.0, 0.0]);
    Julian.TimeOfDayIsLinear(1581, 1, 1, [12.0]);
    Julian.JulianDayTestVectors();
  }

  // ------------------------------------------- Julian2Solar undoes Solar2Julian

  /** The length of a month in the calendar that uses it: the Julian
    * calendar's every-fourth-year rule for February up to 1582, the plain
    * Gregorian rule after. */
  function SolarMonthDays(year: int, month: int): (days: int)
    requires 1 <= month <= 12
    ensures 28 <= days <= 31
    ensures month != 2 ==> days == DateTime.MonthDaysTable[month - 1]
  {
    if month == 2 && year <= 1582 then (if year % 4 == 0 then 29 else 28)
    else MonthDay(Civil(year, month, 1))
  }

  /** The year from March that starts in `yp` ends with a leap day. */
  predicate MarchYearEndsLeap(yp: int, gregorian: bool)
  {
    if gregorian then IsLeapYear(yp + 1) else (yp + 1) % 4 == 0
  }

  /** Days from the epoch of Solar2Julian to 1 March of the year `yp`. */
  function YearCount(yp: int, gregorian: bool): int
  {
    if gregorian then 365 * yp + GoMath.FloorDiv(yp, 4) - GoMath.FloorDiv(yp, 100) + GoMath.FloorDiv(yp, 400)
    else 365 * yp + GoMath.FloorDiv(yp, 4)
  }

  /** The step Julian2Solar repeats for centuries and for years: with
    * b / 4 days to a unit, the units and the whole days left of n + 0.75. */
  lemma QuarterUnits(n: int, b: int)
    requires b > 0
    ensures ((n as real + 0.75) / (b as real / 4.0)).Floor == (4 * n + 3) / b
    ensures (n as real + 0.75 - ((4 * n + 3) / b) as real * (b as real / 4.0)).Floor == ((4 * n + 3) % b) / 4
    ensures (n as real + 0.75 - (b as real / 4.0) * ((4 * n + 3) / b) as real + 1.0).Floor == ((4 * n + 3) % b) / 4 + 1
  {
    var q, r := (4 * n + 3) / b, (4 * n + 3) % b;
    assert 4 * n + 3 == b * q + r;
    assert (4 * n + 3) as real == b as real * q as real + r as real;
    assert (n as real + 0.75) / (b as real / 4.0) == (4 * n + 3) as real / b as real;
    assert (4 * n + 3) / b == GoMath.FloorDiv(4 * n + 3, b);
    assert n as real + 0.75 - q as real * (b as real / 4.0) == r as real / 4.0;
    assert r / 4 == GoMath.FloorDiv(r, 4);
  }

  /** Within four centuries, the days after 1 March of year j of the
    * century count 4 da + 3 that splits into 1461-day blocks of four years
    * exactly where the years start. */
  lemma YearInCentury(j: int, dd: int)
    requires 0 <= j < 100 && 0 <= dd <= 365
    requires dd == 365 ==> j % 4 == 3
    ensures var da := 365 * j + j / 4 + dd;
            (4 * da + 3) / 1461 == j && ((4 * da + 3) % 1461) / 4 == dd
  {
    var da := 365 * j + j / 4 + dd;
    assert j == 4 * (j / 4) + j % 4;
    assert 4 * da + 3 == 1461 * j + (4 * dd + 3 - j % 4);
    GoMath.EuclidUnique(4 * da + 3, 1461, j, 4 * dd + 3 - j % 4);
    GoMath.EuclidUnique(4 * dd + 3 - j % 4, 4, dd, 3 - j % 4);
  }

  /** The Gregorian day count of a day of the year from March yp splits
    * into 146097-day blocks of four centuries where the centuries start. */
  lemma GregorianCenturies(yp: int, dd: int)
    requires 0 <= dd <= 365
    requires dd == 365 ==> IsLeapYear(yp + 1)
    ensures var n := YearCount(yp, true) + dd;
            var j := yp % 100;
            (4 * n + 3) / 146097 == yp / 100 && ((4 * n + 3) % 146097) / 4 == 365 * j + j / 4 + dd
  {
    var c, j := yp / 100, yp % 100;
    assert yp == 100 * c + j && 0 <= j < 100;
    assert j == 4 * (j / 4) + j % 4;
    GoMath.EuclidUnique(yp, 4, 25 * c + j / 4, j % 4);
    GoMath.EuclidUnique(yp, 400, c / 4, 100 * (c % 4) + j);
    assert dd == 365 && j == 99 ==> c % 4 == 3 by {
      if dd == 365 && j == 99 {
        assert yp + 1 == 100 * (c + 1);
        GoMath.EuclidUnique(yp + 1, 100, c + 1, 0);
        GoMath.EuclidUnique(yp + 1, 400, (c + 1) / 4, 100 * ((c + 1) % 4));
      }
    }
    var n := YearCount(yp, true) + dd;
    var da := 365 * j + j / 4 + dd;
    assert 4 * n + 3 == 146097 * c + 4 * da + (3 - c % 4);
    GoMath.EuclidUnique(4 * n + 3, 146097, c, 4 * da + (3 - c % 4));
    GoMath.EuclidUnique(4 * da + (3 - c % 4), 4, da, 3 - c % 4);
  }

  /** The Julian-calendar day count splits into 146100-day blocks of four
    * centuries where the centuries start. */
  lemma JulianCenturies(yp: int, dd: int)
    requires 0 <= dd <= 365
    ensures var n := YearCount(yp, false) + dd;
            var j := yp % 100;
            (4 * n + 3) / 146100 == yp / 100 && ((4 * n + 3) % 146100) / 4 == 365 * j + j / 4 + dd
  {
    var c, j := yp / 100, yp % 100;
    assert yp == 100 * c + j && 0 <= j < 100;
    assert j == 4 * (j / 4) + j % 4;
    GoMath.EuclidUnique(yp, 4, 25 * c + j / 4, j % 4);
    var n := YearCount(yp, false) + dd;
    var da := 365 * j + j / 4 + dd;
    assert 4 * n + 3 == 146100 * c + 4 * da + 3;
    GoMath.EuclidUnique(4 * n + 3, 146100, c, 4 * da + 3);
    GoMath.EuclidUnique(4 * da + 3, 4, da, 3);
  }

  /** On the days after 1 March of a year, the centuries, years and day of
    * the year Julian2Solar reads off are those of the year. */
  lemma YearOfDayCount(yp: int, dd: int, gregorian: bool)
    requires 0 <= dd <= 365
    requires dd == 365 ==> MarchYearEndsLeap(yp, gregorian)
    ensures var n := YearCount(yp, gregorian) + dd;
            var b := if gregorian then 146097 else 146100;
            var da := ((4 * n + 3) % b) / 4;
            (4 * n + 3) / b == yp / 100
            && (4 * da + 3) / 1461 == yp % 100
            && ((4 * da + 3) % 1461) / 4 == dd
  {
    var j := yp % 100;
    if dd == 365 {
      assert (yp + 1) % 4 == 0;
      LastYearOfFour(yp);
    }
    YearInCentury(j, dd);
    if gregorian {
      GregorianCenturies(yp, dd);
    } else {
      JulianCenturies(yp, dd);
    }
  }

  /** A year from March that ends with a leap day is the last of its four
    * within the century. */
  lemma LastYearOfFour(yp: int)
    requires (yp + 1) % 4 == 0
    ensures (yp % 100) % 4 == 3
  {
    var j := yp % 100;
    assert yp == 100 * (yp / 100) + j;
    GoMath.EuclidUnique(yp + 1, 4, 25 * (yp / 100) + (j + 1) / 4, (j + 1) % 4);
  }

  /** The month lengths of the year from March: March, April, ..., January. */
  const MarchMonthDays: seq<int> := [31, 30, 31, 30, 31, 31, 30, 31, 30, 31, 31]

  /** Within the year from March, Julian2Solar reads the month and the day
    * off the day of the year da2 (1 for 1 March) with 30.6-day months. */
  lemma MonthOfYearDay(mp: int, day: int)
    requires 0 <= mp <= 11 && 1 <= day
    requires mp < 11 ==> day <= MarchMonthDays[mp]
    requires mp == 11 ==> day <= 29
    ensures var da2 := (GoMath.FloorDiv(153 * mp + 2, 5) + day) as real;
            ((da2 - 0.5) / (153.0 / 5.0)).Floor == mp
            && ((da2 - 0.5) - 30.6 * mp as real + 1.0).Floor == day
  {
    var k := GoMath.FloorDiv(153 * mp + 2, 5);
    var x := k as real + day as real - 0.5;
    if mp == 0 { assert k == 0; }
    else if mp == 1 { assert k == 31; }
    else if mp == 2 { assert k == 61; }
    else if mp == 3 { assert k == 92; }
    else if mp == 4 { assert k == 122; }
    else if mp == 5 { assert k == 153; }
    else if mp == 6 { assert k == 184; }
    else if mp == 7 { assert k == 214; }
    else if mp == 8 { assert k == 245; }
    else if mp == 9 { assert k == 275; }
    else if mp == 10 { assert k == 306; }
    else { assert k == 337; }
    assert 30.6 * mp as real <= x < 30.6 * mp as real + 30.6;
    assert x / (153.0 / 5.0) == x / 30.6;
    assert day as real <= x - 30.6 * mp as real + 1.0 < day as real + 1.0;
  }

  /** Julian2Solar's steps on the day count jdr of day `day` of month mp
    * (from March) of the year yp from March: the centuries and years add up
    * to yp, and the month and the day come back. */
  lemma DayCountSteps(jdr: int, greg: bool, b: int, cen: int, da: int, jy: int, da2: int, yp: int, mp: int, day: int)
    requires 0 <= mp <= 11 && 1 <= day
    requires mp < 11 ==> day <= MarchMonthDays[mp]
    requires mp == 11 ==> day <= (if MarchYearEndsLeap(yp, greg) then 29 else 28)
    requires jdr == YearCount(yp, greg) + GoMath.FloorDiv(153 * mp + 2, 5) + day - 1
    requires b == if greg then 146097 else 146100
    requires cen == (4 * jdr + 3) / b && da == ((4 * jdr + 3) % b) / 4
    requires jy == (4 * da + 3) / 1461 && da2 == ((4 * da + 3) % 1461) / 4 + 1
    ensures 100 * cen + jy == yp
    ensures cen == ((jdr as real + 0.75) / (b as real / 4.0)).Floor
    ensures da == (jdr as real + 0.75 - cen as real * (b as real / 4.0)).Floor
    ensures jy == ((da as real + 0.75) / (1461.0 / 4.0)).Floor
    ensures da2 == (da as real + 0.75 - (1461.0 / 4.0) * jy as real + 1.0).Floor
    ensures mp == ((da2 as real - 0.5) / (153.0 / 5.0)).Floor
    ensures day == ((da2 as real - 0.5) - 30.6 * mp as real + 1.0).Floor
  {
    assert 100 * cen + jy == yp && da2 == GoMath.FloorDiv(153 * mp + 2, 5) + day by {
      DayCountOfDate(yp, mp, day, greg);
    }
    QuarterSteps(jdr, b, cen, da, jy, da2);
    MonthOfYearDay(mp, day);
  }

  /** The real-valued quarter-day divisions of Julian2Solar agree with the
    * integer divisions of 4n + 3: centuries, then years of 1461/4 days. */
  lemma QuarterSteps(jdr: int, b: int, cen: int, da: int, jy: int, da2: int)
    requires b > 0
    requires cen == (4 * jdr + 3) / b && da == ((4 * jdr + 3) % b) / 4
    requires jy == (4 * da + 3) / 1461 && da2 == ((4 * da + 3) % 1461) / 4 + 1
    ensures cen == ((jdr as real + 0.75) / (b as real / 4.0)).Floor
    ensures da == (jdr as real + 0.75 - cen as real * (b as real / 4.0)).Floor
    ensures jy == ((da as real + 0.75) / (1461.0 / 4.0)).Floor
    ensures da2 == (da as real + 0.75 - (1461.0 / 4.0) * jy as real + 1.0).Floor
  {
    assert cen == ((jdr as real + 0.75) / (b as real / 4.0)).Floor
           && da == (jdr as real + 0.75 - cen as real * (b as real / 4.0)).Floor by {
      QuarterUnits(jdr, b);
    }
    QuarterUnits(da, 1461);
  }

  /** Month mp counted from March is calendar month (mp + 2) mod 12 + 1. */
  lemma MonthFromMarch(mp: int)
    requires 0 <= mp <= 11
    ensures GoMath.GoRem(mp + 2, 12) + 1 == (if mp >= 10 then mp - 9 else mp + 3)
  {
    if mp >= 10 {
      GoMath.EuclidUnique(mp + 2, 12, 1, mp - 10);
    } else {
      GoMath.EuclidUnique(mp + 2, 12, 0, mp + 2);
    }
  }

  /** The integer steps of Julian2Solar on the day count of day `day` of
    * month mp (from March) of the year yp from March: the centuries and
    * years add up to yp, and the day of the year is that of the date. */
  lemma DayCountOfDate(yp: int, mp: int, day: int, greg: bool)
    requires 0 <= mp <= 11 && 1 <= day
    requires mp < 11 ==> day <= MarchMonthDays[mp]
    requires mp == 11 ==> day <= (if MarchYearEndsLeap(yp, greg) then 29 else 28)
    ensures var k := GoMath.FloorDiv(153 * mp + 2, 5);
            var n := YearCount(yp, greg) + k + day - 1;
            var b := if greg then 146097 else 146100;
            var da := ((4 * n + 3) % b) / 4;
            100 * ((4 * n + 3) / b) + (4 * da + 3) / 1461 == yp
            && ((4 * da + 3) % 1461) / 4 + 1 == k + day
  {
    var k := GoMath.FloorDiv(153 * mp + 2, 5);
    assert 5 * k <= 153 * mp + 2 < 5 * k + 5;
    YearOfDayCount(yp, k + day - 1, greg);
  }

  /** MarchDate on the Gregorian calendar in the steps Julian2Solar takes them. */
  lemma GregorianMarchDate(jdr: int, cen: int, da: int, jy: int, da2: int, mp: int, da3: int)
    requires cen == ((jdr as real + 0.75) / (146097.0 / 4.0)).Floor
    requires da == (jdr as real + 0.75 - cen as real * (146097.0 / 4.0)).Floor
    requires jy == ((da as real + 0.75) / (1461.0 / 4.0)).Floor
    requires da2 == (da as real + 0.75 - (1461.0 / 4.0) * jy as real + 1.0).Floor
    requires mp == ((da2 as real - 0.5) / (153.0 / 5.0)).Floor
    requires da3 == ((da2 as real - 0.5) - 30.6 * mp as real + 1.0).Floor
    ensures var m := GoMath.GoRem(mp + 2, 12) + 1;
            var y := 100 * cen + jy;
            MarchDate(jdr as real, true) == (if m < 3 then y + 1 else y, m, da3)
  {
    var yr := (100 * cen + jy) as real;
    assert 100.0 * cen as real + jy as real == yr;
    assert yr.Floor == 100 * cen + jy;
    assert (yr + 1.0).Floor == 100 * cen + jy + 1;
  }

  /** MarchDate on the Julian calendar in the steps Julian2Solar takes them. */
  lemma JulianMarchDate(jdr: int, cen: int, da: int, jy: int, da2: int, mp: int, da3: int)
    requires cen == ((jdr as real + 0.75) / (146100.0 / 4.0)).Floor
    requires da == (jdr as real + 0.75 - cen as real * (146100.0 / 4.0)).Floor
    requires jy == ((da as real + 0.75) / (1461.0 / 4.0)).Floor
    requires da2 == (da as real + 0.75 - (1461.0 / 4.0) * jy as real + 1.0).Floor
    requires mp == ((da2 as real - 0.5) / (153.0 / 5.0)).Floor
    requires da3 == ((da2 as real - 0.5) - 30.6 * mp as real + 1.0).Floor
    ensures var m := GoMath.GoRem(mp + 2, 12) + 1;
            var y := 100 * cen + jy;
            MarchDate(jdr as real, false) == (if m < 3 then y + 1 else y, m, da3)
  {
    var yr := (100 * cen + jy) as real;
    assert 100.0 * cen as real + jy as real == yr;
    assert yr.Floor == 100 * cen + jy;
    assert (yr + 1.0).Floor == 100 * cen + jy + 1;
  }

  /** The clock of a Julian Day whose fraction after midnight is a clock of
    * whole seconds is that clock. */
  lemma ClockOfWholeSeconds(jd: real, z: int, hour: int, min: int, sec: int)
    requires 0 <= hour < 24 && 0 <= min < 60 && 0 <= sec < 60
    requires jd + 0.5 == z as real + (hour as real + (min as real + sec as real / 60.0) / 60.0) / 24.0
    ensures ClockOfJd(jd) == (hour, min, sec)
  {
    var jdh := (hour as real + (min as real + sec as real / 60.0) / 60.0) / 24.0;
    assert jdh * 86400.0 == (hour * 3600 + min * 60 + sec) as real;
    assert 0.0 <= jdh < 1.0;
    assert (jd + 0.5).Floor == z;
    var c := ClockOfJd(jd);
    assert c.0 * 3600 + c.1 * 60 + c.2 == hour * 3600 + min * 60 + sec;
  }

  /** From 1582-10-15 on, a date is at least 578041 days after the
    * Gregorian epoch of Solar2Julian. */
  lemma GregorianCountFrom(yp: int, mp: int, day: int)
    requires 0 <= mp <= 11 && 1 <= day
    requires yp >= 1583 || (yp == 1582 && (mp >= 8 || (mp == 7 && day >= 15)))
    ensures YearCount(yp, true) + GoMath.FloorDiv(153 * mp + 2, 5) + day - 1 >= 578041
  {
    var k := GoMath.FloorDiv(153 * mp + 2, 5);
    assert 5 * k <= 153 * mp + 2 < 5 * k + 5;
    var q4, q100, q400 := GoMath.FloorDiv(yp, 4), GoMath.FloorDiv(yp, 100), GoMath.FloorDiv(yp, 400);
    assert 4 * q4 <= yp < 4 * q4 + 4;
    assert 100 * q100 <= yp < 100 * q100 + 100;
    assert 400 * q400 <= yp < 400 * q400 + 400;
  }

  /** Up to 1582-10-04, a date is at most 578042 days after the Julian
    * epoch of Solar2Julian. */
  lemma JulianCountUntil(yp: int, mp: int, day: int)
    requires 0 <= mp <= 11 && 1 <= day <= 31
    requires yp <= 1581 || (yp == 1582 && (mp <= 6 || (mp == 7 && day <= 4)))
    ensures YearCount(yp, false) + GoMath.FloorDiv(153 * mp + 2, 5) + day - 1 <= 578042
  {
    var k := GoMath.FloorDiv(153 * mp + 2, 5);
    assert 5 * k <= 153 * mp + 2 < 5 * k + 5;
    var q4 := GoMath.FloorDiv(yp, 4);
    assert 4 * q4 <= yp < 4 * q4 + 4;
  }

  /** Julian2Solar of a Julian Day n whole days after its calendar's epoch
    * plus a clock of whole seconds, where n is the day count of day `day` of
    * month mp (from March) of the year yp from March: that date and clock,
    * with the months counted from January again. */
  lemma SolarOfDayCount(jd: real, n: int, yp: int, mp: int, day: int, hour: int, min: int, sec: int)
    requires 0 <= mp <= 11 && 1 <= day
    requires mp < 11 ==> day <= MarchMonthDays[mp]
    requires mp == 11 ==> day <= (if MarchYearEndsLeap(yp, jd >= 2299160.5) then 29 else 28)
    requires n == YearCount(yp, jd >= 2299160.5) + GoMath.FloorDiv(153 * mp + 2, 5) + day - 1
    requires 0 <= hour < 24 && 0 <= min < 60 && 0 <= sec < 60
    requires jd == n as real + (hour as real + (min as real + sec as real / 60.0) / 60.0) / 24.0
                   + (if jd >= 2299160.5 then 1721119.5 else 1721117.5)
    ensures SolarOfJd(jd) == SolarFields(if mp >= 10 then yp + 1 else yp, GoMath.GoRem(mp + 2, 12) + 1, day, hour, min, sec)
  {
    var greg := jd >= 2299160.5;
    assert (jd - (if greg then 1721119.5 else 1721117.5)).Floor == n;
    MarchDateOfDayCount(n, yp, mp, day, greg);
    MonthFromMarch(mp);
    ClockOfWholeSeconds(jd, n + (if greg then 1721120 else 1721118), hour, min, sec);
  }

  /** MarchDate undoes the day count of day `day` of month mp (from March)
    * of the year yp from March. */
  lemma MarchDateOfDayCount(n: int, yp: int, mp: int, day: int, greg: bool)
    requires 0 <= mp <= 11 && 1 <= day
    requires mp < 11 ==> day <= MarchMonthDays[mp]
    requires mp == 11 ==> day <= (if MarchYearEndsLeap(yp, greg) then 29 else 28)
    requires n == YearCount(yp, greg) + GoMath.FloorDiv(153 * mp + 2, 5) + day - 1
    ensures var m := GoMath.GoRem(mp + 2, 12) + 1;
            MarchDate(n as real, greg) == (if m < 3 then yp + 1 else yp, m, day)
  {
    if greg {
      var cen := (4 * n + 3) / 146097;
      var da := ((4 * n + 3) % 146097) / 4;
      var jy := (4 * da + 3) / 1461;
      var da2 := ((4 * da + 3) % 1461) / 4 + 1;
      DayCountSteps(n, true, 146097, cen, da, jy, da2, yp, mp, day);
      GregorianMarchDate(n, cen, da, jy, da2, mp, day);
    } else {
      var cen := (4 * n + 3) / 146100;
      var da := ((4 * n + 3) % 146100) / 4;
      var jy := (4 * da + 3) / 1461;
      var da2 := ((4 * da + 3) % 1461) / 4 + 1;
      DayCountSteps(n, false, 146100, cen, da, jy, da2, yp, mp, day);
      JulianMarchDate(n, cen, da, jy, da2, mp, day);
    }
  }

  /** Solar2Julian of a date outside the reform gap is its day count after
    * its calendar's epoch plus the clock, and it lies on the side of JD
    * 2299160.5 (1582-10-15 at midnight) that its calendar belongs to. */
  lemma SolarToJulianCount(year: int, month: int, day: int, hour: int, min: int, sec: int)
    requires 1 <= month <= 12 && 1 <= day <= 31
    requires !Julian.InReformGap(year, month, day)
    requires 0 <= hour < 24 && 0 <= min < 60 && 0 <= sec < 60
    ensures var jd := SolarToJulian(year, month, day, hour, min, sec);
            var greg := Julian.IsGregorianDate(year, month, day);
            var yp := if month < 3 then year - 1 else year;
            var mp := if month < 3 then month + 9 else month - 3;
            var n := YearCount(yp, greg) + GoMath.FloorDiv(153 * mp + 2, 5) + day - 1;
            (jd >= 2299160.5) == greg
            && jd == n as real + (hour as real + (min as real + sec as real / 60.0) / 60.0) / 24.0
                     + (if greg then 1721119.5 else 1721117.5)
  {
    var jd := SolarToJulian(year, month, day, hour, min, sec);
    var yp := if month < 3 then year - 1 else year;
    var mp := if month < 3 then month + 9 else month - 3;
    var greg := Julian.IsGregorianDate(year, month, day);
    var jdh := (hour as real + (min as real + sec as real / 60.0) / 60.0) / 24.0;
    var n := YearCount(yp, greg) + GoMath.FloorDiv(153 * mp + 2, 5) + day - 1;
    assert jd == n as real + jdh + (if greg then 1721119.5 else 1721117.5) by {
      MarchYear(year, month);
      MonthTerm(month);
      JulianYearDays(yp);
    }
    assert 0.0 <= jdh < 1.0;
    if greg {
      GregorianCountFrom(yp, mp, day);
    } else {
      JulianCountUntil(yp, mp, day);
    }
  }

  /** Julian2Solar undoes Solar2Julian: a valid date outside the reform gap,
    * with a clock of whole seconds, comes back unchanged. */
  lemma SolarOfJdRoundTrip(year: int, month: int, day: int, hour: int, min: int, sec: int)
    requires 1 <= month <= 12 && 1 <= day <= SolarMonthDays(year, month)
    requires !Julian.InReformGap(year, month, day)
    requires 0 <= hour < 24 && 0 <= min < 60 && 0 <= sec < 60
    ensures SolarOfJd(SolarToJulian(year, month, day, hour, min, sec)) == SolarFields(year, month, day, hour, min, sec)
  {
    var jd := SolarToJulian(year, month, day, hour, min, sec);
    var greg := Julian.IsGregorianDate(year, month, day);
    var yp := if month < 3 then year - 1 else year;
    var mp := if month < 3 then month + 9 else month - 3;
    var n := YearCount(yp, greg) + GoMath.FloorDiv(153 * mp + 2, 5) + day - 1;
    SolarToJulianCount(year, month, day, hour, min, sec);
    assert mp == 11 ==> MarchYearEndsLeap(yp, greg) == (SolarMonthDays(year, month) == 29);
    MonthFromMarch(mp);
    SolarOfDayCount(jd, n, yp, mp, day, hour, min, sec);
  }

  /** Julian2Solar: the Date of a Julian Day, through NewDate (so the year is
    * clamped into 1000..3000). */
  method Julian2Solar(jd: real, now: Civil, week: int) returns (d: Date)
    ensures fresh(d)
    ensures var f := SolarOfJd(jd);
            d.Year == NewDateYear(f.year, now.year) && d.Month == DefaultField(f.month, now.month)
            && d.Day == DefaultField(f.day, now.day)
            && d.Hour == f.hour && d.Min == f.min && d.Sec == f.sec && d.Nsec == 0
            && d.Week == week && d.Loc == Some(Local) && d.Pillars == Some(NoPillars)
  {
    var f := SolarOfJd(jd);
    var fields := new Date(f.year, f.month, f.day, f.hour, f.min, f.sec, 0);
    d := NewDate(fields, now, week);
  }

  // ------------------------------------------------------------ GanZhi

  /** The year of PrevYear: AddDate(-1, 0, 0) on a copy that DateNewCtime gave
    * 1970 for a zero year, clamped by CtimeNewDate. */
  function PrevYearOf(year: int): (r: int)
    ensures 1000 <= r <= 3000
    ensures 1001 <= year <= 3001 ==> r == year - 1
  {
    ClampYear((if year == 0 then 1970 else year) - 1)
  }

  /** The first j in from..15 whose Jie is at or after jd, or 16 when none is. */
  function JieAtOrAfter(jq: seq<real>, jd: real, from: int): (j: int)
    requires |jq| == 16 && 0 <= from <= 16
    ensures from <= j <= 16
    ensures j < 16 ==> jq[j] >= jd
    ensures forall k :: from <= k < j ==> jq[k] < jd
    decreases 16 - from
  {
    if from == 16 then 16 else if jq[from] >= jd then from else JieAtOrAfter(jq, jd, from + 1)
  }

  /** GanZhi's Jie month index: one before the first Jie at or after jd, so
    * that jd lies after Jie ix and not after Jie ix + 1; -1 when jd is not
    * after the first Jie, and 0 when jd is after all 16 (the search then
    * leaves ix untouched). */
  function JieIndex(jq: seq<real>, jd: real): (ix: int)
    requires |jq| == 16
    ensures -1 <= ix <= 14
    ensures ix == -1 <==> jd <= jq[0]
    ensures 0 <= ix ==> (jq[ix] < jd && jd <= jq[ix + 1]) || forall k :: 0 <= k < 16 ==> jq[k] < jd
  {
    var j := JieAtOrAfter(jq, jd, 0);
    if j == 16 then 0 else j - 1
  }

  /** The eight pillar indices GanZhi writes for the Jie of year `year` and
    * the Julian Day jd: the year and month cycles of the Jie year, the day
    * and hour cycles of jd, and, with Zwz at 23 o'clock or later, a night-zi
    * day pillar. As written that pillar is computed from the arrays tg and
    * dz, which are never filled, so it is always (9, 11); `corrected` takes
    * the day before's pillar instead. */
  function PillarsAt(jq: seq<real>, year: int, jd: real, hour: int, zwz: bool, corrected: bool): (gz: TianGanDiZhi)
    requires |jq| == 16
  {
    var ygz := LunarConversion.YearPillarIndex(year);
    var mgz := Sexagenary.MonthPillarIndex(year, JieIndex(jq, jd));
    var dgz := Sexagenary.DayPillarIndex(jd);
    var hgz := Sexagenary.HourPillarIndex(jd);
    var day :=
      if zwz && hour >= 23 then
        (if corrected then ((dgz % 10 + 10 - 1) % 10, (dgz % 12 + 12 - 1) % 12) else ((0 + 10 - 1) % 10, (0 + 12 - 1) % 12))
      else (dgz % 10, dgz % 12);
    TianGanDiZhi(ygz % 10, ygz % 12, GoMath.GoRem(mgz, 10), GoMath.GoRem(mgz, 12), day.0, day.1, hgz % 10, hgz % 12)
  }

  /** GanZhi of a date and time: no pillars for the reform gap; otherwise the
    * pillars in the Jie year of the date, which is the year before when the
    * date comes before the year's Start of Spring (Jie 1). */
  function GanZhiOf(eph: LegacyEphemeris, year: int, month: int, day: int, hour: int, min: int, sec: int, zwz: bool, corrected: bool): TianGanDiZhi
  {
    var jd := SolarToJulian(year, month, day, hour, min, sec);
    if jd == 0.0 then NoPillars
    else
      var jieYear := if jd < PureJQ(eph, year)[1] then PrevYearOf(year) else year;
      PillarsAt(PureJQ(eph, jieYear), jieYear, jd, hour, zwz, corrected)
  }

  /** Outside the night-zi hour the year, day and hour pillars of GanZhi are
    * those of chinesecalendar.go, and for a year from 4712 BC on and a
    * month index past the first Jie the month branch is Yin (2) for the
    * month after the Start of Spring, and the month stem follows the year
    * stem. */
  lemma PillarsAtAgree(jq: seq<real>, year: int, jd: real, hour: int, zwz: bool, corrected: bool)
    requires |jq| == 16 && year + 4712 >= 0
    ensures var gz := PillarsAt(jq, year, jd, hour, zwz, corrected);
            var ix := JieIndex(jq, jd);
            var ys := LunarConversion.YearPillarIndex(year) % 10;
            gz.ytg == Sexagenary.Pillar(LunarConversion.YearPillarIndex(year)).hsi
            && gz.ydz == Sexagenary.Pillar(LunarConversion.YearPillarIndex(year)).ebi
            && gz.htg == Sexagenary.Pillar(Sexagenary.HourPillarIndex(jd)).hsi
            && gz.hdz == Sexagenary.Pillar(Sexagenary.HourPillarIndex(jd)).ebi
            && gz.mdz == (ix + 1) % 12
            && gz.mtg == (2 * ys + 2 + (ix - 1) + 10) % 10
            && (!(zwz && hour >= 23) ==>
                  (gz.dtg == Sexagenary.Pillar(Sexagenary.DayPillarIndex(jd)).hsi
                   && gz.ddz == Sexagenary.Pillar(Sexagenary.DayPillarIndex(jd)).ebi))
  {
    Sexagenary.MonthPillarRules(year, JieIndex(jq, jd));
  }

  /** As written, the night-zi day pillar is (9, 11) whatever the day: on
    * 2021-05-06 at 23:50 its day is Yi-Mao (1, 3), whose night-zi pillar is
    * Jia-Yin (0, 2), yet GanZhi gives Gui-Hai. */
  lemma NightZiAsWritten(jq: seq<real>, year: int, jd: real, hour: int)
    requires |jq| == 16 && hour >= 23
    ensures var gz := PillarsAt(jq, year, jd, hour, true, false);
            gz.dtg == 9 && gz.ddz == 11
    ensures var jd0 := 2459340.5 + 23.0 / 24.0 + 50.0 / 1440.0;
            var gz := PillarsAt(jq, year, jd0, 23, true, false);
            var intended := Sexagenary.NightZiDay(Sexagenary.Pillar(Sexagenary.DayPillarIndex(jd0)));
            Sexagenary.DayPillarIndex(jd0) == 51 && intended.hsi == 0 && intended.ebi == 2
            && (gz.dtg, gz.ddz) != (intended.hsi, intended.ebi)
  {
    Sexagenary.PillarTestVectors();
  }

  /** Corrected, Zwz at 23 o'clock or later gives the pillar of the day before,
    * as chinesecalendar.go's nightZiHour does. */
  lemma NightZiCorrected(jq: seq<real>, year: int, jd: real, hour: int)
    requires |jq| == 16 && hour >= 23
    ensures var gz := PillarsAt(jq, year, jd, hour, true, true);
            var n := Sexagenary.DayPillarIndex(jd);
            var back := Sexagenary.Pillar((n + 59) % 60);
            gz.dtg == back.hsi && gz.ddz == back.ebi
            && gz.dtg == Sexagenary.NightZiDay(Sexagenary.Pillar(n)).hsi
            && gz.ddz == Sexagenary.NightZiDay(Sexagenary.Pillar(n)).ebi
  {
    Sexagenary.NightZiDayStepsBack(Sexagenary.DayPillarIndex(jd));
  }

  /** GanZhi's search for the Jie month index. */
  method FindJieIndex(jq: seq<real>, jd: real) returns (ix: int)
    requires |jq| == 16
    ensures ix == JieIndex(jq, jd)
  {
    ix := 0;
    var j := 0;
    while j <= 15
      invariant 0 <= j <= 16 && ix == 0
      invariant JieAtOrAfter(jq, jd, j) == JieAtOrAfter(jq, jd, 0)
    {
      if jq[j] >= jd {
        ix := j - 1;
        break;
      }
      j := j + 1;
    }
  }

  /** GanZhi: writes the Date's pillars, with the night-zi day pillar
    * stepped back from the day's own pillar (`corrected`; as written the
    * step starts from the unfilled arrays tg and dz, see NightZiAsWritten). */
  method GanZhi(d: Date, eph: LegacyEphemeris, zwz: bool)
    modifies d`Pillars
    ensures d.Pillars == Some(GanZhiOf(eph, d.Year, d.Month, d.Day, d.Hour, d.Min, d.Sec, zwz, true))
  {
    var jd := Solar2Julian(d);
    if jd == 0.0 {
      d.Pillars := Some(NoPillars);
      return;
    }
    var year := d.Year;
    var jq := PureJQ(eph, year);
    if jd < jq[1] {
      year := PrevYearOf(d.Year);
      jq := PureJQ(eph, year);
    }
    var ygz := LunarConversion.YearPillarIndex(year);
    var ix := FindJieIndex(jq, jd);
    var mgz := Sexagenary.MonthPillarIndex(year, ix);
    var dgz := Sexagenary.DayPillarIndex(jd);
    var dtg, ddz := dgz % 10, dgz % 12;
    if zwz && d.Hour >= 23 {
      dtg := (dtg + 10 - 1) % 10;
      ddz := (ddz + 12 - 1) % 12;
    }
    var hgz := Sexagenary.HourPillarIndex(jd);
    d.Pillars := Some(TianGanDiZhi(ygz % 10, ygz % 12, GoMath.GoRem(mgz, 10), GoMath.GoRem(mgz, 12), dtg, ddz, hgz % 10, hgz % 12));
  }

  // ------------------------------------------------------------ year tables

  /** Values in China time taken back to universal time. */
  function Unshift(s: seq<real>): (u: seq<real>)
    ensures |u| == |s|
    ensures forall k :: 0 <= k < |s| ==> u[k] + ChineseTimeOffsetDays == s[k]
  {
    seq(|s|, k requires 0 <= k < |s| => s[k] - ChineseTimeOffsetDays)
  }

  /** The day of a value in China time is the LocalDay of its universal time. */
  lemma UnshiftDay(s: seq<real>, k: int)
    requires 0 <= k < |s|
    ensures (s[k] + 0.5).Floor == LocalDay(Unshift(s)[k])
  {
    assert Unshift(s)[k] + 0.5 + ChineseTimeOffsetDays == s[k] + 0.5;
  }

  /** The 15 Zhongqi as the 16-entry window of chinesecalendar.go (the last
    * entry is never read). */
  function ZhongqiWindow(jdzq: seq<real>): (qss: seq<real>)
    requires |jdzq| == 15
    ensures |qss| == 16
  {
    Unshift(jdzq) + [0.0]
  }

  /** sMsinceWinterSolstice's window. The search overwrites kj on every step,
    * so it ends on the first new moon falling on a later day than the
    * solstice, or on 18 when none does; the copy then reads tjd[kj - 1 + k]
    * for k in 0..15, outside the 20 new moons unless kj is 1..5. */
  function LegacyWindow(tjd: seq<real>, jdws: real): (r: Result<seq<real>, CalendarError>)
    requires |tjd| == 20
  {
    var f := FirstLaterFrom(tjd, jdws, 0);
    var kj := if f == 19 then 18 else f;
    if 1 <= kj && kj + 14 <= 19 then Success(tjd[kj - 1..kj + 15]) else Failure(IndexOutOfRange)
  }

  /** Ending on 18 rather than 0 changes nothing: both fail, so the legacy
    * window is chinesecalendar.go's for every list of new moons. */
  lemma LegacyWindowIsNewMoonWindow(tjd: seq<real>, jdws: real)
    requires |tjd| == 20
    ensures LegacyWindow(tjd, jdws) == NewMoonWindow(tjd, jdws)
    ensures FirstLaterFrom(tjd, jdws, 0) == 19 ==> LegacyWindow(tjd, jdws).Failure?
  {
    var f := FirstLaterFrom(tjd, jdws, 0);
    if 1 <= f <= 5 {
      assert WindowIndex(tjd, jdws) == f;
      assert LegacyWindow(tjd, jdws) == Success(tjd[f - 1..f + 15]) == NewMoonWindow(tjd, jdws);
    } else {
      assert LegacyWindow(tjd, jdws).Failure? && NewMoonWindow(tjd, jdws).Failure?;
    }
  }

  /** The search of sMsinceWinterSolstice: kj is set on every step and the
    * loop stops at the first new moon on a later day than the solstice. */
  method FindWindowStart(tjd: seq<real>, jdws: real) returns (kj: int)
    requires |tjd| == 20
    ensures kj == (var f := FirstLaterFrom(tjd, jdws, 0); if f == 19 then 18 else f)
  {
    kj := 0;
    var j := 0;
    while j <= 18
      invariant 0 <= j <= 19 && kj == (if j == 0 then 0 else j - 1)
      invariant FirstLaterFrom(tjd, jdws, j) == FirstLaterFrom(tjd, jdws, 0)
    {
      kj := j;
      if (tjd[j] + 0.5).Floor > (jdws + 0.5).Floor {
        return;
      }
      j := j + 1;
    }
  }

  /** The copy of sMsinceWinterSolstice: 16 new moons from tjd[kj - 1]. Its
    * first read is tjd[kj - 1] and its last tjd[kj + 14], so it panics
    * unless both lie in the 20 new moons. */
  method CopyWindow(tjd: seq<real>, kj: int) returns (r: Result<seq<real>, CalendarError>)
    requires |tjd| == 20
    ensures r == if 1 <= kj && kj + 14 <= 19 then Success(tjd[kj - 1..kj + 15]) else Failure(IndexOutOfRange)
  {
    if !(0 <= kj - 1 && kj + 14 < 20) {
      return Failure(IndexOutOfRange);
    }
    var jdnm: seq<real> := [];
    var k := 0;
    while k <= 15
      invariant 0 <= k <= 16 && jdnm == tjd[kj - 1..kj - 1 + k]
    {
      jdnm := jdnm + [tjd[kj - 1 + k]];
      k := k + 1;
    }
    r := Success(jdnm);
  }

  /** sMsinceWinterSolstice over the 20 new moons of the year. */
  method SMsinceWinterSolstice(eph: LegacyEphemeris, year: int, jdws: real) returns (r: Result<seq<real>, CalendarError>)
    ensures r == LegacyWindow(NewMoons(eph, year), jdws)
  {
    var tjd := NewMoons(eph, year);
    var kj := FindWindowStart(tjd, jdws);
    r := CopyWindow(tjd, kj);
  }

  /** zQandSMandLunarMonthCode's test that lunation i holds no Zhongqi, on
    * values already in China time. */
  predicate LegacyNoQi(jdzq: seq<real>, jdnm: seq<real>, i: int, yz: int)
    requires |jdzq| == 15 && |jdnm| == 16 && 1 <= i <= 14 && 0 <= yz <= 1 && i - 1 - yz >= 0
  {
    jdnm[i] + 0.5 > (jdzq[i - 1 - yz] + 0.5).Floor as real && (jdnm[i + 1] + 0.5).Floor <= (jdzq[i - yz] + 0.5).Floor
  }

  /** The legacy test is chinesecalendar.go's NoQi on the values taken back
    * to universal time. */
  lemma LegacyNoQiIsNoQi(jdzq: seq<real>, jdnm: seq<real>, i: int, yz: int)
    requires |jdzq| == 15 && |jdnm| == 16 && 1 <= i <= 14 && 0 <= yz <= 1 && i - 1 - yz >= 0
    ensures LegacyNoQi(jdzq, jdnm, i, yz) == NoQi(ZhongqiWindow(jdzq), Unshift(jdnm), i, yz)
  {
    var qss := ZhongqiWindow(jdzq);
    assert qss[i - 1 - yz] == Unshift(jdzq)[i - 1 - yz] && qss[i - yz] == Unshift(jdzq)[i - yz];
    UnshiftDay(jdzq, i - 1 - yz);
    UnshiftDay(jdzq, i - yz);
    UnshiftDay(jdnm, i + 1);
    assert Unshift(jdnm)[i] + 0.5 + ChineseTimeOffsetDays == jdnm[i] + 0.5;
  }

  /** The legacy test for 13 lunations between the solstices is LeapYearWindow. */
  lemma LegacyLeapYearWindow(jdzq: seq<real>, jdnm: seq<real>)
    requires |jdzq| == 15 && |jdnm| == 16
    ensures ((jdzq[12] + 0.5).Floor >= (jdnm[13] + 0.5).Floor) == LeapYearWindow(ZhongqiWindow(jdzq), Unshift(jdnm))
  {
    assert ZhongqiWindow(jdzq)[12] == Unshift(jdzq)[12];
    UnshiftDay(jdzq, 12);
    UnshiftDay(jdnm, 13);
  }

  /** The legacy loop over slots lo..14 with the leap flag yz. */
  method LegacyCodesFrom(jdzq: seq<real>, jdnm: seq<real>, mc0: seq<real>, lo: int) returns (mc: seq<real>)
    requires |jdzq| == 15 && |jdnm| == 16 && |mc0| == 15
    requires lo == (if LeapYearWindow(ZhongqiWindow(jdzq), Unshift(jdnm)) then 1 else 13)
    requires forall j :: 0 <= j < lo ==> mc0[j] == j as real
    ensures mc == MonthCodes(ZhongqiWindow(jdzq), Unshift(jdnm))
  {
    ghost var qss, nm := ZhongqiWindow(jdzq), Unshift(jdnm);
    ghost var f := LeapIndex(qss, nm);
    mc := mc0;
    var yz := 0;
    var i := lo;
    while i <= 14
      invariant lo <= i <= 15 && |mc| == 15
      invariant yz == (if f < i then 1 else 0)
      invariant forall j :: 0 <= j < i ==> mc[j] == CodeAt(qss, nm, f, j)
    {
      LegacyNoQiIsNoQi(jdzq, jdnm, i, yz);
      if LegacyNoQi(jdzq, jdnm, i, yz) {
        assert yz == 0 ==> i == f;
        mc := mc[i := i as real - 0.5];
        yz := 1;
      } else {
        assert yz == 0 ==> i < f;
        mc := mc[i := (i - yz) as real];
      }
      i := i + 1;
    }
  }

  /** The month codes of zQandSMandLunarMonthCode: those of chinesecalendar.go
    * for the same window taken back to universal time. */
  method LegacyFillCodes(jdzq: seq<real>, jdnm: seq<real>) returns (mc: seq<real>)
    requires |jdzq| == 15 && |jdnm| == 16
    ensures mc == MonthCodes(ZhongqiWindow(jdzq), Unshift(jdnm))
  {
    mc := seq(15, _ => 0.0);
    LegacyLeapYearWindow(jdzq, jdnm);
    if (jdzq[12] + 0.5).Floor >= (jdnm[13] + 0.5).Floor {
      mc := LegacyCodesFrom(jdzq, jdnm, mc, 1);
    } else {
      var i := 0;
      while i <= 12
        invariant 0 <= i <= 13 && |mc| == 15
        invariant forall j :: 0 <= j < i ==> mc[j] == j as real
      {
        mc := mc[i := i as real];
        i := i + 1;
      }
      mc := LegacyCodesFrom(jdzq, jdnm, mc, 13);
    }
  }

  /** The Zhongqi, the window of new moons and the month codes of a year, or
    * the window's index panic. */
  function LegacyTable(eph: LegacyEphemeris, year: int): (r: Result<(seq<real>, seq<real>, seq<real>), CalendarError>)
    ensures r.Success? <==> NewMoonWindow(NewMoons(eph, year), ZQ(eph, year)[0]).Success?
    ensures r.Success? ==> |r.value.0| == 15 && |r.value.1| == 16 && |r.value.2| == 15
    ensures r.Success? ==> r.value.0 == ZQ(eph, year) && r.value.1 == NewMoonWindow(NewMoons(eph, year), ZQ(eph, year)[0]).value
    ensures r.Success? ==> r.value.2 == MonthCodes(ZhongqiWindow(r.value.0), Unshift(r.value.1))
  {
    var zq := ZQ(eph, year);
    LegacyWindowIsNewMoonWindow(NewMoons(eph, year), zq[0]);
    var w := LegacyWindow(NewMoons(eph, year), zq[0]);
    if w.Failure? then Failure(w.error) else Success((zq, w.value, MonthCodes(ZhongqiWindow(zq), Unshift(w.value))))
  }

  /** zQandSMandLunarMonthCode. */
  method ZQandSMandLunarMonthCode(eph: LegacyEphemeris, year: int) returns (r: Result<(seq<real>, seq<real>, seq<real>), CalendarError>)
    ensures r == LegacyTable(eph, year)
  {
    var jdzq := ZQ(eph, year);
    var w := SMsinceWinterSolstice(eph, year, jdzq[0]);
    if w.Failure? {
      return Failure(w.error);
    }
    var jdnm := w.value;
    var mc := LegacyFillCodes(jdzq, jdnm);
    r := Success((jdzq, jdnm, mc));
  }

  // ------------------------------------------------------------ LunarDate

  /** The names of a lunar year's stem, branch and animal. */
  datatype GanZhiNames = GanZhiNames(gan: string, zhi: string, animal: string)

  /** date.go's LunarDate struct. */
  class LunarDate {
    var Year: int
    var Month: int
    var Day: int
    var Hour: int
    var Min: int
    var Sec: int
    var Nsec: int
    var Week: int
    var MonthDays: int
    var LeapYear: int
    var LeapMonth: int
    var Loc: Option<Location>
    var YearGanZi: Option<GanZhiNames>

    /** A LunarDate literal with the given fields and every other field zero. */
    constructor (year: int, month: int, day: int, hour: int, min: int, sec: int, loc: Option<Location>)
      ensures Year == year && Month == month && Day == day && Hour == hour && Min == min && Sec == sec && Loc == loc
      ensures Nsec == 0 && Week == 0 && MonthDays == 0 && LeapYear == 0 && LeapMonth == 0 && YearGanZi == None
    {
      Year, Month, Day, Hour, Min, Sec, Loc := year, month, day, hour, min, sec, loc;
      Nsec, Week, MonthDays, LeapYear, LeapMonth, YearGanZi := 0, 0, 0, 0, 0, None;
    }
  }

  // ------------------------------------------------------------ month lengths

  /** LunarDays' and Lunar2Solar's nofd: the days of the 15 lunations. */
  function Nofd(jdnm: seq<real>): (nofd: seq<int>)
    requires |jdnm| == 16
    ensures |nofd| == 15
  {
    seq(15, i requires 0 <= i < 15 => (jdnm[i + 1] + 0.5).Floor - (jdnm[i] + 0.5).Floor)
  }

  /** They are chinesecalendar.go's month lengths of the same lunations. */
  lemma NofdIsMonthLengths(jdnm: seq<real>)
    requires |jdnm| == 16
    ensures Nofd(jdnm) == LunarConversion.MonthLengths(Unshift(jdnm))
  {
    forall i | 0 <= i < 15
      ensures Nofd(jdnm)[i] == LunarConversion.MonthLengths(Unshift(jdnm))[i]
    {
      UnshiftDay(jdnm, i);
      UnshiftDay(jdnm, i + 1);
    }
  }

  /** The loop filling nofd. */
  method NofdOf(jdnm: seq<real>) returns (nofd: seq<int>)
    requires |jdnm| == 16
    ensures nofd == Nofd(jdnm)
  {
    nofd := [];
    var i := 0;
    while i <= 14
      invariant 0 <= i <= 15 && |nofd| == i
      invariant forall j :: 0 <= j < i ==> nofd[j] == (jdnm[j + 1] + 0.5).Floor - (jdnm[j] + 0.5).Floor
    {
      nofd := nofd + [(jdnm[i + 1] + 0.5).Floor - (jdnm[i] + 0.5).Floor];
      i := i + 1;
    }
  }

  /** The lunation LunarDays and Lunar2Solar read for month mm - 2 of a year
    * whose leap slot is `leap`, or None when a leap month is asked of a year
    * without one or for another month (then LunarDays gives 0 and Lunar2Solar
    * an empty Date). LeapMonth counts as leap only when it is 1. */
  function LegacyMonthIndex(leap: int, mm: int, leapMonth: int): (k: Option<int>)
  {
    if leapMonth == 1 then
      if leap < 3 then None else if leap != mm then None else Some(mm)
    else if leap == 0 then Some(mm - 1)
    else Some(mm + B2i(mm > leap) - 1)
  }

  /** The legacy lunation is chinesecalendar.go's TargetSlot: None exactly
    * where TargetSlot reports that the year or the month is not leap. */
  lemma LegacyMonthIndexIsTargetSlot(leap: int, mm: int, leapMonth: int)
    ensures var t := LunarConversion.TargetSlot(leap, mm, leapMonth == 1);
            (LegacyMonthIndex(leap, mm, leapMonth).None? <==> t.Failure?)
            && (t.Success? ==> LegacyMonthIndex(leap, mm, leapMonth) == Some(t.value))
  {
  }

  /** LunarDays over a year table: the days of the lunation, 0 for a leap
    * month the year does not have, or the index panic. */
  function LegacyMonthDays(jdnm: seq<real>, mc: seq<real>, month: int, leapMonth: int): (r: Result<int, CalendarError>)
    requires |jdnm| == 16 && |mc| == 15
  {
    var k := LegacyMonthIndex(LeapSlot(mc), month + 2, leapMonth);
    if k.None? then Success(0)
    else if !(0 <= k.value < 15) then Failure(IndexOutOfRange)
    else Success(Nofd(jdnm)[k.value])
  }

  /** LunarDays agrees with chinesecalendar.go's month length of the same
    * window, except that it gives 0 where that reports a non-leap year or
    * month. */
  lemma LegacyMonthDaysAgree(jdnm: seq<real>, mc: seq<real>, month: int, leapMonth: int)
    requires |jdnm| == 16 && |mc| == 15
    ensures var n := LunarConversion.MonthDaysOf(Unshift(jdnm), mc, month, leapMonth == 1);
            var l := LegacyMonthDays(jdnm, mc, month, leapMonth);
            (n.Success? ==> l == n)
            && (n.Failure? && n.error == IndexOutOfRange ==> l == n)
            && (n.Failure? && n.error != IndexOutOfRange ==> l == Success(0))
  {
    LegacyMonthIndexIsTargetSlot(LeapSlot(mc), month + 2, leapMonth);
    NofdIsMonthLengths(jdnm);
  }

  function LegacyMonthDaysOf(eph: LegacyEphemeris, year: int, month: int, leapMonth: int): (r: Result<int, CalendarError>)
  {
    var t := LegacyTable(eph, year);
    if t.Failure? then Failure(t.error) else LegacyMonthDays(t.value.1, t.value.2, month, leapMonth)
  }

  /** LunarDays over the year table it fetched: the leap slot, the month
    * lengths nofd and the slot of the month. */
  method LunarDaysInTable(jdnm: seq<real>, mc: seq<real>, month: int, leapMonth: int) returns (r: Result<int, CalendarError>)
    requires |jdnm| == 16 && |mc| == 15
    ensures r == LegacyMonthDays(jdnm, mc, month, leapMonth)
  {
    var leap := McLeap(mc);
    var mm := month + 2;
    var nofd := NofdOf(jdnm);
    if leapMonth == 1 {
      if leap < 3 {
        return Success(0);
      } else if leap != mm {
        return Success(0);
      } else if !(0 <= mm < 15) {
        return Failure(IndexOutOfRange);
      }
      r := Success(nofd[mm]);
    } else {
      var k := if leap == 0 then mm - 1 else mm + B2i(mm > leap) - 1;
      if !(0 <= k < 15) {
        return Failure(IndexOutOfRange);
      }
      r := Success(nofd[k]);
    }
  }

  /** LunarDays: the days of the LunarDate's month. */
  method LunarDays(ld: LunarDate, eph: LegacyEphemeris) returns (r: Result<int, CalendarError>)
    ensures r == LegacyMonthDaysOf(eph, ld.Year, ld.Month, ld.LeapMonth)
  {
    var t := ZQandSMandLunarMonthCode(eph, ld.Year);
    if t.Failure? {
      return Failure(t.error);
    }
    r := LunarDaysInTable(t.value.1, t.value.2, ld.Month, ld.LeapMonth);
  }

  // ------------------------------------------------------------ leap

  /** leap(): the month a year's leap month follows, max(0, slot - 2). */
  function LegacyLeapOf(eph: LegacyEphemeris, year: int): (r: Result<int, CalendarError>)
    ensures r.Success? <==> LegacyTable(eph, year).Success?
    ensures r.Success? ==> 0 <= r.value <= 12
  {
    var t := LegacyTable(eph, year);
    if t.Failure? then Failure(t.error)
    else
      LeapSlotOfMonthCodes(ZhongqiWindow(t.value.0), Unshift(t.value.1));
      var leap := LeapSlot(t.value.2);
      Success(if leap - 2 > 0 then leap - 2 else 0)
  }

  /** leap()'s value is the leap month of the year the window's month codes
    * describe: a positive value is the first month whose code carries the
    * leap half, counted from the first month after the winter-solstice
    * month, and 0 says the window has no leap month after that month. */
  lemma LegacyLeapOfMeaning(eph: LegacyEphemeris, year: int)
    requires LegacyTable(eph, year).Success?
    ensures var r := LegacyLeapOf(eph, year);
            var mc := LegacyTable(eph, year).value.2;
            (r.value > 0 ==> IsLeapCode(mc[r.value + 2]) && forall i :: 0 <= i < r.value + 2 ==> !IsLeapCode(mc[i]))
            && (r.value == 0 <==> LeapSlot(mc) <= 2)
  {
    var t := LegacyTable(eph, year);
    var qss, nm := ZhongqiWindow(t.value.0), Unshift(t.value.1);
    LeapSlotOfMonthCodes(qss, nm);
    var f := LeapIndex(qss, nm);
    if f < 15 {
      MonthCodesLeaps(qss, nm, f);
      MonthCodesShape(qss, nm);
    }
  }

  /** leap(): sets LeapYear and returns it. */
  method Leap(ld: LunarDate, eph: LegacyEphemeris) returns (r: Result<int, CalendarError>)
    modifies ld`LeapYear
    ensures r == LegacyLeapOf(eph, ld.Year)
    ensures ld.LeapYear == (if r.Success? then r.value else old(ld.LeapYear))
  {
    var t := ZQandSMandLunarMonthCode(eph, ld.Year);
    if t.Failure? {
      return Failure(t.error);
    }
    var leap := McLeap(t.value.2);
    var lm := if leap - 2 > 0 then leap - 2 else 0;
    ld.LeapYear := lm;
    r := Success(lm);
  }

  // ------------------------------------------------------------ Lunar2Solar

  /** Lunar2Solar over a year table: the Julian Day of day `day` of the month
    * (the new moon's instant in China time plus day - 1), None where the
    * source returns an empty Date, or the index panic. As written the leap
    * branch compares the month, not the day, with the month's length;
    * `corrected` compares the day, as the other branches do. */
  function LegacyLunarJd(jdnm: seq<real>, mc: seq<real>, month: int, day: int, leapMonth: int, corrected: bool): (r: Result<Option<real>, CalendarError>)
    requires |jdnm| == 16 && |mc| == 15
  {
    var k := LegacyMonthIndex(LeapSlot(mc), month + 2, leapMonth);
    if k.None? then Success(None)
    else if !(0 <= k.value < 15) then Failure(IndexOutOfRange)
    else
      var checked := if leapMonth == 1 && !corrected then month else day;
      if checked <= Nofd(jdnm)[k.value] then Success(Some(jdnm[k.value] + day as real - 1.0)) else Success(None)
  }

  /** Corrected, Lunar2Solar gives a Julian Day exactly for a month the year
    * has (chinesecalendar.go's TargetSlot) and a day within its length; the
    * Julian Day is then that many days into the lunation, and for a day from
    * 1 on its China-time day lies in the lunation. */
  lemma LegacyLunarJdCorrected(jdnm: seq<real>, mc: seq<real>, month: int, day: int, leapMonth: int)
    requires |jdnm| == 16 && |mc| == 15
    ensures var r := LegacyLunarJd(jdnm, mc, month, day, leapMonth, true);
            var t := LunarConversion.TargetSlot(LeapSlot(mc), month + 2, leapMonth == 1);
            ((r.Success? && r.value.Some?) <==>
               (t.Success? && 0 <= t.value < 15 && day <= LunarConversion.MonthLengths(Unshift(jdnm))[t.value]))
            && (r.Success? && r.value.Some? ==>
                  r.value.value == jdnm[t.value] + day as real - 1.0
                  && (1 <= day ==> LunarConversion.InSlot(Unshift(jdnm), (r.value.value + 0.5).Floor, t.value)))
  {
    LegacyMonthIndexIsTargetSlot(LeapSlot(mc), month + 2, leapMonth);
    NofdIsMonthLengths(jdnm);
    var r := LegacyLunarJd(jdnm, mc, month, day, leapMonth, true);
    if r.Success? && r.value.Some? {
      var k := LunarConversion.TargetSlot(LeapSlot(mc), month + 2, leapMonth == 1).value;
      var jd := r.value.value;
      assert (jd + 0.5).Floor == (jdnm[k] + 0.5).Floor + day - 1;
      UnshiftDay(jdnm, k);
      UnshiftDay(jdnm, k + 1);
    }
  }

  /** As written, a day past the end of a leap month is accepted: asked for
    * day 30 of a 29-day leap month, Lunar2Solar gives the first day of the
    * next lunation, where the corrected rule gives the empty Date. */
  lemma LegacyLeapDayOverflow(jdnm: seq<real>, mc: seq<real>, month: int, day: int)
    requires |jdnm| == 16 && |mc| == 15
    requires LeapSlot(mc) == month + 2 && 3 <= month + 2 <= 14
    requires month <= Nofd(jdnm)[month + 2] < day
    ensures LegacyLunarJd(jdnm, mc, month, day, 1, false) == Success(Some(jdnm[month + 2] + day as real - 1.0))
    ensures LegacyLunarJd(jdnm, mc, month, day, 1, true) == Success(None)
    ensures (jdnm[month + 2] + day as real - 1.0 + 0.5).Floor >= (jdnm[month + 3] + 0.5).Floor
  {
    assert (jdnm[month + 2] + day as real - 1.0 + 0.5).Floor == (jdnm[month + 2] + 0.5).Floor + day - 1;
  }

  function LegacyLunarJdOf(eph: LegacyEphemeris, year: int, month: int, day: int, leapMonth: int, corrected: bool): (r: Result<Option<real>, CalendarError>)
  {
    var t := LegacyTable(eph, year);
    if t.Failure? then Failure(t.error) else LegacyLunarJd(t.value.1, t.value.2, month, day, leapMonth, corrected)
  }

  /** The empty Date `new(Date)` is. */
  predicate IsEmptyDate(d: Date)
    reads d
  {
    d.Year == 0 && d.Month == 0 && d.Day == 0 && d.Hour == 0 && d.Min == 0 && d.Sec == 0 && d.Nsec == 0
    && d.Week == 0 && d.Loc == None && d.Pillars == None
  }

  /** The Julian Day Lunar2Solar computes from a year table, with the leap
    * branch comparing the day (`corrected`; as written it compares the
    * month, see LegacyLeapDayOverflow). */
  method LunarJdInTable(jdnm: seq<real>, mc: seq<real>, month: int, day: int, leapMonth: int) returns (r: Result<Option<real>, CalendarError>)
    requires |jdnm| == 16 && |mc| == 15
    ensures r == LegacyLunarJd(jdnm, mc, month, day, leapMonth, true)
  {
    var leap := McLeap(mc);
    var mm := month + 2;
    var nofd := NofdOf(jdnm);
    if leapMonth == 1 {
      if leap < 3 {
        return Success(None);
      } else if leap != mm {
        return Success(None);
      } else if !(0 <= mm < 15) {
        return Failure(IndexOutOfRange);
      } else if day <= nofd[mm] {
        return Success(Some(jdnm[mm] + day as real - 1.0));
      }
      return Success(None);
    }
    var k := if leap == 0 then mm - 1 else mm + B2i(mm > leap) - 1;
    if !(0 <= k < 15) {
      return Failure(IndexOutOfRange);
    } else if day <= nofd[k] {
      return Success(Some(jdnm[k] + day as real - 1.0));
    }
    r := Success(None);
  }

  /** Lunar2Solar: the Date of a LunarDate, with the lunar date's clock and
    * location and its pillars recomputed; an empty Date where the month or
    * day does not exist. */
  method Lunar2Solar(ld: LunarDate, eph: LegacyEphemeris, zwz: bool, now: Civil, week: int) returns (r: Result<Date, CalendarError>)
    ensures var o := LegacyLunarJdOf(eph, ld.Year, ld.Month, ld.Day, ld.LeapMonth, true);
            (r.Failure? <==> o.Failure?)
            && (r.Success? ==> fresh(r.value))
            && (r.Success? && o.value.None? ==> IsEmptyDate(r.value))
            && (r.Success? && o.value.Some? ==>
                  var f := SolarOfJd(o.value.value);
                  var d := r.value;
                  d.Year == NewDateYear(f.year, now.year) && d.Month == DefaultField(f.month, now.month)
                  && d.Day == DefaultField(f.day, now.day)
                  && d.Hour == ld.Hour && d.Min == ld.Min && d.Sec == ld.Sec && d.Nsec == 0 && d.Loc == ld.Loc && d.Week == week
                  && d.Pillars == Some(GanZhiOf(eph, d.Year, d.Month, d.Day, d.Hour, d.Min, d.Sec, zwz, true)))
  {
    var t := ZQandSMandLunarMonthCode(eph, ld.Year);
    if t.Failure? {
      return Failure(t.error);
    }
    var o := LunarJdInTable(t.value.1, t.value.2, ld.Month, ld.Day, ld.LeapMonth);
    if o.Failure? {
      return Failure(o.error);
    }
    if o.value.None? {
      var empty := new Date(0, 0, 0, 0, 0, 0, 0);
      return Success(empty);
    }
    var dT := SolarWithClock(o.value.value, ld.Hour, ld.Min, ld.Sec, ld.Loc, eph, zwz, now, week);
    r := Success(dT);
  }

  /** The part of Lunar2Solar after the Julian Day is found: the Date of the
    * day, given the lunar date's clock and location, with its pillars. */
  method SolarWithClock(jd: real, hour: int, min: int, sec: int, loc: Option<Location>, eph: LegacyEphemeris, zwz: bool, now: Civil, week: int)
    returns (dT: Date)
    ensures fresh(dT)
    ensures var f := SolarOfJd(jd);
            dT.Year == NewDateYear(f.year, now.year) && dT.Month == DefaultField(f.month, now.month)
            && dT.Day == DefaultField(f.day, now.day)
            && dT.Hour == hour && dT.Min == min && dT.Sec == sec && dT.Nsec == 0 && dT.Loc == loc && dT.Week == week
            && dT.Pillars == Some(GanZhiOf(eph, dT.Year, dT.Month, dT.Day, hour, min, sec, zwz, true))
  {
    dT := Julian2Solar(jd, now, week);
    dT.Hour := hour;
    dT.Min := min;
    dT.Sec := sec;
    dT.Loc := loc;
    GanZhi(dT, eph, zwz);
  }

  // ------------------------------------------------------------ year names

  /** LunarYearGanZiCommon's indices: ((Year - 3) % 10) - 1 with 0 taken as
    * 9, and ((Year - 3) % 12) - 1 with 0 taken as 11, with Go's `%`; a
    * negative index panics. */
  function YearGanZiIndex(year: int): (r: Result<(int, int), CalendarError>)
    ensures r.Success? ==> 0 <= r.value.0 < 10 && 0 <= r.value.1 < 12 && r.value.0 % 2 == r.value.1 % 2
  {
    var gk0 := GoMath.GoRem(year - 3, 10);
    var zk0 := GoMath.GoRem(year - 3, 12);
    var gk := if gk0 == 0 then 9 else gk0 - 1;
    var zk := if zk0 == 0 then 11 else zk0 - 1;
    if gk < 0 || zk < 0 then Failure(IndexOutOfRange)
    else
      SameParity(year - 3, GoMath.GoQuo(year - 3, 10), gk0, GoMath.GoQuo(year - 3, 12), zk0);
      Success((gk, zk))
  }

  /** Two remainders of the same number by 10 and by 12 have the same parity. */
  lemma SameParity(a: int, q10: int, r10: int, q12: int, r12: int)
    requires a == 10 * q10 + r10 && a == 12 * q12 + r12
    ensures (r10 - r12) % 2 == 0
  {
    assert r10 - r12 == 2 * (6 * q12 - 5 * q10);
  }

  /** From year 3 on the common-era year names are chinesecalendar.go's year
    * pillar, ((y + 4736) mod 60) mod 10 and mod 12; they fail only before. */
  lemma YearGanZiIndexAgrees(year: int)
    ensures year >= 3 ==> YearGanZiIndex(year) == Success((LunarConversion.YearPillarIndex(year) % 10, LunarConversion.YearPillarIndex(year) % 12))
    ensures YearGanZiIndex(year).Failure? ==> year < 3
  {
    if year >= 3 {
      var x := year - 3;
      Sexagenary.CycleParts(year + 4736);
      StemOfYear(x);
      BranchOfYear(x);
      assert year + 4736 == x + 4739;
    }
  }

  /** Year 3 + x has stem x mod 10 counted one back, 0 wrapping to 9. */
  lemma StemOfYear(x: int)
    requires x >= 0
    ensures (x + 4739) % 10 == (if x % 10 == 0 then 9 else x % 10 - 1)
  {
    var r := x % 10;
    assert x + 4739 == (r + 9) + 10 * (x / 10 + 473);
    GoMath.ModShift(r + 9, x / 10 + 473, 10);
    if r > 0 {
      GoMath.ModShift(r - 1, 1, 10);
    }
  }

  /** Year 3 + x has branch x mod 12 counted one back, 0 wrapping to 11. */
  lemma BranchOfYear(x: int)
    requires x >= 0
    ensures (x + 4739) % 12 == (if x % 12 == 0 then 11 else x % 12 - 1)
  {
    var r := x % 12;
    assert x + 4739 == (r + 11) + 12 * (x / 12 + 394);
    GoMath.ModShift(r + 11, x / 12 + 394, 12);
    if r > 0 {
      GoMath.ModShift(r - 1, 1, 12);
    }
  }

  /** The names of a year's stem, branch and animal. */
  function YearNames(gz: (int, int)): (names: GanZhiNames)
    requires 0 <= gz.0 < 10 && 0 <= gz.1 < 12
    ensures names.gan == LunarConversion.StemNames[gz.0] && names.zhi == LunarConversion.BranchNames[gz.1]
    ensures names.animal == LunarConversion.AnimalNames[gz.1]
  {
    GanZhiNames(LunarConversion.StemNames[gz.0], LunarConversion.BranchNames[gz.1], LunarConversion.AnimalNames[gz.1])
  }

  /** LunarYearGanZiCommon: sets the year's names. */
  method LunarYearGanZiCommon(ld: LunarDate) returns (r: Result<(int, int), CalendarError>)
    modifies ld`YearGanZi
    ensures r == YearGanZiIndex(ld.Year)
    ensures ld.YearGanZi == (if r.Success? then Some(YearNames(r.value)) else old(ld.YearGanZi))
  {
    var gk := GoMath.GoRem(ld.Year - 3, 10);
    var zk := GoMath.GoRem(ld.Year - 3, 12);
    if gk == 0 {
      gk := 9;
    } else {
      gk := gk - 1;
    }
    if zk == 0 {
      zk := 11;
    } else {
      zk := zk - 1;
    }
    if gk < 0 || zk < 0 {
      return Failure(IndexOutOfRange);
    }
    r := YearGanZiIndex(ld.Year);
    ld.YearGanZi := Some(YearNames(r.value));
  }

  // ------------------------------------------------------------ NewLunarDate and Solar2Lunar

  /** NewLunarDate's defaults for the year, month and day below 1. */
  method DefaultLunarFields(ld: LunarDate, now: Civil)
    modifies ld`Year, ld`Month, ld`Day
    ensures ld.Year == DefaultYear(old(ld.Year), now.year)
    ensures ld.Month == (if 1 <= old(ld.Month) <= 12 then old(ld.Month) else now.month)
    ensures ld.Day == (if old(ld.Day) < 1 then now.day else old(ld.Day))
  {
    if ld.Year == 0 {
      ld.Year := now.year;
    } else if ld.Year < 1000 {
      ld.Year := 1000;
    } else if ld.Year > 3000 {
      ld.Year := 3000;
    }
    if ld.Month < 1 || ld.Month > 12 {
      ld.Month := now.month;
    }
    if ld.Day < 1 {
      ld.Day := now.day;
    }
  }

  /** NewLunarDate's returned copy: every field but MonthDays. */
  method CopyLunarDate(ld: LunarDate) returns (n: LunarDate)
    ensures fresh(n) && n.Year == ld.Year && n.Month == ld.Month && n.Day == ld.Day
    ensures n.Hour == ld.Hour && n.Min == ld.Min && n.Sec == ld.Sec && n.Nsec == ld.Nsec && n.Week == ld.Week
    ensures n.MonthDays == 0 && n.LeapYear == ld.LeapYear && n.LeapMonth == ld.LeapMonth
    ensures n.Loc == ld.Loc && n.YearGanZi == ld.YearGanZi
  {
    n := new LunarDate(ld.Year, ld.Month, ld.Day, ld.Hour, ld.Min, ld.Sec, ld.Loc);
    n.Nsec, n.Week, n.LeapYear, n.LeapMonth, n.YearGanZi := ld.Nsec, ld.Week, ld.LeapYear, ld.LeapMonth, ld.YearGanZi;
  }

  /** NewLunarDate: fills in the caller's LunarDate (the current year for 0,
    * any other year clamped; the current month for one outside 1..12; the
    * current day for a day below 1, and the month's length for a day past
    * 29) and returns a copy of it without MonthDays. */
  method NewLunarDate(ld: LunarDate, eph: LegacyEphemeris, now: Civil) returns (r: Result<LunarDate, CalendarError>)
    modifies ld`Year, ld`Month, ld`Day, ld`Loc
    ensures ld.Year == DefaultYear(old(ld.Year), now.year)
    ensures ld.Month == (if 1 <= old(ld.Month) <= 12 then old(ld.Month) else now.month)
    ensures var d1 := if old(ld.Day) < 1 then now.day else old(ld.Day);
            var days := LegacyMonthDaysOf(eph, ld.Year, ld.Month, ld.LeapMonth);
            (r.Failure? <==> d1 > 29 && days.Failure?)
            && (r.Success? ==> ld.Day == (if d1 > 29 then days.value else d1))
    ensures r.Success? ==> ld.Loc == (if old(ld.Loc).None? then Some(Local) else old(ld.Loc))
    ensures r.Success? ==> var n := r.value;
              (fresh(n) && n.Year == ld.Year && n.Month == ld.Month && n.Day == ld.Day
               && n.Hour == ld.Hour && n.Min == ld.Min && n.Sec == ld.Sec && n.Nsec == ld.Nsec && n.Week == ld.Week
               && n.MonthDays == 0 && n.LeapYear == ld.LeapYear && n.LeapMonth == ld.LeapMonth
               && n.Loc == ld.Loc && n.YearGanZi == ld.YearGanZi)
  {
    DefaultLunarFields(ld, now);
    if ld.Day > 29 {
      var days := LunarDays(ld, eph);
      if days.Failure? {
        return Failure(days.error);
      }
      ld.Day := days.value;
    }
    if ld.Loc.None? {
      ld.Loc := Some(Local);
    }
    var n := CopyLunarDate(ld);
    r := Success(n);
  }

  /** The year table Solar2Lunar reads day dn of civil year `year` from: the
    * year's own, or the year before's (then the flag is true) when dn comes
    * before the day of the table's first new moon. */
  function LegacyChosenTable(eph: LegacyEphemeris, year: int, dn: int): (tp: (Result<(seq<real>, seq<real>, seq<real>), CalendarError>, bool))
    ensures tp.0.Success? ==> |tp.0.value.1| == 16 && |tp.0.value.2| == 15 && forall k :: 0 <= k < 15 ==> tp.0.value.2[k] >= 0.0
    ensures tp.1 ==> LegacyTable(eph, year).Success? && dn < (LegacyTable(eph, year).value.1[0] + 0.5).Floor
  {
    var t := LegacyTable(eph, year);
    if t.Success? && dn < (t.value.1[0] + 0.5).Floor then (LegacyTable(eph, year - 1), true) else (t, false)
  }

  /** Solar2Lunar's search for the lunation holding day dn: chinesecalendar.go's
    * MonthSlot on the window taken back to universal time. */
  method LegacyFindMonthSlot(jdnm: seq<real>, dn: int) returns (mi: int)
    requires |jdnm| == 16
    ensures mi == LunarConversion.MonthSlot(Unshift(jdnm), dn)
  {
    ghost var nm := Unshift(jdnm);
    mi := 0;
    var i := 0;
    while i <= 14
      invariant 0 <= i <= 15 && mi == 0
      invariant LunarConversion.SlotFrom(nm, dn, i) == LunarConversion.SlotFrom(nm, dn, 0)
    {
      UnshiftDay(jdnm, i);
      UnshiftDay(jdnm, i + 1);
      if dn >= (jdnm[i] + 0.5).Floor && dn < (jdnm[i + 1] + 0.5).Floor {
        mi := i;
        return;
      }
      i := i + 1;
    }
  }

  /** Solar2Lunar's year, month and day are chinesecalendar.go's
    * gregorianToLunar on the same window taken back to universal time
    * (apart from NewLunarDate's clamp of a year that does not drop). */
  lemma LegacyLunarFieldsAgree(jdnm: seq<real>, mc: seq<real>, year: int, prev: bool, dn: int)
    requires |jdnm| == 16 && |mc| == 15 && forall k :: 0 <= k < 15 ==> mc[k] >= 0.0
    ensures var mi := LunarConversion.MonthSlot(Unshift(jdnm), dn);
            var ld := LunarConversion.DateInTable(Unshift(jdnm), mc, year, prev, dn);
            ld.month == LunarConversion.MonthOfCode(mc[mi]) && ld.day == dn - (jdnm[mi] + 0.5).Floor + 1
            && ld.year == (if mc[mi] < 2.0 || prev then year - 1 else year)
            && (ld.leapStr != "" <==> IsLeapCode(mc[mi]))
  {
    UnshiftDay(jdnm, LunarConversion.MonthSlot(Unshift(jdnm), dn));
  }

  /** Solar2Lunar's choice of year table. */
  method ChooseLegacyTable(eph: LegacyEphemeris, year: int, dn: int)
    returns (t: Result<(seq<real>, seq<real>, seq<real>), CalendarError>, prev: bool)
    ensures (t, prev) == LegacyChosenTable(eph, year, dn)
  {
    prev := false;
    t := ZQandSMandLunarMonthCode(eph, year);
    if t.Success? && dn < (t.value.1[0] + 0.5).Floor {
      prev := true;
      t := ZQandSMandLunarMonthCode(eph, year - 1);
    }
  }

  /** Solar2Lunar's leap month and month from the lunation's month code. */
  method SetLunarMonth(ld: LunarDate, eph: LegacyEphemeris, code: real, year: int) returns (r: Result<int, CalendarError>)
    requires code >= 0.0 && ld.LeapMonth == 0 && ld.Year == year
    modifies ld`LeapYear, ld`Month, ld`LeapMonth
    ensures r == LegacyLeapOf(eph, year)
    ensures r.Success? ==> (ld.LeapYear == r.value && ld.Month == LunarConversion.MonthOfCode(code)
              && ld.LeapMonth == (if r.value > 0 && IsLeapCode(code) then 1 else 0))
  {
    r := Leap(ld, eph);
    if r.Failure? {
      return;
    }
    var isLeapMonth := r.value > 0 && (code - code.Floor as real) * 2.0 + 1.0 != 1.0;
    ld.Month := GoMath.GoRem((code + 10.0).Floor, 12) + 1;
    if isLeapMonth {
      ld.LeapMonth := 1;
    }
  }

  /** Solar2Lunar's month length and day, the day counted from the
    * lunation's first day. */
  method SetLunarDay(ld: LunarDate, eph: LegacyEphemeris, dn: int, firstDay: int, year: int, month: int, leapMonth: int)
    returns (r: Result<int, CalendarError>)
    requires ld.Year == year && ld.Month == month && ld.LeapMonth == leapMonth
    modifies ld`MonthDays, ld`Day
    ensures r == LegacyMonthDaysOf(eph, year, month, leapMonth)
    ensures r.Success? ==> ld.MonthDays == r.value && ld.Day == dn - firstDay + 1
  {
    r := LunarDays(ld, eph);
    if r.Failure? {
      return;
    }
    ld.MonthDays := r.value;
    ld.Day := dn - firstDay + 1;
  }

  /** Solar2Lunar's fields once the year is known: the leap month, the month
    * of the lunation's code, its length, the day counted from the
    * lunation's first day and the year's names. */
  method FillLunarFields(ld: LunarDate, eph: LegacyEphemeris, code: real, dn: int, firstDay: int, year: int)
    returns (r: Result<(), CalendarError>)
    requires code >= 0.0 && ld.LeapMonth == 0 && ld.Year == year
    modifies ld`LeapYear, ld`Month, ld`LeapMonth, ld`MonthDays, ld`Day, ld`YearGanZi
    ensures r.Success? ==>
              (LegacyLeapOf(eph, year) == Success(ld.LeapYear)
               && ld.Month == LunarConversion.MonthOfCode(code)
               && ld.LeapMonth == (if ld.LeapYear > 0 && IsLeapCode(code) then 1 else 0)
               && LegacyMonthDaysOf(eph, year, ld.Month, ld.LeapMonth) == Success(ld.MonthDays)
               && ld.Day == dn - firstDay + 1
               && YearGanZiIndex(year).Success? && ld.YearGanZi == Some(YearNames(YearGanZiIndex(year).value)))
  {
    var lm := SetLunarMonth(ld, eph, code, year);
    if lm.Failure? {
      return Failure(lm.error);
    }
    var month, leapMonth := ld.Month, ld.LeapMonth;
    var days := SetLunarDay(ld, eph, dn, firstDay, year, month, leapMonth);
    if days.Failure? {
      return Failure(days.error);
    }
    var g := LunarYearGanZiCommon(ld);
    if g.Failure? {
      return Failure(g.error);
    }
    assert ld.Month == month && ld.LeapMonth == leapMonth;
    r := Success(());
  }

  /** Solar2Lunar's NewLunarDate of the Date's fields, with the year moved
    * back one when the day belongs to the previous lunar year. */
  method StartLunarDate(d: Date, eph: LegacyEphemeris, now: Civil, back: bool) returns (r: Result<LunarDate, CalendarError>)
    ensures r.Success? ==>
              var ld := r.value;
              fresh(ld) && ld.Year == (if back then d.Year - 1 else DefaultYear(d.Year, now.year))
              && ld.LeapMonth == 0 && ld.Hour == d.Hour && ld.Min == d.Min && ld.Sec == d.Sec
              && ld.Nsec == 0 && ld.Week == 0 && ld.Loc == (if d.Loc.None? then Some(Local) else d.Loc)
  {
    var fields := new LunarDate(d.Year, d.Month, d.Day, d.Hour, d.Min, d.Sec, d.Loc);
    var n := NewLunarDate(fields, eph, now);
    if n.Failure? {
      return Failure(n.error);
    }
    var ld := n.value;
    if back {
      ld.Year := d.Year - 1;
    }
    r := Success(ld);
  }

  /** Solar2Lunar once the window holding day dn is chosen. */
  method LunarFromTable(d: Date, eph: LegacyEphemeris, now: Civil, jdnm: seq<real>, mc: seq<real>, prev: bool, dn: int)
    returns (r: Result<LunarDate, CalendarError>)
    requires |jdnm| == 16 && |mc| == 15 && forall k :: 0 <= k < 15 ==> mc[k] >= 0.0
    ensures r.Success? ==>
              (fresh(r.value)
               && var mi := LunarConversion.MonthSlot(Unshift(jdnm), dn);
                  var ld := r.value;
                  ld.Year == (if mc[mi] < 2.0 || prev then d.Year - 1 else DefaultYear(d.Year, now.year))
                  && ld.Month == LunarConversion.MonthOfCode(mc[mi])
                  && ld.Day == dn - (jdnm[mi] + 0.5).Floor + 1
                  && LegacyLeapOf(eph, ld.Year) == Success(ld.LeapYear)
                  && ld.LeapMonth == (if ld.LeapYear > 0 && IsLeapCode(mc[mi]) then 1 else 0)
                  && LegacyMonthDaysOf(eph, ld.Year, ld.Month, ld.LeapMonth) == Success(ld.MonthDays)
                  && YearGanZiIndex(ld.Year).Success? && ld.YearGanZi == Some(YearNames(YearGanZiIndex(ld.Year).value))
                  && ld.Hour == d.Hour && ld.Min == d.Min && ld.Sec == d.Sec)
    ensures r.Success? ==> r.value.Nsec == 0 && r.value.Week == 0 && r.value.Loc == (if d.Loc.None? then Some(Local) else d.Loc)
  {
    var mi := LegacyFindMonthSlot(jdnm, dn);
    var n := StartLunarDate(d, eph, now, mc[mi] < 2.0 || prev);
    if n.Failure? {
      return Failure(n.error);
    }
    var ld := n.value;
    var year := ld.Year;
    var s := FillLunarFields(ld, eph, mc[mi], dn, (jdnm[mi] + 0.5).Floor, year);
    if s.Failure? {
      return Failure(s.error);
    }
    r := Success(ld);
  }

  /** Solar2Lunar: the LunarDate of a Date's day. */
  method Solar2Lunar(d: Date, eph: LegacyEphemeris, now: Civil) returns (r: Result<LunarDate, CalendarError>)
    ensures var dn := SolarToJulian(d.Year, d.Month, d.Day, 12, 0, 0).Floor;
            var ct := LegacyChosenTable(eph, d.Year, dn);
            (ct.0.Failure? ==> r.Failure?)
            && (r.Success? ==>
                 (ct.0.Success? && fresh(r.value)
                  && var jdnm, mc := ct.0.value.1, ct.0.value.2;
                     var mi := LunarConversion.MonthSlot(Unshift(jdnm), dn);
                     var ld := r.value;
                     ld.Year == (if mc[mi] < 2.0 || ct.1 then d.Year - 1 else DefaultYear(d.Year, now.year))
                     && ld.Month == LunarConversion.MonthOfCode(mc[mi])
                     && ld.Day == dn - (jdnm[mi] + 0.5).Floor + 1
                     && LegacyLeapOf(eph, ld.Year) == Success(ld.LeapYear)
                     && ld.LeapMonth == (if ld.LeapYear > 0 && IsLeapCode(mc[mi]) then 1 else 0)
                     && LegacyMonthDaysOf(eph, ld.Year, ld.Month, ld.LeapMonth) == Success(ld.MonthDays)
                     && YearGanZiIndex(ld.Year).Success? && ld.YearGanZi == Some(YearNames(YearGanZiIndex(ld.Year).value))
                     && ld.Hour == d.Hour && ld.Min == d.Min && ld.Sec == d.Sec))
    ensures r.Success? ==> r.value.Nsec == 0 && r.value.Week == 0 && r.value.Loc == (if d.Loc.None? then Some(Local) else d.Loc)
  {
    var jd := SolarToJulian(d.Year, d.Month, d.Day, 12, 0, 0);
    var dn := jd.Floor;
    var t, prev := ChooseLegacyTable(eph, d.Year, dn);
    if t.Failure? {
      return Failure(t.error);
    }
    r := LunarFromTable(d, eph, now, t.value.1, t.value.2, prev, dn);
  }

  // ------------------------------------------------------------ names and small tables

  /** date.go's month names: the eleventh month is 冬. */
  const MonthChineseNames: seq<string> := ["正", "二", "三", "四", "五", "六", "七", "八", "九", "十", "冬", "腊"]

  /** MonthChinese: the name of lunar month m, "" outside 1..12. */
  function MonthChinese(m: int): (name: string)
    ensures name == "" <==> !(1 <= m <= 12)
    ensures 1 <= m <= 12 ==> (name == LunarConversion.MonthNames[m - 1] <==> m != 11)
  {
    if m > 0 && m <= 12 then MonthChineseNames[m - 1] else ""
  }

  /** DayChinese of date.go: the tens prefix of d / 10 and the digit of d % 10
    * (10, 20 and 30 written with 十), computed with Go's truncating `/` and
    * `%`; an index outside the tables panics. */
  function DayChinese(d: int): (r: Result<string, CalendarError>)
    ensures r.Success? <==> 0 <= d < 40
  {
    if d == 10 then Success(LunarConversion.WholeTens[0] + LunarConversion.Numbers[10])
    else if d == 20 then Success(LunarConversion.WholeTens[2] + LunarConversion.Numbers[10])
    else if d == 30 then Success(LunarConversion.WholeTens[3] + LunarConversion.Numbers[10])
    else
      var k := GoMath.GoQuo(d, 10);
      var m := GoMath.GoRem(d, 10);
      if 0 <= k < 4 && 0 <= m < 11 then Success(LunarConversion.WholeTens[k] + LunarConversion.Numbers[m])
      else Failure(IndexOutOfRange)
  }

  /** date.go writes days 20 and 30 as 廿十 and 卅十, which do not read back
    * as 20 and 30; every other day of a month gets chinesecalendar.go's
    * name. */
  lemma DayChineseAsWritten(d: int)
    requires 1 <= d <= 30
    ensures DayChinese(d).Success?
    ensures DayChinese(d).value == LunarConversion.DayChinese(d) <==> d != 20 && d != 30
    ensures DayChinese(20).value == "廿十" && LunarConversion.DayOfName(DayChinese(20).value) != 20
    ensures DayChinese(30).value == "卅十" && LunarConversion.DayOfName(DayChinese(30).value) != 30
  {
    if d == 20 || d == 30 {
      assert DayChinese(d).value[0] != LunarConversion.DayChinese(d)[0];
    } else if d != 10 {
      assert GoMath.GoQuo(d, 10) == d / 10 && GoMath.GoRem(d, 10) == d % 10;
    }
    assert DayChinese(20).value[0] == '廿' && DayChinese(30).value[0] == '卅';
  }

  /** getZodiac: the star sign of a civil month and day (the month must index
    * the 12 start days). */
  function GetZodiac(month: int, day: int): (r: Result<int, CalendarError>)
    ensures r.Success? <==> 1 <= month <= 12
    ensures r.Success? ==> 0 <= r.value < 12 && Utils.InSign(r.value, month, day)
  {
    if !(1 <= month <= 12) then Failure(IndexOutOfRange)
    else
      var kn := month - 1;
      var k := if day < Utils.ZodiacStartDays[kn] then ((kn + 12) - 1) % 12 else kn;
      assert k == Utils.ZodiacIndex(month, day);
      Success(k)
  }

  /** solarDays: the days of a civil month by date.go's plain leap rule. */
  function SolarDays(year: int, month: int): (r: Result<int, CalendarError>)
    ensures r.Success? <==> 1 <= month <= 12
    ensures r.Success? ==> r.value == MonthDay(Civil(year, month, 1)) && 28 <= r.value <= 31
  {
    if !(1 <= month <= 12) then Failure(IndexOutOfRange)
    else
      var dn := [31, 28, 31, 30, 31, 30, 31, 31, 30, 31, 30, 31][month - 1];
      Success(if month == 2 && IsLeapYear(year) then dn + 1 else dn)
  }
}
