/** The four pillars of ChineseSexagenaryCycle in chinesecalendar.go: the
  * stem and branch of the year (which starts on the day of the Beginning of
  * Spring), of the solar month (which starts on the day of its Jie term),
  * of the day and of the double hour. A pillar is an index 0..59 of the
  * sexagenary cycle, whose stem is the index mod 10 and branch mod 12. */
module Sexagenary {
  import opened Wrappers
  import GoMath
  import Julian
  import Astronomy
  import opened LunarTables
  import opened LunarConversion

  /** The year, month, day and hour pillars. */
  datatype GZ = GZ(year: GZItem, month: GZItem, day: GZItem, hour: GZItem)

  /** The stem and branch of cycle index n, with their names. */
  function Pillar(n: int): (gz: GZItem)
    requires 0 <= n < 60
    ensures 0 <= gz.hsi < 10 && 0 <= gz.ebi < 12 && gz.hsi % 2 == gz.ebi % 2
    ensures gz.hsn == StemNames[gz.hsi] && gz.ebn == BranchNames[gz.ebi]
  {
    StemBranchParity(n);
    GZItem(n % 10, StemNames[n % 10], n % 12, BranchNames[n % 12])
  }

  /** Each stem and branch of equal parity make exactly one of the 60 pillars. */
  lemma PillarUnique(n: int, m: int)
    requires 0 <= n < 60 && 0 <= m < 60 && Pillar(n) == Pillar(m)
    ensures n == m
  {
    assert Pillar(n).hsi == Pillar(m).hsi && Pillar(n).ebi == Pillar(m).ebi;
    CycleUnique(n, m);
  }

  lemma CycleUnique(n: int, m: int)
    requires 0 <= n < 60 && 0 <= m < 60 && n % 10 == m % 10 && n % 12 == m % 12
    ensures n == m
  {
    var r, s := n % 10, n % 12;
    var a, b := n / 10, m / 10;
    var c, e := n / 12, m / 12;
    assert n == 10 * a + r && m == 10 * b + r;
    assert n == 12 * c + s && m == 12 * e + s;
    assert 5 * (a - b) == 6 * (c - e);
    assert a - b == 6 * ((a - b) - (c - e));
    assert -6 < a - b < 6;
  }
  /** A stem and a branch of one index have the same parity. */
  lemma StemBranchParity(n: int)
    ensures n % 10 % 2 == n % 12 % 2
  {
    assert n == 10 * (n / 10) + n % 10;
    assert n == 12 * (n / 12) + n % 12;
    GoMath.ModShift(n % 10, 5 * (n / 10), 2);
    GoMath.ModShift(n % 12, 6 * (n / 12), 2);
  }

  /** The stem and the branch of x % 60 are those of x. */
  lemma CycleParts(x: int)
    ensures x % 60 % 10 == x % 10 && x % 60 % 12 == x % 12
  {
    assert x == 60 * (x / 60) + x % 60;
    GoMath.ModShift(x % 60, x / 60 * 6, 10);
    GoMath.ModShift(x % 60, x / 60 * 5, 12);
  }

  /** `(int(x) % 60 + 60) % 60` with Go's `%`: the Euclidean remainder. */
  function Cycle60(x: int): (n: int)
    ensures n == x % 60 && 0 <= n < 60
  {
    GoMath.GoRemAgrees(x, 60);
    GoMath.GoRem(GoMath.GoRem(x, 60) + 60, 60)
  }

  // ----------------------------------------------------------- day and hour

  /** The Julian Day counted from midnight and moved one hour on, so that
    * the day pillar changes at 23:00: the integer part plus the seconds of
    * the day and 3600, as a fraction of a day. */
  function DayJd(jd: real): (x: real)
    ensures x == jd + 0.5 + 1.0 / 24.0
  {
    var jdn := jd + 0.5;
    var thes := (jdn - jdn.Floor as real) * 86400.0 + 3600.0;
    jdn.Floor as real + thes / 86400.0
  }

  function DayPillarIndex(jd: real): (n: int)
    ensures 0 <= n < 60
  {
    Cycle60((DayJd(jd) + 49.0).Floor)
  }

  function HourPillarIndex(jd: real): (n: int)
    ensures 0 <= n < 60
  {
    Cycle60((DayJd(jd) * 12.0 + 48.0).Floor)
  }

  /** The day pillar moves one step a day. */
  lemma DayPillarNextDay(jd: real)
    ensures DayPillarIndex(jd + 1.0) == (DayPillarIndex(jd) + 1) % 60
  {
    var x := (DayJd(jd) + 49.0).Floor;
    assert DayJd(jd + 1.0) + 49.0 == (DayJd(jd) + 49.0) + 1.0;
    assert (DayJd(jd + 1.0) + 49.0).Floor == x + 1;
    assert x + 1 == (x % 60 + 1) + 60 * (x / 60);
    GoMath.ModShift(x % 60 + 1, x / 60, 60);
  }

  /** The floors the day and hour pillars take at minute m of hour h of day number dn. */
  lemma ClockFloors(dn: int, h: int, m: int)
    requires 0 <= h < 24 && 0 <= m < 60
    ensures var jd := dn as real - 0.5 + (60 * h + m) as real / 1440.0;
            (DayJd(jd) + 49.0).Floor == dn + 49 + (if h == 23 then 1 else 0)
            && (DayJd(jd) * 12.0 + 48.0).Floor == 12 * dn + 48 + (h + 1) / 2
  {
    var jd := dn as real - 0.5 + (60 * h + m) as real / 1440.0;
    var u := 60 * (h + 1) + m;
    assert DayJd(jd) == dn as real + u as real / 1440.0;
    var k := (h + 1) / 2;
    assert 120 * k <= u < 120 * k + 120;
    assert DayJd(jd) * 12.0 + 48.0 == (12 * dn + 48) as real + u as real / 120.0;
    assert (12 * dn + 48 + k) as real <= DayJd(jd) * 12.0 + 48.0 < (12 * dn + 48 + k + 1) as real;
    if h == 23 {
      assert 1440 <= u < 2880;
    } else {
      assert 0 <= u < 1440;
    }
  }
  /** At minute m of hour h of day number dn: the hour branch is the double
    * hour (23:00-00:59 is the first), the hour stem follows from the day
    * stem as twice it plus the branch, and from 23:00 on the day pillar is
    * already the next day's. */
  lemma HourPillarRules(dn: int, h: int, m: int)
    requires 0 <= h < 24 && 0 <= m < 60
    ensures var jd := dn as real - 0.5 + (60 * h + m) as real / 1440.0;
            var k := (h + 1) / 2;
            HourPillarIndex(jd) % 12 == k % 12
            && (h < 23 ==> DayPillarIndex(jd) == (dn + 49) % 60
                           && HourPillarIndex(jd) % 10 == (2 * (DayPillarIndex(jd) % 10) + k) % 10)
            && (h == 23 ==> DayPillarIndex(jd) == (dn + 50) % 60
                            && HourPillarIndex(jd) % 10 == (2 * (DayPillarIndex(jd) % 10)) % 10)
  {
    var jd := dn as real - 0.5 + (60 * h + m) as real / 1440.0;
    var k := (h + 1) / 2;
    ClockFloors(dn, h, m);
    var hx := 12 * dn + 48 + k;
    CycleParts(hx);
    GoMath.ModShift(k, dn + 4, 12);
    var dx := dn + 49 + (if h == 23 then 1 else 0);
    CycleParts(dx);
    var ds := dx % 10;
    var e := if h == 23 then 1 else 0;
    assert dx == 10 * (dx / 10) + ds;
    // hx and 2 * ds + k - 2 * e differ by a multiple of 10
    assert hx == (2 * ds + k - 2 * e) + 10 * (dn - 5 + 2 * (dx / 10));
    GoMath.ModShift(2 * ds + k - 2 * e, dn - 5 + 2 * (dx / 10), 10);
    if h == 23 {
      GoMath.ModShift(2 * ds, 1, 10);
    }
  }

  /** The late-Zi rule: from 23:00 the day pillar is moved back one step. */
  function NightZiDay(day: GZItem): (gz: GZItem)
    requires 0 <= day.hsi < 10 && 0 <= day.ebi < 12
  {
    var hsi := (day.hsi + 10 - 1) % 10;
    var ebi := (day.ebi + 12 - 1) % 12;
    GZItem(hsi, StemNames[hsi], ebi, BranchNames[ebi])
  }

  lemma NightZiDayStepsBack(n: int)
    requires 0 <= n < 60
    ensures NightZiDay(Pillar(n)) == Pillar((n + 59) % 60)
  {
    StepBack(n);
  }

  lemma StepBack(n: int)
    requires 0 <= n < 60
    ensures (n % 10 + 10 - 1) % 10 == ((n + 59) % 60) % 10
    ensures (n % 12 + 12 - 1) % 12 == ((n + 59) % 60) % 12
  {
    if n != 0 {
      assert (n + 59) % 60 == n - 1;
      assert n == 10 * (n / 10) + n % 10 && n == 12 * (n / 12) + n % 12;
      assert n - 1 == (n % 10 + 9) + 10 * (n / 10 - 1);
      GoMath.ModShift(n % 10 + 9, n / 10 - 1, 10);
      assert n - 1 == (n % 12 + 11) + 12 * (n / 12 - 1);
      GoMath.ModShift(n % 12 + 11, n / 12 - 1, 12);
    }
  }

  // --------------------------------------------------------- year and month

  /** The month pillar of solar month ix (0 is the month of last year's Minor
    * Cold, 1 the month of the Beginning of Spring) of Jie year `year`, with
    * Go's `%`; it is negative, and its names panic, for years before about
    * 4712 BC. */
  function MonthPillarIndex(year: int, ix: int): int
  {
    var tmm := GoMath.GoRem((year + 4712) * 12 + (ix - 1) + 60, 60);
    GoMath.GoRem(tmm + 50, 60)
  }

  /** For years from 4712 BC on, the month branch is Yin (2) for the month of
    * the Beginning of Spring and steps with the months, and the stem of that
    * first month is twice the year stem plus 2. */
  lemma MonthPillarRules(year: int, ix: int)
    requires year + 4712 >= 0 && ix >= -1
    ensures var mgz := MonthPillarIndex(year, ix);
            var ys := YearPillarIndex(year) % 10;
            0 <= mgz < 60
            && mgz == ((year + 4712) * 12 + ix + 109) % 60
            && mgz % 12 == (ix + 1) % 12
            && mgz % 10 == (2 * ys + 2 + (ix - 1) + 10) % 10
  {
    var y := year + 4712;
    var a := y * 12 + ix + 59;
    var tmm := a % 60;
    var mgz := (tmm + 50) % 60;
    assert MonthPillarIndex(year, ix) == mgz;
    assert a == 60 * (a / 60) + tmm;
    assert tmm + 50 == 60 * ((tmm + 50) / 60) + mgz;
    GoMath.EuclidUnique(a + 50, 60, a / 60 + (tmm + 50) / 60, mgz);
    GoMath.ModShift(mgz, (a + 50) / 60 * 5, 12);
    GoMath.ModShift(ix + 109, y, 12);
    assert (ix + 109) % 12 == (ix + 1) % 12 by { GoMath.ModShift(ix + 1, 9, 12); }
    var yr := year + 4736;
    GoMath.ModShift(mgz, (a + 50) / 60 * 6, 10);
    GoMath.ModShift(yr % 10, yr % 60 / 10, 10);
    assert yr % 60 == 10 * (yr % 60 / 10) + yr % 60 % 10;
    var ys := yr % 60 % 10;
    assert yr == 60 * (yr / 60) + yr % 60;
    var t := yr / 60 * 6 + yr % 60 / 10;
    assert yr == 10 * t + ys;
    assert 2 * ys + 11 + ix == (12 * y + ix + 109) + 10 * (-(y + 5 + 2 * t));
    GoMath.ModShift(12 * y + ix + 109, -(y + 5 + 2 * t), 10);
  }

  /** The first j in from..15 whose Jie term falls on a later day than dn
    * (term days shifted by the zone offset), or 16 when none does. */
  function JieFrom(jss: seq<real>, dn: int, offsetDays: real, from: int): (j: int)
    requires |jss| == 16 && 0 <= from <= 16
    ensures from <= j <= 16
    ensures j < 16 ==> (jss[j] + 0.5 + offsetDays).Floor > dn
    ensures forall i :: from <= i < j ==> (jss[i] + 0.5 + offsetDays).Floor <= dn
    decreases 16 - from
  {
    if from == 16 then 16
    else if (jss[from] + 0.5 + offsetDays).Floor > dn then from
    else JieFrom(jss, dn, offsetDays, from + 1)
  }

  /** The solar month of day dn: the slot before the first later Jie term;
    * reading slot 16 when there is none panics. */
  function JieMonthIndex(jss: seq<real>, dn: int, offsetDays: real): (r: Result<int, CalendarError>)
    requires |jss| == 16
    ensures r.Success? ==> -1 <= r.value <= 14
    ensures r.Success? && r.value >= 0 ==> (jss[r.value] + 0.5 + offsetDays).Floor <= dn < (jss[r.value + 1] + 0.5 + offsetDays).Floor
  {
    var j := JieFrom(jss, dn, offsetDays, 0);
    if j == 16 then Failure(IndexOutOfRange) else Success(j - 1)
  }

  /** The search loop over the Jie terms (it runs to j == len(jss), where
    * reading the term panics). */
  method FindJieMonth(jss: seq<real>, dn: int, offsetDays: real) returns (r: Result<int, CalendarError>)
    requires |jss| == 16
    ensures r == JieMonthIndex(jss, dn, offsetDays)
  {
    var j := 0;
    while j <= 16
      invariant 0 <= j <= 16
      invariant JieFrom(jss, dn, offsetDays, j) == JieFrom(jss, dn, offsetDays, 0)
    {
      if j == 16 {
        return Failure(IndexOutOfRange);
      }
      if (jss[j] + 0.5 + offsetDays).Floor > dn {
        return Success(j - 1);
      }
      j := j + 1;
    }
    r := Failure(IndexOutOfRange);
  }

  /** The Jie year of day dn and its Jie terms: the civil year's, or the year
    * before's when dn is earlier than the day of the Beginning of Spring. */
  function JieYear(eph: Astronomy.Ephemeris, year: int, dn: int, offsetDays: real): (yj: (int, seq<real>))
    ensures |yj.1| == 16 && yj.1 == PureJie(eph, yj.0)
    ensures yj.0 == year <==> dn >= (PureJie(eph, year)[1] + 0.5 + offsetDays).Floor
    ensures yj.0 != year ==> yj.0 == year - 1
  {
    var jss := PureJie(eph, year);
    if dn < (jss[1] + 0.5 + offsetDays).Floor then (year - 1, PureJie(eph, year - 1)) else (year, jss)
  }

  /** The pillars of Julian Day jd (day number dn) in Jie year y with terms jss. */
  function PillarsOf(y: int, jss: seq<real>, jd: real, offsetDays: real, nightZiHour: bool, hour: int): (r: Result<GZ, CalendarError>)
    requires |jss| == 16
    ensures r.Success? ==> r.value.year == Pillar(YearPillarIndex(y)) && r.value.hour == Pillar(HourPillarIndex(jd))
    ensures r.Success? ==> r.value.day == (if nightZiHour && hour >= 23 then NightZiDay(Pillar(DayPillarIndex(jd))) else Pillar(DayPillarIndex(jd)))
    ensures r.Success? <==> JieMonthIndex(jss, (jd + 0.5).Floor, offsetDays).Success?
                            && MonthPillarIndex(y, JieMonthIndex(jss, (jd + 0.5).Floor, offsetDays).value) >= 0
    ensures r.Success? ==> r.value.month == Pillar(MonthPillarIndex(y, JieMonthIndex(jss, (jd + 0.5).Floor, offsetDays).value))
  {
    var ix := JieMonthIndex(jss, (jd + 0.5).Floor, offsetDays);
    if ix.Failure? then Failure(ix.error)
    else
      var mgz := MonthPillarIndex(y, ix.value);
      if mgz < 0 then Failure(IndexOutOfRange)
      else
        var day := Pillar(DayPillarIndex(jd));
        Success(GZ(Pillar(YearPillarIndex(y)), Pillar(mgz),
                   if nightZiHour && hour >= 23 then NightZiDay(day) else day,
                   Pillar(HourPillarIndex(jd))))
  }

  /** ChineseSexagenaryCycle at Julian Day jd of civil year `year`. */
  function CycleOfJd(eph: Astronomy.Ephemeris, nightZiHour: bool, year: int, jd: real, hour: int, offsetDays: real): Result<GZ, CalendarError>
  {
    var yj := JieYear(eph, year, (jd + 0.5).Floor, offsetDays);
    PillarsOf(yj.0, yj.1, jd, offsetDays, nightZiHour, hour)
  }

  /** The Julian Day of a civil date and time. */
  function CivilJd(year: int, month: int, day: int, hour: int, minute: int, second: int): real
  {
    Julian.JulianDay(year, month, day, [hour as real, minute as real, second as real])
  }

  /** A zone offset in seconds, in days. */
  function OffsetDays(offset: int): real
  {
    offset as real / 86400.0
  }

  /** ChineseSexagenaryCycle of a civil date and time in a zone `offset`
    * seconds east of UTC. */
  function CycleOf(eph: Astronomy.Ephemeris, nightZiHour: bool, year: int, month: int, day: int,
                   hour: int, minute: int, second: int, offset: int): Result<GZ, CalendarError>
  {
    CycleOfJd(eph, nightZiHour, year, CivilJd(year, month, day, hour, minute, second), hour, OffsetDays(offset))
  }

  /** The Jie-year choice of ChineseSexagenaryCycle. */
  method JieYearOfDay(eph: Astronomy.Ephemeris, year: int, dn: int, offsetDays: real) returns (y: int, jss: seq<real>)
    ensures (y, jss) == JieYear(eph, year, dn, offsetDays)
  {
    y := year;
    jss := PureJieSinceSpring(eph, year);
    if dn < (jss[1] + 0.5 + offsetDays).Floor {
      y := y - 1;
      jss := PureJieSinceSpring(eph, y);
    }
  }

  /** The pillar computations of ChineseSexagenaryCycle once the Jie year is known. */
  method Pillars(y: int, jss: seq<real>, jd: real, offsetDays: real, nightZiHour: bool, hour: int) returns (r: Result<GZ, CalendarError>)
    requires |jss| == 16
    ensures r == PillarsOf(y, jss, jd, offsetDays, nightZiHour, hour)
  {
    var yearGZ := Pillar(YearPillarIndex(y));
    var ix := FindJieMonth(jss, (jd + 0.5).Floor, offsetDays);
    if ix.Failure? {
      return Failure(ix.error);
    }
    var mgz := MonthPillarIndex(y, ix.value);
    if mgz < 0 {
      return Failure(IndexOutOfRange);
    }
    var dayGZ := Pillar(DayPillarIndex(jd));
    if nightZiHour && hour >= 23 {
      dayGZ := NightZiDay(dayGZ);
    }
    var hourGZ := Pillar(HourPillarIndex(jd));
    r := Success(GZ(yearGZ, Pillar(mgz), dayGZ, hourGZ));
  }

  /** The pillars of ChineseSexagenaryCycle once the Julian Day is known. */
  method CycleOfJulianDay(eph: Astronomy.Ephemeris, nightZiHour: bool, year: int, jd: real, hour: int, offsetDays: real)
    returns (r: Result<GZ, CalendarError>)
    ensures r == CycleOfJd(eph, nightZiHour, year, jd, hour, offsetDays)
  {
    var y, jss := JieYearOfDay(eph, year, (jd + 0.5).Floor, offsetDays);
    r := Pillars(y, jss, jd, offsetDays, nightZiHour, hour);
  }

  /** ChineseSexagenaryCycle. */
  method ChineseSexagenaryCycle(eph: Astronomy.Ephemeris, nightZiHour: bool, year: int, month: int, day: int,
                                hour: int, minute: int, second: int, offset: int) returns (r: Result<GZ, CalendarError>)
    ensures r == CycleOf(eph, nightZiHour, year, month, day, hour, minute, second, offset)
  {
    var jd := CivilJd(year, month, day, hour, minute, second);
    r := CycleOfJulianDay(eph, nightZiHour, year, jd, hour, OffsetDays(offset));
  }

  /** 23:50 on 6 May 2021: day pillar 51 (乙卯), hour pillar 12 (丙子), and
    * with the late-Zi rule the day pillar 50 (甲寅); in Jie year 2021 and
    * solar month 4 the year is 辛丑 and the month 癸巳. */
  lemma PillarTestVectors()
    ensures var jd := 2459340.5 + 23.0 / 24.0 + 50.0 / 1440.0;
            DayPillarIndex(jd) == 51 && Pillar(51).hsi == 1 && Pillar(51).ebi == 3
            && HourPillarIndex(jd) == 12 && Pillar(12).hsi == 2 && Pillar(12).ebi == 0
            && NightZiDay(Pillar(51)).hsi == 0 && NightZiDay(Pillar(51)).ebi == 2
    ensures Pillar(YearPillarIndex(2021)).hsi == 7 && Pillar(YearPillarIndex(2021)).ebi == 1
    ensures MonthPillarIndex(2021, 4) == 29 && Pillar(29).hsi == 9 && Pillar(29).ebi == 5
  {
    var jd := 2459340.5 + 23.0 / 24.0 + 50.0 / 1440.0;
    assert DayJd(jd) == 2459342.0 + 50.0 / 1440.0;
    assert (DayJd(jd) + 49.0).Floor == 2459391;
    assert (DayJd(jd) * 12.0 + 48.0).Floor == 29512152;
  }

  /** 23:50 on 6 May 2021 has Julian Day 2459340.5 + 23/24 + 50/1440. */
  lemma TestDateJulianDay()
    ensures CivilJd(2021, 5, 6, 23, 50, 0) == 2459340.5 + 23.0 / 24.0 + 50.0 / 1440.0
  {
  }
}
