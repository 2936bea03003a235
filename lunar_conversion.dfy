/** Conversion between civil dates and dates of the Chinese lunisolar
  * calendar in chinesecalendar.go: gregorianToLunar, lunarToGregorian,
  * LunarMonthDays, mdList, LunarLeap and DayChinese, over the year tables
  * of LunarMonths. A civil date enters as its fields (what time.Time's
  * Date and Clock give) and a converted date leaves as a Julian Day. */
module LunarConversion {
  import opened Wrappers
  import GoMath
  import Julian
  import Astronomy
  import opened LunarTables
  import opened LunarMonths

  /** Month names, the first month first (calendar.go's lunarMonthNameArray). */
  const MonthNames: seq<string> := ["正", "二", "三", "四", "五", "六", "七", "八", "九", "十", "十一", "腊"]
  /** The ten heavenly stems. */
  const StemNames: seq<string> := ["甲", "乙", "丙", "丁", "戊", "己", "庚", "辛", "壬", "癸"]
  /** The twelve earthly branches. */
  const BranchNames: seq<string> := ["子", "丑", "寅", "卯", "辰", "巳", "午", "未", "申", "酉", "戌", "亥"]
  /** The twelve animals of the branches. */
  const AnimalNames: seq<string> := ["鼠", "牛", "虎", "兔", "龙", "蛇", "马", "羊", "猴", "鸡", "狗", "猪"]
  /** The tens prefixes of day names. */
  const WholeTens: seq<string> := ["初", "十", "廿", "卅"]
  /** The digits of day names, 0..10. */
  const Numbers: seq<string> := ["日", "一", "二", "三", "四", "五", "六", "七", "八", "九", "十"]
  /** The mark of a leap month. */
  const LeapString: string := "闰"

  /** A stem and branch with their names. */
  datatype GZItem = GZItem(hsi: int, hsn: string, ebi: int, ebn: string)

  /** A lunar date (its festival entry is not part of this model). */
  datatype LunarDate = LunarDate(year: int, month: int, day: int, monthName: string, dayName: string,
                                 leapStr: string, yearLeapMonth: int, animalIndex: int, animalName: string,
                                 yearGZ: GZItem)

  // -------------------------------------------------------------- day names

  /** The Chinese name of lunar day d, "" outside 1..30. */
  function DayChinese(d: int): (name: string)
    ensures name == "" <==> !(1 <= d <= 30)
    ensures 1 <= d <= 30 ==> |name| == 2
  {
    if d < 1 || d > 30 then ""
    else if d == 10 then WholeTens[0] + Numbers[10]
    else if d == 20 then Numbers[2] + Numbers[10]
    else if d == 30 then Numbers[3] + Numbers[10]
    else WholeTens[d / 10] + Numbers[d % 10]
  }

  function TensOf(c: char): int
  {
    if c == '初' then 0 else if c == '十' then 1 else if c == '廿' then 2 else if c == '卅' then 3 else -100
  }

  function UnitOf(c: char): int
  {
    if c == '一' then 1 else if c == '二' then 2 else if c == '三' then 3
    else if c == '四' then 4 else if c == '五' then 5 else if c == '六' then 6
    else if c == '七' then 7 else if c == '八' then 8 else if c == '九' then 9 else -100
  }

  /** Reads a day name back: 初十, 二十 and 三十 are the whole tens, any other
    * name is a tens prefix and a digit. */
  function DayOfName(name: string): int
  {
    if |name| != 2 then 0
    else if name[1] == '十' then
      (if name[0] == '初' then 10 else if name[0] == '二' then 20 else if name[0] == '三' then 30 else 0)
    else 10 * TensOf(name[0]) + UnitOf(name[1])
  }

  /** Every day of a lunar month has its own name. */
  lemma DayNameRoundTrip(d: int)
    requires 1 <= d <= 30
    ensures DayOfName(DayChinese(d)) == d
  {
    if d != 10 && d != 20 && d != 30 {
      var k, m := d / 10, d % 10;
      assert d == 10 * k + m && 1 <= m <= 9 && 0 <= k <= 2;
      assert DayChinese(d) == WholeTens[k] + Numbers[m];
      assert TensOf(WholeTens[k][0]) == k by {
        if k == 0 {} else if k == 1 {} else {}
      }
      assert UnitOf(Numbers[m][0]) == m by {
        if m == 1 {} else if m == 2 {} else if m == 3 {} else if m == 4 {}
        else if m == 5 {} else if m == 6 {} else if m == 7 {} else if m == 8 {} else {}
      }
    }
  }

  // ----------------------------------------------------- month and year names

  /** The month number of a month code: code 2 is the first month, 0 and 1
    * the eleventh and twelfth of the year before. */
  function MonthOfCode(c: real): (m: int)
    requires c >= 0.0
    ensures 1 <= m <= 12
  {
    GoMath.GoRem((c + 10.0).Floor, 12) + 1
  }

  /** Codes 2..13 are months 1..12, a leap code shares the number of the
    * code before it, and the numbers repeat every 12 codes. */
  lemma MonthOfCodeNumbers(n: int)
    requires n >= 0
    ensures 2 <= n <= 13 ==> MonthOfCode(n as real) == n - 1
    ensures n == 0 ==> MonthOfCode(0.0) == 11
    ensures n == 1 ==> MonthOfCode(1.0) == 12
    ensures MonthOfCode(n as real + 0.5) == MonthOfCode(n as real)
    ensures MonthOfCode((n + 12) as real) == MonthOfCode(n as real)
  {
    assert (n as real + 0.5 + 10.0).Floor == n + 10;
    assert ((n + 12) as real + 10.0).Floor == (n + 10) + 12;
  }

  /** The sexagenary index of a lunar year, as `((y + 4712 + 24) % 60 + 60) % 60`
    * computes it with Go's `%`: the Euclidean remainder, so year 1984 is
    * the first of the cycle. */
  function YearPillarIndex(lunarYear: int): (ygz: int)
    ensures ygz == (lunarYear + 4736) % 60
    ensures 0 <= ygz < 60
  {
    GoMath.GoRemAgrees(lunarYear + 4712 + 24, 60);
    GoMath.GoRem(GoMath.GoRem(lunarYear + 4712 + 24, 60) + 60, 60)
  }

  lemma YearPillarTestVectors()
    ensures YearPillarIndex(1984) == 0 && YearPillarIndex(2044) == 0
    ensures YearPillarIndex(2021) % 10 == 7 && YearPillarIndex(2021) % 12 == 1
    ensures YearPillarIndex(-4736) == 0 && YearPillarIndex(-4737) == 59
  {
  }

  // --------------------------------------------------------- the month slot

  /** Day number dn falls in lunation i of the window (China time). */
  predicate InSlot(nm: seq<real>, dn: int, i: int)
    requires |nm| == 16 && 0 <= i <= 14
  {
    LocalDay(nm[i]) <= dn < LocalDay(nm[i + 1])
  }

  /** The first lunation in from..14 holding day dn, or 15 when none does. */
  function SlotFrom(nm: seq<real>, dn: int, from: int): (i: int)
    requires |nm| == 16 && 0 <= from <= 15
    ensures from <= i <= 15
    ensures i <= 14 ==> InSlot(nm, dn, i)
    ensures forall j :: from <= j < i ==> !InSlot(nm, dn, j)
    decreases 15 - from
  {
    if from == 15 then 15 else if InSlot(nm, dn, from) then from else SlotFrom(nm, dn, from + 1)
  }

  /** The slot gregorianToLunar's search leaves: the lunation holding dn, or 0. */
  function MonthSlot(nm: seq<real>, dn: int): (mi: int)
    requires |nm| == 16
    ensures 0 <= mi <= 14
  {
    var i := SlotFrom(nm, dn, 0);
    if i == 15 then 0 else i
  }

  /** With the new-moon days going up, a day lies in at most one lunation. */
  lemma SlotUnique(nm: seq<real>, dn: int, i: int)
    requires |nm| == 16 && 0 <= i <= 14
    requires forall j :: 0 <= j < 15 ==> LocalDay(nm[j]) <= LocalDay(nm[j + 1])
    requires InSlot(nm, dn, i)
    ensures MonthSlot(nm, dn) == i
  {
    var s := SlotFrom(nm, dn, 0);
    if s < i {
      MonotoneDays(nm, s + 1, i);
    }
  }

  lemma {:induction false} MonotoneDays(nm: seq<real>, a: int, b: int)
    requires |nm| == 16 && 0 <= a <= b <= 15
    requires forall j :: 0 <= j < 15 ==> LocalDay(nm[j]) <= LocalDay(nm[j + 1])
    ensures LocalDay(nm[a]) <= LocalDay(nm[b])
    decreases b - a
  {
    if a < b {
      MonotoneDays(nm, a + 1, b);
    }
  }

  /** The search loop of gregorianToLunar. */
  method FindMonthSlot(nm: seq<real>, dn: int) returns (mi: int)
    requires |nm| == 16
    ensures mi == MonthSlot(nm, dn)
  {
    mi := 0;
    var i := 0;
    while i <= 14
      invariant 0 <= i <= 15 && mi == 0
      invariant SlotFrom(nm, dn, i) == SlotFrom(nm, dn, 0)
    {
      if dn >= LocalDay(nm[i]) && dn < LocalDay(nm[i + 1]) {
        mi := i;
        return;
      }
      i := i + 1;
    }
  }

  // ------------------------------------------------------ gregorianToLunar

  /** The day number of a civil date and time: the integer part of its
    * Julian Day counted from midnight. */
  function DayNumber(year: int, month: int, day: int, hour: int, minute: int, second: int): int
  {
    (Julian.JulianDay(year, month, day, [hour as real, minute as real, second as real]) + 0.5).Floor
  }

  /** The lunar date of day dn in lunation mi, whose month code is c and
    * whose new moon is at nmJd; the year counts back one for codes below 2
    * (the eleventh and twelfth months) and when the table of the year
    * before was used. */
  function DateInSlot(year: int, prev: bool, c: real, nmJd: real, dn: int): (ld: LunarDate)
    requires c >= 0.0
    ensures ld.year == (if c < 2.0 || prev then year - 1 else year)
    ensures ld.month == MonthOfCode(c) && ld.day == dn - LocalDay(nmJd) + 1
    ensures ld.leapStr != "" <==> IsLeapCode(c)
    ensures ld.yearLeapMonth == (if IsLeapCode(c) then ld.month else 0)
    ensures ld.monthName == MonthNames[ld.month - 1] && ld.dayName == DayChinese(ld.day)
    ensures ld.animalIndex == ld.yearGZ.ebi && ld.yearGZ.ebi == YearPillarIndex(ld.year) % 12
    ensures ld.yearGZ.hsi == YearPillarIndex(ld.year) % 10
    ensures ld.yearGZ.hsn == StemNames[ld.yearGZ.hsi] && ld.yearGZ.ebn == BranchNames[ld.yearGZ.ebi]
    ensures ld.animalName == AnimalNames[ld.animalIndex]
  {
    var lunarYear := if c < 2.0 || prev then year - 1 else year;
    var isLeap := (c - c.Floor as real) * 2.0 + 1.0 != 1.0;
    var month := MonthOfCode(c);
    var lunarDay := dn - LocalDay(nmJd) + 1;
    var ygz := YearPillarIndex(lunarYear);
    LunarDate(lunarYear, month, lunarDay, MonthNames[month - 1], DayChinese(lunarDay),
              if isLeap then LeapString else "", if isLeap then month else 0,
              ygz % 12, AnimalNames[ygz % 12],
              GZItem(ygz % 10, StemNames[ygz % 10], ygz % 12, BranchNames[ygz % 12]))
  }

  /** The lunar date of day dn in a year table (nm, lmc). */
  function DateInTable(nm: seq<real>, lmc: seq<real>, year: int, prev: bool, dn: int): LunarDate
    requires |nm| == 16 && |lmc| == 15 && forall k :: 0 <= k < 15 ==> lmc[k] >= 0.0
  {
    var mi := MonthSlot(nm, dn);
    DateInSlot(year, prev, lmc[mi], nm[mi], dn)
  }

  /** The year table gregorianToLunar reads day number dn of civil year
    * `year` from: the year's own, or the year before's when dn is earlier
    * than the first new moon of the year's table (then `prev` is true). */
  function ChosenTable(eph: Astronomy.Ephemeris, year: int, dn: int): (tp: (Result<(seq<real>, seq<real>), CalendarError>, bool))
    ensures tp.0.Success? ==> |tp.0.value.0| == 16 && |tp.0.value.1| == 15 && forall k :: 0 <= k < 15 ==> tp.0.value.1[k] >= 0.0
  {
    var t := YearTable(eph, year);
    if t.Success? && dn < LocalDay(t.value.0[0]) then (YearTable(eph, year - 1), true) else (t, false)
  }

  /** gregorianToLunar for day number dn of civil year `year`. */
  function LunarOfDay(eph: Astronomy.Ephemeris, year: int, dn: int): (r: Result<LunarDate, CalendarError>)
  {
    var (t, prev) := ChosenTable(eph, year, dn);
    if t.Failure? then Failure(t.error) else Success(DateInTable(t.value.0, t.value.1, year, prev, dn))
  }

  /** gregorianToLunar for a civil date and time. */
  function LunarOf(eph: Astronomy.Ephemeris, year: int, month: int, day: int, hour: int, minute: int, second: int): (r: Result<LunarDate, CalendarError>)
  {
    LunarOfDay(eph, year, DayNumber(year, month, day, hour, minute, second))
  }

  /** The table lookups of gregorianToLunar. */
  method TableOfDay(eph: Astronomy.Ephemeris, year: int, dn: int) returns (t: Result<(seq<real>, seq<real>), CalendarError>, prev: bool)
    ensures (t, prev) == ChosenTable(eph, year, dn)
  {
    t := ZqAndSMandLunarMonthCode(eph, year);
    prev := false;
    if t.Success? && dn < LocalDay(t.value.0[0]) {
      prev := true;
      t := ZqAndSMandLunarMonthCode(eph, year - 1);
    }
  }

  /** The slot search of gregorianToLunar and the date it reads off. */
  method DateOfTable(nm: seq<real>, lmc: seq<real>, year: int, prev: bool, dn: int) returns (ld: LunarDate)
    requires |nm| == 16 && |lmc| == 15 && forall k :: 0 <= k < 15 ==> lmc[k] >= 0.0
    ensures ld == DateInTable(nm, lmc, year, prev, dn)
  {
    var mi := FindMonthSlot(nm, dn);
    ld := DateInSlot(year, prev, lmc[mi], nm[mi], dn);
  }

  /** gregorianToLunar from the day number on. */
  method LunarOfDayNumber(eph: Astronomy.Ephemeris, year: int, dn: int) returns (r: Result<LunarDate, CalendarError>)
    ensures r == LunarOfDay(eph, year, dn)
  {
    var t, prev := TableOfDay(eph, year, dn);
    if t.Failure? {
      return Failure(t.error);
    }
    var ld := DateOfTable(t.value.0, t.value.1, year, prev, dn);
    r := Success(ld);
  }

  /** gregorianToLunar. */
  method GregorianToLunar(eph: Astronomy.Ephemeris, year: int, month: int, day: int, hour: int, minute: int, second: int)
    returns (r: Result<LunarDate, CalendarError>)
    ensures r == LunarOf(eph, year, month, day, hour, minute, second)
  {
    var dn := DayNumber(year, month, day, hour, minute, second);
    r := LunarOfDayNumber(eph, year, dn);
  }

  /** A day found in a lunation is a day of that lunation's month. */
  lemma LunarDayInMonth(nm: seq<real>, lmc: seq<real>, year: int, prev: bool, dn: int)
    requires |nm| == 16 && |lmc| == 15 && forall k :: 0 <= k < 15 ==> lmc[k] >= 0.0
    requires SlotFrom(nm, dn, 0) <= 14
    ensures var mi := MonthSlot(nm, dn);
            1 <= DateInTable(nm, lmc, year, prev, dn).day <= MonthLengths(nm)[mi]
  {
  }

  // -------------------------------------------------- month lengths (mdList)

  /** The length of each lunation of the window, in China-time days. */
  function MonthLengths(nm: seq<real>): (lmd: seq<int>)
    requires |nm| == 16
    ensures |lmd| == 15
    ensures forall i :: 0 <= i < 15 ==> LocalDay(nm[i]) + lmd[i] == LocalDay(nm[i + 1])
  {
    seq(15, i requires 0 <= i < 15 => LocalDay(nm[i + 1]) - LocalDay(nm[i]))
  }

  /** The 15 lengths add up to the days from the first to the last new moon. */
  lemma {:induction false} MonthLengthsTelescope(nm: seq<real>, n: int)
    requires |nm| == 16 && 0 <= n <= 15
    ensures SumInts(MonthLengths(nm)[..n]) == LocalDay(nm[n]) - LocalDay(nm[0])
    decreases n
  {
    if n > 0 {
      MonthLengthsTelescope(nm, n - 1);
      assert MonthLengths(nm)[..n] == MonthLengths(nm)[..n - 1] + [MonthLengths(nm)[n - 1]];
      SumIntsPush(MonthLengths(nm)[..n - 1], MonthLengths(nm)[n - 1]);
    }
  }

  function SumInts(xs: seq<int>): int
  {
    if |xs| == 0 then 0 else xs[0] + SumInts(xs[1..])
  }

  lemma {:induction false} SumIntsPush(xs: seq<int>, x: int)
    ensures SumInts(xs + [x]) == SumInts(xs) + x
  {
    if |xs| > 0 {
      assert (xs + [x])[1..] == xs[1..] + [x];
      SumIntsPush(xs[1..], x);
    }
  }

  /** The loop of mdList (and of lunarToGregorian's nofd). */
  method MonthLengthsOf(nm: seq<real>) returns (lmd: seq<int>)
    requires |nm| == 16
    ensures lmd == MonthLengths(nm)
  {
    lmd := [];
    var i := 0;
    while i <= 14
      invariant 0 <= i <= 15 && |lmd| == i
      invariant forall j :: 0 <= j < i ==> lmd[j] == LocalDay(nm[j + 1]) - LocalDay(nm[j])
    {
      lmd := lmd + [LocalDay(nm[i + 1]) - LocalDay(nm[i])];
      i := i + 1;
    }
  }

  /** mdList: the lengths of the 15 lunations of a year's window. */
  method MdList(eph: Astronomy.Ephemeris, lunarYear: int) returns (r: Result<seq<int>, CalendarError>)
    ensures r.Failure? <==> YearTable(eph, lunarYear).Failure?
    ensures r.Success? ==> r.value == MonthLengths(YearTable(eph, lunarYear).value.0)
  {
    var t := ZqAndSMandLunarMonthCode(eph, lunarYear);
    if t.Failure? {
      return Failure(t.error);
    }
    var lmd := MonthLengthsOf(t.value.0);
    r := Success(lmd);
  }

  // ---------------------------------------------------- lunarToGregorian

  /** The lunation a lunar month m2 (the month number plus 2) stands for in
    * a window whose leap slot is `leap`: the leap month itself, or the month
    * and one more once past the leap month; with the errors of a leap
    * request in a year without one or for another month. */
  function TargetSlot(leap: int, m2: int, isLeap: bool): (r: Result<int, CalendarError>)
    ensures r.Failure? <==> isLeap && (leap < 3 || leap != m2)
    ensures r.Failure? ==> r.error == (if leap < 3 then NotLeapYear else NotLeapMonth)
    ensures r.Success? ==> r.value == (if isLeap || (leap != 0 && m2 > leap) then m2 else m2 - 1)
  {
    if isLeap then
      if leap < 3 then Failure(NotLeapYear)
      else if leap != m2 then Failure(NotLeapMonth)
      else Success(m2)
    else if leap == 0 then Success(m2 - 1)
    else
      var k := if m2 > leap then m2 else m2 - 1;
      Success(k)
  }

  /** The slot of a lunar month, and the index panic when it lies outside
    * the 15 lunations. */
  function SlotOfMonth(lmc: seq<real>, lunarMonth: int, isLeap: bool): (r: Result<int, CalendarError>)
    requires |lmc| == 15
    ensures r.Success? ==> 0 <= r.value <= 14
  {
    var k := TargetSlot(LeapSlot(lmc), lunarMonth + 2, isLeap);
    if k.Failure? then Failure(k.error)
    else if !(0 <= k.value <= 14) then Failure(IndexOutOfRange)
    else k
  }

  /** The Julian Day lunarToGregorian gives day d of a month in lunation k:
    * midnight after the integer part of the new moon plus d - 1. */
  function DayJdAsWritten(nmJd: real, d: int): real
  {
    (nmJd + d as real - 1.0).Floor as real + 0.5
  }

  /** The Julian Day of midnight starting day d of a lunation in China time. */
  function DayJdCorrected(nmJd: real, d: int): real
  {
    (LocalDay(nmJd) + d - 1) as real - 0.5
  }

  /** lunarToGregorian over a year table, placing the day as written or, when `corrected`, in China time. */
  function JdOfLunarDate(nm: seq<real>, lmc: seq<real>, lunarMonth: int, lunarDay: int, isLeap: bool, corrected: bool): (r: Result<real, CalendarError>)
    requires |nm| == 16 && |lmc| == 15
  {
    var k := SlotOfMonth(lmc, lunarMonth, isLeap);
    if k.Failure? then Failure(k.error)
    else if lunarDay > MonthLengths(nm)[k.value] then Failure(DayOutOfRange)
    else if corrected then Success(DayJdCorrected(nm[k.value], lunarDay))
    else Success(DayJdAsWritten(nm[k.value], lunarDay))
  }

  /** LunarToGregorian: the leap flag counts only for a positive month
    * (it travels as YearLeapMonth, which must be positive and equal the month). */
  function LunarToJd(eph: Astronomy.Ephemeris, lunarYear: int, lunarMonth: int, lunarDay: int, isLeap: bool, corrected: bool): (r: Result<real, CalendarError>)
  {
    var t := YearTable(eph, lunarYear);
    if t.Failure? then Failure(t.error)
    else JdOfLunarDate(t.value.0, t.value.1, lunarMonth, lunarDay, isLeap && lunarMonth > 0, corrected)
  }

  /** lunarToGregorian over the year table it fetched: the leap slot, the
    * month lengths nofd, the slot of the month and the day's Julian Day,
    * placed at the China-time midnight that starts the day (`corrected`; as
    * written it is the midnight after the integer part of the new moon plus
    * day - 1, see AsWrittenDayLate). */
  method JdOfTable(nm: seq<real>, lmc: seq<real>, lunarMonth: int, lunarDay: int, isLeap: bool)
    returns (r: Result<real, CalendarError>)
    requires |nm| == 16 && |lmc| == 15
    ensures r == JdOfLunarDate(nm, lmc, lunarMonth, lunarDay, isLeap, true)
  {
    var leapMonth := McLeap(lmc);
    var m2 := lunarMonth + 2;
    var nofd := MonthLengthsOf(nm);
    var k := TargetSlot(leapMonth, m2, isLeap);
    if k.Failure? {
      return Failure(k.error);
    }
    if !(0 <= k.value <= 14) {
      return Failure(IndexOutOfRange);
    }
    if lunarDay > nofd[k.value] {
      return Failure(DayOutOfRange);
    }
    assert SlotOfMonth(lmc, lunarMonth, isLeap) == k;
    r := Success(DayJdCorrected(nm[k.value], lunarDay));
  }

  /** LunarToGregorian, up to the Julian Day it hands to JdToTime, with the
    * day placed in China time. */
  method LunarToGregorian(eph: Astronomy.Ephemeris, lunarYear: int, lunarMonth: int, lunarDay: int, isLeap: bool)
    returns (r: Result<real, CalendarError>)
    ensures r == LunarToJd(eph, lunarYear, lunarMonth, lunarDay, isLeap, true)
  {
    var yearLeapMonth := if isLeap then lunarMonth else 0;
    var leapFlag := yearLeapMonth > 0 && yearLeapMonth == lunarMonth;
    var t := ZqAndSMandLunarMonthCode(eph, lunarYear);
    if t.Failure? {
      return Failure(t.error);
    }
    r := JdOfTable(t.value.0, t.value.1, lunarMonth, lunarDay, leapFlag);
  }

  // ---------------------------------------------------- LunarMonthDays

  /** LunarMonthDays over a year table: the length of the lunation the month
    * stands for (here the leap flag is taken as given). */
  function MonthDaysOf(nm: seq<real>, lmc: seq<real>, lunarMonth: int, isLeap: bool): (r: Result<int, CalendarError>)
    requires |nm| == 16 && |lmc| == 15
  {
    var k := SlotOfMonth(lmc, lunarMonth, isLeap);
    if k.Failure? then Failure(k.error) else Success(MonthLengths(nm)[k.value])
  }

  function LunarMonthDaysOf(eph: Astronomy.Ephemeris, lunarYear: int, lunarMonth: int, isLeap: bool): (r: Result<int, CalendarError>)
  {
    var t := YearTable(eph, lunarYear);
    if t.Failure? then Failure(t.error) else MonthDaysOf(t.value.0, t.value.1, lunarMonth, isLeap)
  }

  /** LunarMonthDays. */
  method LunarMonthDays(eph: Astronomy.Ephemeris, lunarYear: int, lunarMonth: int, isLeap: bool)
    returns (r: Result<int, CalendarError>)
    ensures r == LunarMonthDaysOf(eph, lunarYear, lunarMonth, isLeap)
  {
    var t := ZqAndSMandLunarMonthCode(eph, lunarYear);
    if t.Failure? {
      return Failure(t.error);
    }
    var leapMonth := McLeap(t.value.1);
    var m2 := lunarMonth + 2;
    var lmd := MdList(eph, lunarYear);
    var k := TargetSlot(leapMonth, m2, isLeap);
    if k.Failure? {
      return Failure(k.error);
    }
    if !(0 <= k.value <= 14) {
      return Failure(IndexOutOfRange);
    }
    r := Success(lmd.value[k.value]);
  }

  /** A lunar date converts exactly when its day is at most the length
    * LunarMonthDays gives its month, and both fail alike otherwise. */
  lemma MonthDaysBoundLunarToGregorian(nm: seq<real>, lmc: seq<real>, lunarMonth: int, lunarDay: int, isLeap: bool, corrected: bool)
    requires |nm| == 16 && |lmc| == 15
    ensures var days := MonthDaysOf(nm, lmc, lunarMonth, isLeap);
            var jd := JdOfLunarDate(nm, lmc, lunarMonth, lunarDay, isLeap, corrected);
            (jd.Success? <==> days.Success? && lunarDay <= days.value)
            && (days.Failure? ==> jd == Failure(days.error))
            && (days.Success? && lunarDay > days.value ==> jd == Failure(DayOutOfRange))
  {
  }

  // --------------------------------------------------------- LunarLeap

  function LunarLeapOf(eph: Astronomy.Ephemeris, lunarYear: int): (r: Result<int, CalendarError>)
  {
    var t := YearTable(eph, lunarYear);
    if t.Failure? then Failure(t.error)
    else
      var leap := LeapSlot(t.value.1);
      Success(if leap - 2 > 0 then leap - 2 else 0)
  }

  /** LunarLeap: the month a year's leap month follows, 0 for none. */
  method LunarLeap(eph: Astronomy.Ephemeris, lunarYear: int) returns (r: Result<int, CalendarError>)
    ensures r == LunarLeapOf(eph, lunarYear)
  {
    var t := ZqAndSMandLunarMonthCode(eph, lunarYear);
    if t.Failure? {
      return Failure(t.error);
    }
    var leap := McLeap(t.value.1);
    r := Success(if leap - 2 > 0 then leap - 2 else 0);
  }

  /** LunarLeap names the month the leap month repeats, and is 0 exactly when
    * no month from the first month of the year on is a leap month. */
  lemma LunarLeapNamesLeapMonth(eph: Astronomy.Ephemeris, lunarYear: int)
    requires YearTable(eph, lunarYear).Success?
    ensures var nm := YearTable(eph, lunarYear).value.0;
            var lmc := YearTable(eph, lunarYear).value.1;
            var f := LeapIndex(QiSinceSolstice(eph, lunarYear), nm);
            var n := LunarLeapOf(eph, lunarYear).value;
            (n == 0 <==> !(3 <= f <= 14))
            && (3 <= f <= 14 ==> IsLeapCode(lmc[f]) && n == MonthOfCode(lmc[f]) && n == MonthOfCode(lmc[f - 1]))
  {
    var qss := QiSinceSolstice(eph, lunarYear);
    var nm := YearTable(eph, lunarYear).value.0;
    var lmc := YearTable(eph, lunarYear).value.1;
    var f := LeapIndex(qss, nm);
    LeapSlotOfMonthCodes(qss, nm);
    MonthCodesShape(qss, nm);
    if 3 <= f <= 14 {
      MonthCodesLeaps(qss, nm, f);
      assert lmc[f] == (f - 1) as real + 0.5;
      assert lmc[f - 1] == (f - 1) as real;
      MonthOfCodeNumbers(f - 1);
    }
  }

  // -------------------------------------------------------- round trips

  /** The slot a lunar date names is the slot it came from, for a month of
    * the lunar year (code 2 up to 14) that is no second leap month. */
  lemma SlotRoundTrip(qss: seq<real>, nm: seq<real>, i: int)
    requires |qss| == 16 && |nm| == 16 && 0 <= i < 15
    requires var lmc := MonthCodes(qss, nm);
             2.0 <= lmc[i] < 14.0 && (IsLeapCode(lmc[i]) ==> i == LeapSlot(lmc))
    ensures var lmc := MonthCodes(qss, nm);
            var m := MonthOfCode(lmc[i]);
            SlotOfMonth(lmc, m, IsLeapCode(lmc[i]) && m > 0) == Success(i)
  {
    var lmc := MonthCodes(qss, nm);
    var f := LeapIndex(qss, nm);
    MonthCodesShape(qss, nm);
    MonthCodesLeaps(qss, nm, i);
    LeapSlotOfMonthCodes(qss, nm);
    var m := MonthOfCode(lmc[i]);
    if i < f {
      assert lmc[i] == i as real;
      MonthOfCodeNumbers(i);
    } else if i == f {
      assert lmc[i] == (i - 1) as real + 0.5;
      MonthOfCodeNumbers(i - 1);
    } else {
      assert !IsLeapCode(lmc[i]);
      assert lmc[i] == (i - 1) as real;
      MonthOfCodeNumbers(i - 1);
    }
  }

  /** A day of lunation i is regular when it lies in the lunation, the
    * lunation is a month of the table's lunar year, and it is no second leap
    * month. */
  predicate RegularDay(nm: seq<real>, lmc: seq<real>, dn: int)
    requires |nm| == 16 && |lmc| == 15
  {
    var i := SlotFrom(nm, dn, 0);
    i <= 14 && 2.0 <= lmc[i] < 14.0 && (IsLeapCode(lmc[i]) ==> i == LeapSlot(lmc))
  }

  /** In a window's table, the lunar date of a regular day converts back to
    * that day with the corrected day rule; as written it does so exactly
    * when the lunation's new moon is not in the last four hours of a
    * China-time day (fraction of its Julian Day at least 1/6). */
  lemma TableRoundTrip(qss: seq<real>, nm: seq<real>, year: int, dn: int)
    requires |qss| == 16 && |nm| == 16 && RegularDay(nm, MonthCodes(qss, nm), dn)
    ensures var lmc := MonthCodes(qss, nm);
            var ld := DateInTable(nm, lmc, year, false, dn);
            var nmJd := nm[SlotFrom(nm, dn, 0)];
            var back := JdOfLunarDate(nm, lmc, ld.month, ld.day, ld.leapStr != "" && ld.month > 0, true);
            var asWritten := JdOfLunarDate(nm, lmc, ld.month, ld.day, ld.leapStr != "" && ld.month > 0, false);
            ld.year == year && back.Success? && (back.value + 0.5).Floor == dn
            && asWritten.Success?
            && ((asWritten.value + 0.5).Floor == dn <==> nmJd - nmJd.Floor as real >= 1.0 / 6.0)
  {
    var lmc := MonthCodes(qss, nm);
    var i := SlotFrom(nm, dn, 0);
    var ld := DateInTable(nm, lmc, year, false, dn);
    var d := dn - LocalDay(nm[i]) + 1;
    assert ld == DateInSlot(year, false, lmc[i], nm[i], dn);
    assert ld.month == MonthOfCode(lmc[i]) && ld.day == d && (ld.leapStr != "" <==> IsLeapCode(lmc[i]));
    SlotRoundTrip(qss, nm, i);
    JdOfSlot(nm, lmc, ld.month, d, ld.leapStr != "" && ld.month > 0, i);
    DayJdAsWrittenDay(nm[i], d);
  }

  /** A lunar date whose month names slot i and whose day lies in that
    * lunation converts to the Julian Day of that day. */
  lemma JdOfSlot(nm: seq<real>, lmc: seq<real>, lunarMonth: int, lunarDay: int, isLeap: bool, i: int)
    requires |nm| == 16 && |lmc| == 15 && 0 <= i <= 14
    requires SlotOfMonth(lmc, lunarMonth, isLeap) == Success(i)
    requires 1 <= lunarDay <= MonthLengths(nm)[i]
    ensures JdOfLunarDate(nm, lmc, lunarMonth, lunarDay, isLeap, true) == Success(DayJdCorrected(nm[i], lunarDay))
    ensures JdOfLunarDate(nm, lmc, lunarMonth, lunarDay, isLeap, false) == Success(DayJdAsWritten(nm[i], lunarDay))
    ensures (DayJdCorrected(nm[i], lunarDay) + 0.5).Floor == LocalDay(nm[i]) + lunarDay - 1
  {
  }

  /** The civil day the as-written rule gives: the integer part of the new
    * moon plus d, which is the China-time day of the new moon plus d - 1
    * only when the new moon's fraction is at least 1/6. */
  lemma DayJdAsWrittenDay(nmJd: real, d: int)
    ensures (DayJdAsWritten(nmJd, d) + 0.5).Floor == nmJd.Floor + d
    ensures nmJd.Floor + d == LocalDay(nmJd) + d - 1 <==> nmJd - nmJd.Floor as real >= 1.0 / 6.0
  {
    var n := nmJd.Floor;
    var fr := nmJd - n as real;
    assert (nmJd + d as real - 1.0).Floor == n + d - 1;
    assert 0.0 <= fr < 1.0;
    if fr >= 1.0 / 6.0 {
      assert (nmJd + 0.5 + ChineseTimeOffsetDays).Floor == n + 1;
    } else {
      assert (nmJd + 0.5 + ChineseTimeOffsetDays).Floor == n;
    }
  }

  /** A new moon at 22:24 China time (Julian Day 2459000.1): as written the
    * first day of its month is placed on the day after the new moon's day. */
  lemma AsWrittenDayLate()
    ensures LocalDay(2459000.1) == 2459000
    ensures (DayJdAsWritten(2459000.1, 1) + 0.5).Floor == 2459001
    ensures (DayJdCorrected(2459000.1, 1) + 0.5).Floor == 2459000
  {
    DayJdAsWrittenDay(2459000.1, 1);
  }
}
