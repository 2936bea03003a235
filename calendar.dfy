/** calendar.go: the configuration a Calendar is built with, the state it
  * keeps about its reference time, and the arithmetic its month grid is laid
  * out with (first cell, days of the neighbouring months, nth-weekday
  * festivals, star signs, the solar-term list of a year). Times are civil
  * date records or Julian Day Numbers; time zones are resolved outside. */
module CalendarGrid {
  import opened Wrappers
  import Utils
  import DateTime
  import Astronomy
  import GoMath

  const GridDay := 0
  const GridWeek := 1
  const GridMonth := 2

  /** CalendarConfig. */
  datatype CalendarConfig = CalendarConfig(
    grid: int, firstWeek: int, timeZoneName: string,
    solarTerms: bool, lunar: bool, heavenlyEarthly: bool, nightZiHour: bool, starSign: bool)

  /** A configuration NewCalendar can produce: a grid kind 0..2 and a first
    * weekday 0..6 (Sunday is 0). */
  predicate ValidConfig(cfg: CalendarConfig)
  {
    0 <= cfg.grid < 3 && 0 <= cfg.firstWeek < 7
  }

  /** `int(math.Mod(math.Abs(float64(x)), n))`: the remainder of |x|. */
  function AbsMod(x: int, n: int): (r: int)
    requires n > 0
    ensures 0 <= r < n
    ensures x >= 0 ==> (x - r) % n == 0
    ensures x < 0 ==> (x + r) % n == 0
  {
    var a := if x < 0 then -x else x;
    assert a == n * (a / n) + a % n;
    if x >= 0 then
      GoMath.EuclidUnique(x - a % n, n, a / n, 0);
      a % n
    else
      GoMath.EuclidUnique(x + a % n, n, -(a / n), 0);
      a % n
  }

  /** The grid kind and first weekday as NewCalendar reduces them. */
  function NormalizeConfig(cfg: CalendarConfig): (c: CalendarConfig)
    ensures ValidConfig(c)
    ensures c.grid == AbsMod(cfg.grid, 3) && c.firstWeek == AbsMod(cfg.firstWeek, 7)
    ensures c.(grid := cfg.grid, firstWeek := cfg.firstWeek) == cfg
  {
    cfg.(grid := AbsMod(cfg.grid, 3), firstWeek := AbsMod(cfg.firstWeek, 7))
  }

  /** A reduced configuration is left as it is, so normalising is idempotent. */
  lemma NormalizeKeepsValid(cfg: CalendarConfig)
    ensures ValidConfig(cfg) ==> NormalizeConfig(cfg) == cfg
    ensures NormalizeConfig(NormalizeConfig(cfg)) == NormalizeConfig(cfg)
  {
  }

  lemma NormalizeExamples(cfg: CalendarConfig)
    requires cfg.grid == -2 && cfg.firstWeek == 789
    ensures NormalizeConfig(cfg).grid == 2 && NormalizeConfig(cfg).firstWeek == 5
  {
  }

  /** A civil date and time, as time.Date is given it: the last field is
    * time.Date's nanosecond argument. */
  datatype RawTime = RawTime(year: int, month: int, day: int, hour: int, minute: int, second: int, nsec: int)

  /** Part i of SetRawTime's variadic time parts, 0 when absent. */
  function TimePart(parts: seq<int>, i: nat): int
  {
    if i < |parts| then parts[i] else 0
  }

  datatype SolarTermItem = SolarTermItem(index: int, name: string, jd: real)

  /** The part of a calendar cell CalendarGrid computes itself. */
  datatype CalendarItem = CalendarItem(time: RawTime, isAccidental: int)

  /** The cached solar-term lists, by year; the other caches hold values
    * that are recomputed identically. */
  datatype TempData = TempData(st: map<int, seq<SolarTermItem>>)

  const EmptyTemp := TempData(map[])

  const SolarTermNames: seq<string> := ["春分", "清明", "谷雨", "立夏", "小满", "芒种", "夏至", "小暑", "大暑", "立秋", "处暑", "白露",
                                        "秋分", "寒露", "霜降", "立冬", "小雪", "大雪", "冬至", "小寒", "大寒", "立春", "雨水", "惊蛰"]

  // ---------------------------------------------------------- week arithmetic

  /** The weekday (0 Sunday .. 6 Saturday) of Julian Day Number dn. */
  function Weekday(dn: int): (w: int)
    ensures 0 <= w < 7
  {
    (dn + 1) % 7
  }

  lemma WeekdayOfJ2000()
    ensures Weekday(2451545) == 6   // 1 January 2000 was a Saturday
  {
  }

  lemma WeekdayNext(dn: int)
    ensures Weekday(dn + 1) == (Weekday(dn) + 1) % 7
  {
  }

  /** firstDay's differenceDays: how many days the grid's first column lies
    * before a day of weekday w. */
  function FirstDayOffset(w: int, firstWeek: int): (dd: int)
    requires 0 <= w < 7 && 0 <= firstWeek < 7
    ensures 0 <= dd < 7
    ensures (firstWeek + dd) % 7 == w
  {
    if w >= firstWeek then w - firstWeek else 7 - firstWeek + w
  }

  /** differenceDays is the only offset in 0..6 that reaches weekday w. */
  lemma FirstDayOffsetUnique(w: int, firstWeek: int, d: int)
    requires 0 <= w < 7 && 0 <= firstWeek < 7 && 0 <= d < 7
    requires (firstWeek + d) % 7 == w
    ensures d == FirstDayOffset(w, firstWeek)
  {
  }

  /** isAccidental: -1, 0 or 1 as the cell's month is before, the same as or
    * after the month the grid shows. */
  function IsAccidental(currentYear: int, currentMonth: int, year: int, month: int): (r: int)
    ensures r == -1 <==> year < currentYear || (year == currentYear && month < currentMonth)
    ensures r == 1 <==> year > currentYear || (year == currentYear && month > currentMonth)
    ensures r == 0 <==> year == currentYear && month == currentMonth
  {
    if currentYear > year then -1
    else if currentYear < year then 1
    else if currentMonth > month then -1
    else if currentMonth < month then 1
    else 0
  }

  /** For months 1..12 isAccidental is the sign of the difference of the
    * months counted from year 0. */
  lemma IsAccidentalIsMonthOrder(currentYear: int, currentMonth: int, year: int, month: int)
    requires 1 <= month <= 12 && 1 <= currentMonth <= 12
    ensures var diff := (year * 12 + month) - (currentYear * 12 + currentMonth);
            IsAccidental(currentYear, currentMonth, year, month) == (if diff < 0 then -1 else if diff > 0 then 1 else 0)
  {
  }

  /** The day of month of the num-th weekday `week` of a month whose first
    * day has weekday firstWeekday, or None when the month is too short. */
  function NthWeekday(year: int, month: int, num: int, week: int, firstWeekday: int): (d: Option<int>)
    requires 1 <= month <= 12 && 1 <= num <= 4 && 0 <= week <= 6 && 0 <= firstWeekday < 7
    ensures d.Some? <==> (num - 1) * 7 + 1 + (if week >= firstWeekday then week - firstWeekday else 7 - (firstWeekday - week))
                         <= DateTime.GregorianMonthDays(year, month)
    ensures d.Some? ==> 7 * (num - 1) + 1 <= d.value <= 7 * num
    ensures d.Some? ==> FallsOn(firstWeekday, d.value, week)
  {
    var differenceDays := if week >= firstWeekday then week - firstWeekday else 7 - (firstWeekday - week);
    var day := (num - 1) * 7 + 1 + differenceDays;
    if DateTime.GregorianMonthDays(year, month) < day then None else Some(day)
  }

  /** Day k of a month whose first day has weekday firstWeekday falls on `week`. */
  predicate FallsOn(firstWeekday: int, k: int, week: int)
  {
    (firstWeekday + k - 1) % 7 == week
  }

  /** The day NthWeekday finds is the num-th day of that weekday in the month. */
  lemma NthWeekdayCounts(year: int, month: int, num: int, week: int, firstWeekday: int)
    requires 1 <= month <= 12 && 1 <= num <= 4 && 0 <= week <= 6 && 0 <= firstWeekday < 7
    requires NthWeekday(year, month, num, week, firstWeekday).Some?
    ensures var day := NthWeekday(year, month, num, week, firstWeekday).value;
            |set k | 1 <= k <= day && FallsOn(firstWeekday, k, week)| == num
  {
    var day := NthWeekday(year, month, num, week, firstWeekday).value;
    var dd := day - 7 * (num - 1) - 1;
    assert 0 <= dd < 7 && FallsOn(firstWeekday, 1 + dd, week);
    var s := set k | 1 <= k <= day && FallsOn(firstWeekday, k, week);
    var t := set j | 0 <= j < num :: 1 + dd + 7 * j;
    forall k | k in s ensures k in t {
      SameRemainder(firstWeekday + k - 1, firstWeekday + dd, 7);
      var j := (k - 1 - dd) / 7;
      assert k - 1 - dd == 7 * j;
    }
    forall k | k in t ensures k in s {
      var j :| 0 <= j < num && k == 1 + dd + 7 * j;
      GoMath.ModShift(firstWeekday + dd, j, 7);
    }
    assert s == t;
    CardOfProgression(1 + dd, num);
  }

  /** Numbers with the same remainder differ by a multiple of the modulus. */
  lemma SameRemainder(x: int, y: int, m: int)
    requires m > 0 && x % m == y % m
    ensures x - y == m * ((x - y) / m)
  {
    assert x == m * (x / m) + x % m && y == m * (y / m) + y % m;
    GoMath.EuclidUnique(x - y, m, x / m - y / m, 0);
  }

  lemma {:induction false} CardOfProgression(a: int, n: nat)
    ensures |set j | 0 <= j < n :: a + 7 * j| == n
  {
    if n > 0 {
      var s := set j | 0 <= j < n :: a + 7 * j;
      var s' := set j | 0 <= j < n - 1 :: a + 7 * j;
      assert s == s' + {a + 7 * (n - 1)};
      CardOfProgression(a, n - 1);
    }
  }

  /** StarSign's table of the first day of each sign, by month. */
  const StarSignStartDays: seq<int> := [20, 19, 21, 20, 21, 22, 23, 23, 23, 24, 22, 22]

  const StarSignNames: seq<string> := ["水瓶", "双鱼", "白羊", "金牛", "双子", "巨蟹", "狮子", "处女", "天秤", "天蝎", "射手", "摩羯"]

  /** StarSign: the sign of a (month, day), or an error outside month 1..12
    * and day 1..31. */
  function StarSign(month: int, day: int): (r: Result<(int, string), string>)
    ensures r.Failure? <==> !(1 <= month <= 12 && 1 <= day <= 31)
    ensures r.Success? ==> 0 <= r.value.0 < 12 && r.value.1 == StarSignNames[r.value.0]
  {
    if month < 1 || month > 12 || day < 1 || day > 31 then Failure("日期错误！")
    else
      var i := month - 1;
      var j := if day < StarSignStartDays[i] then ((i + 12) - 1) % 12 else i;
      Success((j, StarSignNames[j]))
  }

  /** StarSign and the zodiac of utils.go pick the same sign. */
  lemma StarSignIsZodiac(month: int, day: int)
    requires 1 <= month <= 12 && 1 <= day <= 31
    ensures StarSign(month, day).value.0 == Utils.ZodiacIndex(month, day)
    ensures StarSign(month, day).value.1 == Utils.ZodiacTitle(Utils.ZodiacIndex(month, day))
  {
  }

  // --------------------------------------------------------- the term list

  /** The items SolarTerms appends for the nonzero slots from..|ts|-1 of
    * table ts that lie in lo..hi, numbered on from ji + 1. */
  function TermItems(ts: seq<real>, lo: int, hi: int, ji: int, from: nat): (items: seq<SolarTermItem>)
    requires from <= |ts|
    ensures |items| <= |ts| - from
    decreases |ts| - from
  {
    if from == |ts| then []
    else if ts[from] == 0.0 || from < lo || from > hi then TermItems(ts, lo, hi, ji, from + 1)
    else
      var index := (ji + 1 + 18) % 24;
      [SolarTermItem(index, SolarTermNames[index], ts[from])] + TermItems(ts, lo, hi, ji + 1, from + 1)
  }

  /** The 26 items SolarTerms builds: last year's slots 18..23 and this
    * year's 0..19, numbered on from -1. */
  function SolarTermList(last: seq<real>, asts: seq<real>): (items: seq<SolarTermItem>)
  {
    var a := TermItems(last, 18, 23, -1, 0);
    a + TermItems(asts, 0, 19, -1 + |a|, 0)
  }

  /** Slots below lo contribute nothing. */
  lemma {:induction false} TermItemsSkip(ts: seq<real>, lo: int, hi: int, ji: int, from: nat)
    requires from <= lo <= |ts|
    ensures TermItems(ts, lo, hi, ji, from) == TermItems(ts, lo, hi, ji, lo)
    decreases lo - from
  {
    if from < lo {
      TermItemsSkip(ts, lo, hi, ji, from + 1);
    }
  }

  /** When slots from..hi are all nonzero and hi is the table's last slot or
    * beyond it are only slots past hi, item k is slot from + k, named after
    * its number ji + 1 + k. */
  lemma {:induction false} TermItemsFull(ts: seq<real>, lo: int, hi: int, ji: int, from: nat)
    requires lo <= from <= hi + 1 && hi < |ts|
    requires forall k :: from <= k <= hi ==> ts[k] != 0.0
    ensures var items := TermItems(ts, lo, hi, ji, from);
            |items| == hi + 1 - from
            && forall k :: 0 <= k < |items| ==>
                 items[k].jd == ts[from + k] && items[k].index == (ji + 1 + k + 18) % 24
                 && items[k].name == SolarTermNames[items[k].index]
    decreases |ts| - from
  {
    if from <= hi {
      TermItemsFull(ts, lo, hi, ji + 1, from + 1);
      var items := TermItems(ts, lo, hi, ji, from);
      var rest := TermItems(ts, lo, hi, ji + 1, from + 1);
      assert items == [items[0]] + rest;
      forall k | 1 <= k < |items|
        ensures items[k].jd == ts[from + k] && items[k].index == (ji + 1 + k + 18) % 24
      {
        assert items[k] == rest[k - 1];
      }
    } else {
      TermItemsPastEnd(ts, lo, hi, ji, from);
    }
  }

  lemma {:induction false} TermItemsPastEnd(ts: seq<real>, lo: int, hi: int, ji: int, from: nat)
    requires from <= |ts| && from > hi
    ensures TermItems(ts, lo, hi, ji, from) == []
    decreases |ts| - from
  {
    if from < |ts| {
      TermItemsPastEnd(ts, lo, hi, ji, from + 1);
    }
  }

  /** With no zero instant in last year's slots 18..23 and this year's
    * 0..19, SolarTerms lists 26 items in source order, and each item's
    * index is the slot it came from. */
  lemma SolarTermListInOrder(last: seq<real>, asts: seq<real>)
    requires |last| == 26 && |asts| == 26
    requires forall k :: 18 <= k <= 23 ==> last[k] != 0.0
    requires forall k :: 0 <= k <= 19 ==> asts[k] != 0.0
    ensures var items := SolarTermList(last, asts);
            |items| == 26
            && (forall k :: 0 <= k < 6 ==> items[k].jd == last[18 + k] && items[k].index == 18 + k)
            && (forall k :: 6 <= k < 26 ==> items[k].jd == asts[k - 6] && items[k].index == k - 6)
  {
    LastYearItems(last);
    ThisYearItems(asts);
    var a := TermItems(last, 18, 23, -1, 0);
    var b := TermItems(asts, 0, 19, 5, 0);
    var items := a + b;
    assert SolarTermList(last, asts) == items;
    forall k | 0 <= k < 6
      ensures items[k].jd == last[18 + k] && items[k].index == 18 + k
    {
      assert items[k] == a[k];
    }
    forall k | 6 <= k < 26
      ensures items[k].jd == asts[k - 6] && items[k].index == k - 6
    {
      assert items[k] == b[k - 6];
    }
  }

  /** The six items from last year's winter solstice on, numbered 18..23. */
  lemma LastYearItems(last: seq<real>)
    requires |last| == 26 && forall k :: 18 <= k <= 23 ==> last[k] != 0.0
    ensures var a := TermItems(last, 18, 23, -1, 0);
            |a| == 6 && forall k :: 0 <= k < 6 ==> a[k].jd == last[18 + k] && a[k].index == 18 + k
  {
    TermItemsSkip(last, 18, 23, -1, 0);
    TermItemsFull(last, 18, 23, -1, 18);
    var a := TermItems(last, 18, 23, -1, 0);
    forall k | 0 <= k < 6
      ensures a[k].index == 18 + k
    {
      assert (-1 + 1 + k + 18) % 24 == 18 + k;
    }
  }

  /** The twenty items of this year's slots 0..19, numbered on from 5. */
  lemma ThisYearItems(asts: seq<real>)
    requires |asts| == 26 && forall k :: 0 <= k <= 19 ==> asts[k] != 0.0
    ensures var b := TermItems(asts, 0, 19, 5, 0);
            |b| == 20 && forall k :: 0 <= k < 20 ==> b[k].jd == asts[k] && b[k].index == k
  {
    TermItemsFull(asts, 0, 19, 5, 0);
    var b := TermItems(asts, 0, 19, 5, 0);
    forall k | 0 <= k < 20
      ensures b[k].index == k
    {
      assert 5 + 1 + k + 18 == k + 24 * 1;
      GoMath.ModShift(k, 1, 24);
    }
  }

  /** One of SolarTerms' two loops: appends the items of table ts to sts,
    * numbering on from ji. */
  method AppendTermItems(ts: seq<real>, lo: int, hi: int, sts: seq<SolarTermItem>, ji: int)
    returns (out: seq<SolarTermItem>, jo: int)
    ensures out == sts + TermItems(ts, lo, hi, ji, 0)
    ensures jo == ji + |TermItems(ts, lo, hi, ji, 0)|
  {
    out, jo := sts, ji;
    var i := 0;
    while i < |ts|
      invariant 0 <= i <= |ts|
      invariant out + TermItems(ts, lo, hi, jo, i) == sts + TermItems(ts, lo, hi, ji, 0)
      invariant jo + |TermItems(ts, lo, hi, jo, i)| == ji + |TermItems(ts, lo, hi, ji, 0)|
    {
      var v := ts[i];
      if v == 0.0 || i < lo || i > hi {
        i := i + 1;
        continue;
      }
      jo := jo + 1;
      var index := (jo + 18) % 24;
      out := out + [SolarTermItem(index, SolarTermNames[index], v)];
      i := i + 1;
    }
  }

  /** SolarTerms' two loops over last year's and this year's tables,
    * appending to sts. */
  method TermsAfter(eph: Astronomy.Ephemeris, year: int, sts: seq<SolarTermItem>) returns (out: seq<SolarTermItem>)
    ensures out == sts + SolarTermList(Astronomy.LastYearSolarTerms(eph, year), Astronomy.AdjustedSolarTerms(eph, year, 0, 19))
  {
    var lastYearAsts := Astronomy.LastYearSolarTerms(eph, year);
    var ji;
    out, ji := AppendTermItems(lastYearAsts, 18, 23, sts, -1);
    var asts := Astronomy.AdjustedSolarTermsJd(eph, year, 0, 19);
    out, ji := AppendTermItems(asts, 0, 19, out, ji);
  }

  // ------------------------------------------------------------ the calendar

  /** Calendar: its cells, its configuration, its zone, the reference time
    * and the cache. */
  class Calendar {
    var items: seq<CalendarItem>
    var config: CalendarConfig
    var zone: string
    var rawTime: RawTime
    var tempData: TempData

    ghost predicate Valid()
      reads this
    {
      ValidConfig(config)
    }

    /** NewCalendar, with the zone already resolved (`zone` is the name
      * time.LoadLocation accepted, or the local zone's) and `now` the
      * current time in it. */
    constructor (cfg: CalendarConfig, zone: string, now: RawTime)
      ensures Valid()
      ensures config == NormalizeConfig(cfg).(timeZoneName := zone)
      ensures items == [] && this.zone == zone && rawTime == now && tempData == EmptyTemp
    {
      var c := NormalizeConfig(cfg);
      items := [];
      config := c.(timeZoneName := zone);
      this.zone := zone;
      rawTime := now;
      tempData := EmptyTemp;
    }

    /** setRawTime: the new reference time clears the cells, and the cache
      * too when the year changes. */
    method SetRawTimeTo(t: RawTime)
      modifies this
      ensures rawTime == t && items == []
      ensures tempData == (if old(rawTime).year != t.year then EmptyTemp else old(tempData))
      ensures config == old(config) && zone == old(zone)
    {
      var rawYear := rawTime.year;
      rawTime := t;
      items := [];
      if rawYear != t.year {
        tempData := EmptyTemp;
      }
    }

    /** SetRawTime: a date and up to four time parts (hour, minute, second
      * and a fourth part named millisecond; missing ones are 0). The fourth
      * part reaches time.Date as its nanosecond argument, unscaled. */
    method SetRawTime(year: int, month: int, day: int, timeParts: seq<int>)
      modifies this
      ensures rawTime == RawTime(year, month, day, TimePart(timeParts, 0), TimePart(timeParts, 1),
                                 TimePart(timeParts, 2), TimePart(timeParts, 3))
      ensures items == []
      ensures tempData == (if old(rawTime).year != year then EmptyTemp else old(tempData))
      ensures config == old(config) && zone == old(zone)
    {
      var hour, minute, second, millisecond := 0, 0, 0, 0;
      var timeIndex := 0;
      while timeIndex < |timeParts|
        invariant 0 <= timeIndex <= |timeParts|
        invariant hour == (if timeIndex > 0 then timeParts[0] else 0)
        invariant minute == (if timeIndex > 1 then timeParts[1] else 0)
        invariant second == (if timeIndex > 2 then timeParts[2] else 0)
        invariant millisecond == (if timeIndex > 3 then timeParts[3] else 0)
      {
        var timePart := timeParts[timeIndex];
        if timeIndex == 0 {
          hour := timePart;
        } else if timeIndex == 1 {
          minute := timePart;
        } else if timeIndex == 2 {
          second := timePart;
        } else if timeIndex == 3 {
          millisecond := timePart;
        }
        timeIndex := timeIndex + 1;
      }
      SetRawTimeTo(RawTime(year, month, day, hour, minute, second, millisecond));
    }

    /** firstDay for the day with Julian Day Number dn: differenceDays and
      * the day number of the grid's first cell, which falls on the
      * configured first weekday. */
    function FirstDay(dn: int): (r: (int, int))
      reads this
      requires Valid()
      ensures 0 <= r.0 < 7 && r.1 == dn - r.0
      ensures Weekday(r.1) == config.firstWeek
    {
      var dd := FirstDayOffset(Weekday(dn), config.firstWeek);
      assert (dn - dd + 1) % 7 == config.firstWeek by {
        assert (config.firstWeek + dd) % 7 == (dn + 1) % 7;
      }
      (dd, dn - dd)
    }

    /** SolarTerms: the cached list when it has 26 items; otherwise the items
      * are appended to whatever the cache held and the result is cached. */
    method SolarTerms(eph: Astronomy.Ephemeris, year: int) returns (sts: seq<SolarTermItem>)
      modifies this`tempData
      ensures var cached := if year in old(tempData.st) then old(tempData.st[year]) else [];
              if |cached| == 26 then sts == cached && tempData == old(tempData)
              else sts == cached + SolarTermList(Astronomy.LastYearSolarTerms(eph, year), Astronomy.AdjustedSolarTerms(eph, year, 0, 19))
                   && tempData == old(tempData).(st := old(tempData.st)[year := sts])
    {
      sts := if year in tempData.st then tempData.st[year] else [];
      if |sts| == 26 {
        return;
      }
      sts := TermsAfter(eph, year, sts);
      tempData := tempData.(st := tempData.st[year := sts]);
    }
  }
}
