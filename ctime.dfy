/** The legacy ctime.go layer over Go's time.Time (with the Date struct of
  * date.go it fills): its own plain leap rule, month lengths of a time
  * value's month, and the defaults DateNewCtime writes into a Date. A time
  * value is represented by its civil date; time.Time itself is not part of
  * this model. */
module LegacyCtime {
  import opened Wrappers
  import Utils
  import DateTime

  /** A *time.Location: the process's local zone, UTC, or a fixed zone. */
  datatype Location = Local | UTC | FixedZone(name: string, offset: int)

  /** The eight pillar indices of date.go's TianGanDiZhi struct: year, month,
    * day and hour stems (tg) and branches (dz). */
  datatype TianGanDiZhi = TianGanDiZhi(ytg: int, ydz: int, mtg: int, mdz: int, dtg: int, ddz: int, htg: int, hdz: int)

  /** The civil date of a time value; months run 1..12 as time.Time's do. */
  datatype Civil = Civil(year: int, month: int, day: int)

  /** The legacy revision's leap rule: the plain Gregorian rule, without the
    * 3200-year refinement of datetime.go. */
  function IsLeapYear(year: int): (leap: bool)
    ensures leap == Utils.IsLeap(year)
    ensures year % 3200 == 0 ==> leap
  {
    year % 4 == 0 && (year % 100 != 0 || year % 400 == 0)
  }

  /** The number of days in the month of a time value. */
  function MonthDay(ct: Civil): (days: int)
    requires 1 <= ct.month <= 12
    ensures 28 <= days <= 31
    ensures days == 29 <==> ct.month == 2 && IsLeapYear(ct.year)
  {
    var d := DateTime.MonthDaysTable[ct.month - 1];
    if ct.month == 2 && IsLeapYear(ct.year) then d + 1 else d
  }

  /** MonthDay and datetime.go's GregorianMonthDays differ only in February
    * of the years divisible by 3200 but not by 172800. */
  lemma MonthDayAgreesWithGregorian(ct: Civil)
    requires 1 <= ct.month <= 12
    ensures MonthDay(ct) != DateTime.GregorianMonthDays(ct.year, ct.month)
            <==> ct.month == 2 && ct.year % 3200 == 0 && ct.year % 172800 != 0
  {
    DateTime.LeapRulesDiffer(ct.year);
  }

  /** The days of the month after the time value's day. */
  function MonthDayLeft(ct: Civil): (left: int)
    requires 1 <= ct.month <= 12
    ensures ct.day + left == MonthDay(ct)
    ensures 1 <= ct.day <= MonthDay(ct) ==> 0 <= left < MonthDay(ct)
  {
    MonthDay(ct) - ct.day
  }

  function B2i(b: bool): (i: int)
    ensures i == 0 || i == 1
    ensures i == 1 <==> b
  {
    if b then 1 else 0
  }

  function I2b(i: int): (b: bool)
    ensures !b <==> i == 0
  {
    if i == 0 then false else true
  }

  /** The legacy conversions are those of utils.go. */
  lemma BoolIntAgree(b: bool, i: int)
    ensures B2i(b) == Utils.B2i(b) && I2b(i) == Utils.I2b(i)
    ensures I2b(B2i(b)) == b
  {
  }

  /** The arguments DateNewCtime hands to time.Date. */
  datatype DateArgs = DateArgs(year: int, month: int, day: int, hour: int, min: int, sec: int, nsec: int, loc: Location)

  /** date.go's Date struct (its JQ solar-term field is not part of this model). */
  class Date {
    var Year: int
    var Month: int
    var Day: int
    var Hour: int
    var Min: int
    var Sec: int
    var Nsec: int
    var Week: int
    var Loc: Option<Location>
    var Pillars: Option<TianGanDiZhi>

    /** A Date with the given civil fields, no location and no pillars. */
    constructor (year: int, month: int, day: int, hour: int, min: int, sec: int, nsec: int)
      ensures Year == year && Month == month && Day == day
      ensures Hour == hour && Min == min && Sec == sec && Nsec == nsec
      ensures Week == 0 && Loc == None && Pillars == None
    {
      Year, Month, Day := year, month, day;
      Hour, Min, Sec, Nsec := hour, min, sec, nsec;
      Week, Loc, Pillars := 0, None, None;
    }
  }

  /** Fills the caller's Date with defaults, 1970 for a zero year, 1 for a
    * zero month or day and the local zone for a missing location, and
    * returns what is passed to time.Date. */
  method DateNewCtime(da: Date) returns (args: DateArgs)
    modifies da
    ensures da.Year == (if old(da.Year) == 0 then 1970 else old(da.Year))
    ensures da.Month == (if old(da.Month) == 0 then 1 else old(da.Month))
    ensures da.Day == (if old(da.Day) == 0 then 1 else old(da.Day))
    ensures da.Loc == (if old(da.Loc).None? then Some(Local) else old(da.Loc))
    ensures da.Hour == old(da.Hour) && da.Min == old(da.Min) && da.Sec == old(da.Sec) && da.Nsec == old(da.Nsec)
    ensures da.Week == old(da.Week) && da.Pillars == old(da.Pillars)
    ensures da.Year != 0 && da.Month != 0 && da.Day != 0 && da.Loc.Some?
    ensures args == DateArgs(da.Year, da.Month, da.Day, da.Hour, da.Min, da.Sec, da.Nsec, da.Loc.value)
  {
    if da.Year == 0 {
      da.Year := 1970;
    }
    if da.Month == 0 {
      da.Month := 1;
    }
    if da.Day == 0 {
      da.Day := 1;
    }
    if da.Loc.None? {
      da.Loc := Some(Local);
    }
    args := DateArgs(da.Year, da.Month, da.Day, da.Hour, da.Min, da.Sec, da.Nsec, da.Loc.value);
  }
}
