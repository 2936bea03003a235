/** The small helpers of utils.go: the plain Gregorian leap rule, the zodiac
  * sign of a (month, day), the Five Elements of stems and branches, the
  * bool/int conversions, the integer power by halving and the Etc/GMT zone
  * name of an offset. */
module Utils {
  import opened Wrappers

  /** The Five Elements: metal, wood, water, fire, earth. */
  const WuXing: seq<string> := ["金", "木", "水", "火", "土"]
  /** The element of each heavenly stem, as an index into WuXing. */
  const TianGanWuXingTable: seq<int> := [1, 1, 3, 3, 4, 4, 0, 0, 2, 2]
  /** The element of each earthly branch, as an index into WuXing. */
  const DiZhiWuXingTable: seq<int> := [2, 4, 1, 1, 4, 3, 3, 4, 0, 0, 4, 2]
  /** The twelve zodiac signs; sign i starts in month i + 1. */
  const ZodiacTitles: seq<string> := ["水瓶", "双鱼", "白羊", "金牛", "双子", "巨蟹", "狮子", "处女", "天秤", "天蝎", "射手", "摩羯"]
  /** The day of month i + 1 on which sign i starts. */
  const ZodiacStartDays: seq<int> := [20, 19, 21, 20, 21, 22, 23, 23, 23, 24, 22, 22]

  /** The plain Gregorian rule: every 4th year, except centuries not divisible by 400.
    * (Go's truncating `%` and Dafny's agree on whether the remainder is 0.) */
  function IsLeap(year: int): (leap: bool)
    ensures leap ==> year % 4 == 0
    ensures year % 400 == 0 ==> leap
    ensures year % 100 == 0 && year % 400 != 0 ==> !leap
  {
    year % 4 == 0 && (year % 100 != 0 || year % 400 == 0)
  }

  /** The plain rule repeats every 400 years. */
  lemma IsLeapPeriod(year: int)
    ensures IsLeap(year + 400) == IsLeap(year)
  {
    assert (year + 400) % 4 == year % 4;
    assert (year + 400) % 100 == year % 100;
    assert (year + 400) % 400 == year % 400;
  }

  // ---------------------------------------------------------------- zodiac

  /** The (month, day) falls inside sign i: on or after the day sign i starts
    * in month i + 1, or in the following month before sign i + 1 starts. */
  predicate InSign(i: int, m: int, d: int)
    requires 0 <= i < 12
  {
    (m == i + 1 && d >= ZodiacStartDays[i])
    || (m == (i + 1) % 12 + 1 && d < ZodiacStartDays[(i + 1) % 12])
  }

  /** The index of the zodiac sign of day d of month m. */
  function ZodiacIndex(m: int, d: int): (i: int)
    requires 1 <= m <= 12
    ensures 0 <= i < 12
    ensures InSign(i, m, d)
    ensures m == 1 && d < 20 ==> i == 11
  {
    var k := m - 1;
    if d < ZodiacStartDays[k] then
      var i := (k + 12 - 1) % 12;
      assert i == (if k == 0 then 11 else k - 1);
      assert (i + 1) % 12 == k;
      i
    else k
  }

  /** The sign ZodiacIndex picks is the only sign the day falls in. */
  lemma ZodiacIndexUnique(m: int, d: int, i: int)
    requires 1 <= m <= 12 && 0 <= i < 12
    requires InSign(i, m, d)
    ensures i == ZodiacIndex(m, d)
  {
  }

  /** The sign's name, or "" for an index outside 0..11. */
  function ZodiacTitle(i: int): (name: string)
    ensures 0 <= i < 12 ==> name == ZodiacTitles[i] && name != ""
    ensures !(0 <= i < 12) ==> name == ""
  {
    if i < 0 || i > 11 then "" else ZodiacTitles[i]
  }

  /** The zodiac sign of a (month, day), as index and name. A month outside
    * 1..12 makes the source index its table out of range. */
  function Zodiac(m: int, d: int): (r: Result<(int, string), string>)
    ensures r.Failure? <==> !(1 <= m <= 12)
    ensures r.Success? ==> 0 <= r.value.0 < 12 && InSign(r.value.0, m, d)
                           && r.value.1 == ZodiacTitles[r.value.0]
  {
    if !(1 <= m <= 12) then Failure("index out of range")
    else
      var i := ZodiacIndex(m, d);
      Success((i, ZodiacTitle(i)))
  }

  // --------------------------------------------------------- five elements

  /** The element of heavenly stem i, or "" outside 0..9. */
  function TianGanWuXing(i: int): (element: string)
    ensures 0 <= i <= 9 ==> element == WuXing[TianGanWuXingTable[i]] && element != ""
    ensures !(0 <= i <= 9) ==> element == ""
  {
    if i < 0 || i > 9 then "" else WuXing[TianGanWuXingTable[i]]
  }

  /** The element of earthly branch i, or "" outside 0..11. */
  function DiZhiWuXing(i: int): (element: string)
    ensures 0 <= i <= 11 ==> element == WuXing[DiZhiWuXingTable[i]] && element != ""
    ensures !(0 <= i <= 11) ==> element == ""
  {
    if i < 0 || i > 11 then "" else WuXing[DiZhiWuXingTable[i]]
  }

  /** The stems go in yang/yin pairs: stems 2k and 2k + 1 share an element,
    * and the five pairs have five different elements. */
  lemma StemPairsShareElement(k: int, l: int)
    requires 0 <= k < 5 && 0 <= l < 5
    ensures TianGanWuXing(2 * k) == TianGanWuXing(2 * k + 1)
    ensures k != l ==> TianGanWuXing(2 * k) != TianGanWuXing(2 * l)
  {
  }

  // ------------------------------------------------------- bool and int

  function B2i(b: bool): (i: int)
    ensures i == 0 || i == 1
    ensures i == 1 <==> b
  {
    if b then 1 else 0
  }

  function I2b(i: int): (b: bool)
    ensures !b <==> i == 0
  {
    i != 0
  }

  lemma BoolIntRoundTrip(b: bool)
    ensures I2b(B2i(b)) == b
  {
  }

  // ------------------------------------------------------------- powers

  /** The reference definition of x to the power n: n factors of x. */
  function RealPow(x: real, n: nat): real
  {
    if n == 0 then 1.0 else x * RealPow(x, n - 1)
  }

  lemma {:induction false} RealPowAdd(x: real, a: nat, b: nat)
    ensures RealPow(x, a + b) == RealPow(x, a) * RealPow(x, b)
    decreases a
  {
    if a > 0 {
      RealPowAdd(x, a - 1, b);
      assert RealPow(x, a + b) == x * RealPow(x, a - 1 + b);
    }
  }

  /** x to the power n by halving n (`n >> 1`) and squaring, multiplying once
    * more by x when n is odd (`n & 1 == 1`). The source's recursion does not
    * end for negative n, since -1 >> 1 is -1. */
  function CalPow(x: real, n: int): (r: real)
    requires n >= 0
    ensures r == RealPow(x, n)
    decreases n
  {
    if n == 0 then 1.0
    else if n == 1 then x
    else
      var k := n / 2;
      var half := CalPow(x, k);
      RealPowDouble(x, k);
      if n % 2 == 1 then
        assert n == k + k + 1;
        half * half * x
      else
        assert n == k + k;
        half * half
  }

  /** Squaring x^k gives x^(2k), and one more factor x gives x^(2k+1). */
  lemma RealPowDouble(x: real, k: nat)
    ensures RealPow(x, k + k) == RealPow(x, k) * RealPow(x, k)
    ensures RealPow(x, k + k + 1) == RealPow(x, k) * RealPow(x, k) * x
  {
    RealPowAdd(x, k, k);
    RealPowAdd(x, k + k, 1);
  }

  /** x to the power n, and 0 whenever x is 0 (even for n = 0). For x != 0
    * the source terminates only for n >= 0, so its `1 / result` branch for
    * negative n is never reached. */
  function Pow(x: real, n: int): (r: real)
    requires x == 0.0 || n >= 0
    ensures x == 0.0 ==> r == 0.0
    ensures x != 0.0 ==> r == RealPow(x, n)
  {
    if x == 0.0 then 0.0 else CalPow(x, n)
  }

  // ---------------------------------------------------------- zone names

  function DigitChar(n: int): char
    requires 0 <= n < 10
  {
    "0123456789"[n]
  }

  /** The decimal digits of n, as `%d` prints it. */
  function DecimalString(n: nat): (s: string)
    ensures |s| >= 1 && forall i :: 0 <= i < |s| ==> '0' <= s[i] <= '9'
    decreases n
  {
    if n < 10 then [DigitChar(n)] else DecimalString(n / 10) + [DigitChar(n % 10)]
  }

  /** The number a string of decimal digits spells, read digit by digit
    * (each character counts as its distance from '0'). */
  function ParseDecimal(s: string): int
  {
    if |s| == 0 then 0 else 10 * ParseDecimal(s[..|s| - 1]) + ((s[|s| - 1] as int) - ('0' as int))
  }

  lemma {:induction false} DecimalStringRoundTrip(n: nat)
    ensures ParseDecimal(DecimalString(n)) == n
    decreases n
  {
    DigitValue(n % 10);
    if n >= 10 {
      DecimalStringRoundTrip(n / 10);
      var s := DecimalString(n);
      assert s == DecimalString(n / 10) + [DigitChar(n % 10)];
      assert s[..|s| - 1] == DecimalString(n / 10);
      assert ParseDecimal(s) == 10 * (n / 10) + n % 10;
    } else {
      assert DecimalString(n) == [DigitChar(n)];
    }
  }

  /** The digit character of d spells d. */
  lemma DigitValue(d: int)
    requires 0 <= d < 10
    ensures (DigitChar(d) as int) - ('0' as int) == d
  {
  }

  /** The wall clock (hour, minute) that `zone` seconds after midnight UTC shows. */
  function ClockOfOffset(zone: nat): (hm: (int, int))
    ensures 0 <= hm.0 < 24 && 0 <= hm.1 < 60
  {
    ((zone % 86400) / 3600, (zone % 3600) / 60)
  }

  /** The name of a fixed zone `zone` seconds east of UTC: "UTC" when the
    * offset shows 00:00 on a clock, otherwise "Etc/GMT" with the sign
    * inverted as the Etc/GMT names do, the hours, and ":minutes" when the
    * minutes are not 0. */
  function LocName(zone: int): (name: string)
    ensures zone == 0 ==> name == "UTC"
    ensures name == "UTC" <==> ClockOfOffset(if zone < 0 then -zone else zone) == (0, 0)
    ensures name != "UTC" ==> |name| >= 9 && name[..7] == "Etc/GMT"
                              && name[7] == (if zone < 0 then '+' else '-')
  {
    var sign := if zone < 0 then "+" else "-";
    var abs := if zone < 0 then -zone else zone;
    var (h, m) := ClockOfOffset(abs);
    if h == 0 && m == 0 then "UTC"
    else if m == 0 then "Etc/GMT" + sign + DecimalString(h)
    else "Etc/GMT" + sign + DecimalString(h) + ":" + DecimalString(m)
  }

  /** The hours and minutes of a zone name read back to the offset's clock. */
  lemma LocNameReadsBack(zone: int)
    requires LocName(zone) != "UTC"
    ensures var abs := if zone < 0 then -zone else zone;
            var (h, m) := ClockOfOffset(abs);
            var rest := LocName(zone)[8..];
            (m == 0 ==> ParseDecimal(rest) == h)
            && (m != 0 ==> exists j {:trigger rest[..j]} :: 0 < j < |rest| && rest[j] == ':'
                                      && ParseDecimal(rest[..j]) == h && ParseDecimal(rest[j + 1..]) == m)
  {
    var abs := if zone < 0 then -zone else zone;
    var (h, m) := ClockOfOffset(abs);
    var sign := if zone < 0 then "+" else "-";
    var tail := if m == 0 then DecimalString(h) else DecimalString(h) + ":" + DecimalString(m);
    assert LocName(zone) == ("Etc/GMT" + sign) + tail;
    assert LocName(zone)[8..] == tail;
    ClockTailReadsBack(h, m);
  }

  /** The hours, and the minutes after a colon when they are not 0, read back. */
  lemma ClockTailReadsBack(h: nat, m: nat)
    ensures var rest := if m == 0 then DecimalString(h) else DecimalString(h) + ":" + DecimalString(m);
            (m == 0 ==> ParseDecimal(rest) == h)
            && (m != 0 ==> exists j {:trigger rest[..j]} :: 0 < j < |rest| && rest[j] == ':'
                                      && ParseDecimal(rest[..j]) == h && ParseDecimal(rest[j + 1..]) == m)
  {
    DecimalStringRoundTrip(h);
    if m != 0 {
      DecimalStringRoundTrip(m);
      ColonSplit(DecimalString(h), DecimalString(m));
    }
  }

  /** A colon-joined pair splits back at the colon. */
  lemma ColonSplit(a: string, b: string)
    ensures var rest := a + ":" + b;
            |rest| == |a| + 1 + |b| && rest[..|a|] == a && rest[|a|] == ':' && rest[|a| + 1..] == b
  {
    var rest := a + ":" + b;
    assert rest[..|a|] == a;
    assert rest[|a| + 1..] == b;
  }

  /** Opposite offsets get the same name apart from the sign. */
  lemma LocNameSignOnly(zone: int)
    requires LocName(zone) != "UTC"
    ensures |LocName(-zone)| == |LocName(zone)|
    ensures forall i :: 0 <= i < |LocName(zone)| && i != 7 ==> LocName(-zone)[i] == LocName(zone)[i]
  {
  }

  lemma LocNameExamples()
    ensures LocName(0) == "UTC" && LocName(86400) == "UTC"
    ensures LocName(28800) == "Etc/GMT-8" && LocName(-18000) == "Etc/GMT+5"
    ensures LocName(19800) == "Etc/GMT-5:30"
  {
    assert ClockOfOffset(0) == (0, 0) && ClockOfOffset(86400) == (0, 0);
    assert ClockOfOffset(28800) == (8, 0) && ClockOfOffset(18000) == (5, 0);
    assert ClockOfOffset(19800) == (5, 30);
    assert DecimalString(8) == "8";
    assert DecimalString(5) == "5";
    assert DecimalString(30) == "30";
  }
}
