/** The year tables behind the Chinese lunisolar calendar of
  * chinesecalendar.go: the 16 Jie terms from the Beginning of Spring, the
  * 16 Zhongqi terms from the winter solstice, the window of 16 new moons
  * starting with the month that holds the winter solstice, and the month
  * codes of those lunations with leap-month detection. Days are compared in
  * China time (UTC+8); times are Julian Days. */
module LunarTables {
  import opened Wrappers
  import Julian
  import Astronomy

  /** The Go errors of the lunar conversions, and the index panics the
    * model turns into errors. */
  datatype CalendarError = IndexOutOfRange | NotLeapYear | NotLeapMonth | DayOutOfRange

  /** China time (UTC+8) as a fraction of a day. */
  const ChineseTimeOffsetDays: real := 8.0 / 24.0

  /** The day number, in China time, of the instant with Julian Day x. */
  function LocalDay(x: real): int
  {
    (x + 0.5 + ChineseTimeOffsetDays).Floor
  }

  // ------------------------------------------------ Jie and Zhongqi terms

  /** The non-zero entries of xs in order (zero marks a slot never filled). */
  function NonZero(xs: seq<real>): (ys: seq<real>)
    ensures |ys| <= |xs|
    ensures forall k :: 0 <= k < |ys| ==> ys[k] != 0.0
  {
    if |xs| == 0 then []
    else NonZero(xs[..|xs| - 1]) + (if xs[|xs| - 1] != 0.0 then [xs[|xs| - 1]] else [])
  }

  lemma NonZeroStep(xs: seq<real>, n: nat)
    requires n < |xs|
    ensures NonZero(xs[..n + 1]) == NonZero(xs[..n]) + (if xs[n] != 0.0 then [xs[n]] else [])
  {
    assert xs[..n + 1][..n] == xs[..n];
  }

  lemma NonZeroWhole(xs: seq<real>)
    ensures NonZero(xs[..|xs|]) == NonZero(xs)
  {
    assert xs[..|xs|] == xs;
  }

  lemma {:induction false} NonZeroKeepsAll(xs: seq<real>)
    requires forall k :: 0 <= k < |xs| ==> xs[k] != 0.0
    ensures NonZero(xs) == xs
  {
    if |xs| > 0 {
      NonZeroKeepsAll(xs[..|xs| - 1]);
      assert xs[..|xs| - 1] + [xs[|xs| - 1]] == xs;
    }
  }

  /** xs followed by zeros up to length n, as a Go array filled from the front. */
  function PadZeros(xs: seq<real>, n: nat): (ys: seq<real>)
    requires |xs| <= n
    ensures |ys| == n && ys[..|xs|] == xs
    ensures forall k :: |xs| <= k < n ==> ys[k] == 0.0
  {
    xs + seq(n - |xs|, _ => 0.0)
  }

  lemma PadZerosPush(xs: seq<real>, x: real, n: nat)
    requires |xs| < n
    ensures PadZeros(xs, n)[|xs| := x] == PadZeros(xs + [x], n)
  {
  }

  /** The Jie terms in the order they are collected: last year's Minor Cold,
    * Beginning of Spring and Awakening of Insects (slots 19, 21, 23), then
    * this year's odd slots 1..25. */
  function JieCandidates(last: seq<real>, asts: seq<real>): (c: seq<real>)
    requires |last| == 26 && |asts| == 26
    ensures |c| == 16
    ensures c[0] == last[19] && c[1] == last[21] && c[2] == last[23]
    ensures forall k :: 0 <= k < 13 ==> c[3 + k] == asts[1 + 2 * k]
  {
    [last[19], last[21], last[23]] + seq(13, k requires 0 <= k < 13 => asts[2 * k + 1])
  }

  /** The Zhongqi terms in the order they are collected: last year's winter
    * solstice, Major Cold and Rain Water (slots 18, 20, 22), then this year's
    * even slots 0..24. */
  function QiCandidates(last: seq<real>, asts: seq<real>): (c: seq<real>)
    requires |last| == 26 && |asts| == 26
    ensures |c| == 16
    ensures c[0] == last[18] && c[1] == last[20] && c[2] == last[22]
    ensures forall k :: 0 <= k < 13 ==> c[3 + k] == asts[2 * k]
  {
    [last[18], last[20], last[22]] + seq(13, k requires 0 <= k < 13 => asts[2 * k])
  }

  /** The 16 Jie terms of a year as pureJieSinceSpring returns them. */
  function PureJie(eph: Astronomy.Ephemeris, year: int): (jss: seq<real>)
    ensures |jss| == 16
  {
    var cands := JieCandidates(Astronomy.LastYearSolarTerms(eph, year), Astronomy.AdjustedSolarTerms(eph, year, 0, 25));
    PadZeros(NonZero(cands), 16)
  }

  /** The 16 Zhongqi terms of a year as qiSinceWinterSolstice returns them. */
  function QiSinceSolstice(eph: Astronomy.Ephemeris, year: int): (qss: seq<real>)
    ensures |qss| == 16
  {
    var cands := QiCandidates(Astronomy.LastYearSolarTerms(eph, year), Astronomy.AdjustedSolarTerms(eph, year, 0, 25));
    PadZeros(NonZero(cands), 16)
  }

  /** Copies the non-zero terms among the `count` slots start, start + 2, ..
    * of `table` into jss from slot ki + 1 on, as both collection loops do;
    * those terms are cands[done..done + count]. */
  method CollectTerms(table: seq<real>, start: int, count: nat, jss0: seq<real>, ki0: int, ghost cands: seq<real>, ghost done: nat)
    returns (jss: seq<real>, ki: int)
    requires |table| == 26 && 0 <= start && start + 2 * count <= 27
    requires done + count <= |cands| <= 16
    requires forall c :: 0 <= c < count ==> cands[done + c] == table[start + 2 * c]
    requires ki0 + 1 == |NonZero(cands[..done])| && jss0 == PadZeros(NonZero(cands[..done]), 16)
    ensures ki + 1 == |NonZero(cands[..done + count])| && jss == PadZeros(NonZero(cands[..done + count]), 16)
  {
    jss, ki := jss0, ki0;
    var end := start + 2 * (count - 1);
    var i := start;
    ghost var c := 0;
    while i <= end
      invariant 0 <= c <= count && i == start + 2 * c
      invariant ki + 1 == |NonZero(cands[..done + c])|
      invariant jss == PadZeros(NonZero(cands[..done + c]), 16)
    {
      NonZeroStep(cands, done + c);
      assert cands[done + c] == table[i];
      if table[i] != 0.0 {
        ki := ki + 1;
        PadZerosPush(NonZero(cands[..done + c]), table[i], 16);
        jss := jss[ki := table[i]];
      }
      i := i + 2;
      c := c + 1;
    }
  }

  /** The two collection loops of pureJieSinceSpring over the term tables. */
  method CollectJie(last: seq<real>, asts: seq<real>) returns (jss: seq<real>)
    requires |last| == 26 && |asts| == 26
    ensures jss == PadZeros(NonZero(JieCandidates(last, asts)), 16)
  {
    ghost var cands := JieCandidates(last, asts);
    assert cands[..0] == [];
    var ki;
    jss, ki := CollectTerms(last, 19, 3, PadZeros([], 16), -1, cands, 0);
    jss, ki := CollectTerms(asts, 1, 13, jss, ki, cands, 3);
    NonZeroWhole(cands);
  }

  /** The two collection loops of qiSinceWinterSolstice over the term tables. */
  method CollectQi(last: seq<real>, asts: seq<real>) returns (qss: seq<real>)
    requires |last| == 26 && |asts| == 26
    ensures qss == PadZeros(NonZero(QiCandidates(last, asts)), 16)
  {
    ghost var cands := QiCandidates(last, asts);
    assert cands[..0] == [];
    var ki;
    qss, ki := CollectTerms(last, 18, 3, PadZeros([], 16), -1, cands, 0);
    qss, ki := CollectTerms(asts, 0, 13, qss, ki, cands, 3);
    NonZeroWhole(cands);
  }

  /** pureJieSinceSpring: the Jie terms from last year's Minor Cold on. */
  method PureJieSinceSpring(eph: Astronomy.Ephemeris, year: int) returns (jss: seq<real>)
    ensures jss == PureJie(eph, year)
  {
    var last := Astronomy.AdjustedSolarTermsJd(eph, year - 1, 18, 23);
    var asts := Astronomy.AdjustedSolarTermsJd(eph, year, 0, 25);
    jss := CollectJie(last, asts);
  }

  /** qiSinceWinterSolstice: the Zhongqi terms from last year's winter solstice on. */
  method QiSinceWinterSolstice(eph: Astronomy.Ephemeris, year: int) returns (qss: seq<real>)
    ensures qss == QiSinceSolstice(eph, year)
  {
    var last := Astronomy.AdjustedSolarTermsJd(eph, year - 1, 18, 23);
    var asts := Astronomy.AdjustedSolarTermsJd(eph, year, 0, 25);
    qss := CollectQi(last, asts);
  }

  /** With no empty slot the tables list the terms in source order: jss[1] is
    * the Beginning of Spring (slot 21 of last year's table) and qss[0] the
    * winter solstice (slot 18). */
  lemma TermTablesInSourceOrder(eph: Astronomy.Ephemeris, year: int)
    ensures var c := JieCandidates(Astronomy.LastYearSolarTerms(eph, year), Astronomy.AdjustedSolarTerms(eph, year, 0, 25));
            (forall k :: 0 <= k < 16 ==> c[k] != 0.0) ==>
              PureJie(eph, year) == c && PureJie(eph, year)[1] == Astronomy.AdjustedSolarTerm(eph, year - 1, 21)
    ensures var c := QiCandidates(Astronomy.LastYearSolarTerms(eph, year), Astronomy.AdjustedSolarTerms(eph, year, 0, 25));
            (forall k :: 0 <= k < 16 ==> c[k] != 0.0) ==>
              QiSinceSolstice(eph, year) == c && QiSinceSolstice(eph, year)[0] == Astronomy.AdjustedSolarTerm(eph, year - 1, 18)
  {
    var last := Astronomy.LastYearSolarTerms(eph, year);
    var asts := Astronomy.AdjustedSolarTerms(eph, year, 0, 25);
    var c := JieCandidates(last, asts);
    if forall k :: 0 <= k < 16 ==> c[k] != 0.0 {
      NonZeroKeepsAll(c);
    }
    var q := QiCandidates(last, asts);
    if forall k :: 0 <= k < 16 ==> q[k] != 0.0 {
      NonZeroKeepsAll(q);
    }
  }

  // ------------------------------------------------------ new-moon window

  /** The 20 true new moons from about the November before `year` on, in
    * Universal Time: lunation kn + i less ΔT of month i - 1 of the year
    * (0 is the December before, -1 the November before). */
  function TrueNewMoons(eph: Astronomy.Ephemeris, year: int): (tnm: seq<real>)
    ensures |tnm| == 20
  {
    var kn := Astronomy.ReferenceLunarMonthNum(Julian.JulianDay(year - 1, 11, 1, []));
    seq(20, i => eph.trueNewMoon(kn + i) - Astronomy.DeltaTDays(year, i - 1))
  }

  /** The new moon falls on a later day than the solstice (days counted
    * from midnight, without the China offset). */
  predicate LaterDay(nmJd: real, dzJd: real)
  {
    (nmJd + 0.5).Floor > (dzJd + 0.5).Floor
  }

  /** The first j in from..18 whose new moon falls on a later day than the
    * solstice, or 19 when there is none. */
  function FirstLaterFrom(tnm: seq<real>, dzJd: real, from: nat): (j: int)
    requires |tnm| == 20 && from <= 19
    ensures from <= j <= 19
    ensures j < 19 ==> LaterDay(tnm[j], dzJd)
    ensures forall m :: from <= m < j ==> !LaterDay(tnm[m], dzJd)
    decreases 19 - from
  {
    if from == 19 then 19
    else if LaterDay(tnm[from], dzJd) then from
    else FirstLaterFrom(tnm, dzJd, from + 1)
  }

  /** The index jj the search leaves: the first later new moon, or 0. */
  function WindowIndex(tnm: seq<real>, dzJd: real): (jj: int)
    requires |tnm| == 20
    ensures 0 <= jj <= 18
  {
    var f := FirstLaterFrom(tnm, dzJd, 0);
    if f == 19 then 0 else f
  }

  /** The 16 new moons from the one before the first later than the solstice.
    * The source's copy reads tnm[jj - 1 + k], out of its 20 slots unless jj
    * is 1..5. */
  function NewMoonWindow(tnm: seq<real>, dzJd: real): (r: Result<seq<real>, CalendarError>)
    requires |tnm| == 20
    ensures r.Success? <==> 1 <= FirstLaterFrom(tnm, dzJd, 0) <= 5
    ensures r.Success? ==> var jj := WindowIndex(tnm, dzJd);
                           |r.value| == 16 && forall k :: 0 <= k < 16 ==> r.value[k] == tnm[jj - 1 + k]
  {
    var jj := WindowIndex(tnm, dzJd);
    if 1 <= jj <= 5 then Success(tnm[jj - 1..jj + 15]) else Failure(IndexOutOfRange)
  }

  /** The window starts with the lunation holding the solstice's day. */
  lemma WindowHoldsSolstice(tnm: seq<real>, dzJd: real)
    requires |tnm| == 20 && NewMoonWindow(tnm, dzJd).Success?
    ensures var nm := NewMoonWindow(tnm, dzJd).value;
            |nm| == 16 && (nm[0] + 0.5).Floor <= (dzJd + 0.5).Floor < (nm[1] + 0.5).Floor
  {
    var jj := WindowIndex(tnm, dzJd);
    assert !LaterDay(tnm[jj - 1], dzJd) && LaterDay(tnm[jj], dzJd);
  }

  /** The first loop of sMsinceWinterSolstice: the 20 true new moons. */
  method NewMoonsSinceNovember(eph: Astronomy.Ephemeris, year: int) returns (tnm: seq<real>)
    ensures tnm == TrueNewMoons(eph, year)
  {
    var novemberJd := Julian.JulianDay(year - 1, 11, 1, []);
    var kn := Astronomy.ReferenceLunarMonthNum(novemberJd);
    tnm := [];
    var i := 0;
    while i <= 19
      invariant 0 <= i <= 20 && |tnm| == i
      invariant forall j :: 0 <= j < i ==> tnm[j] == eph.trueNewMoon(kn + j) - Astronomy.DeltaTDays(year, j - 1)
    {
      tnm := tnm + [eph.trueNewMoon(kn + i) - Astronomy.DeltaTDays(year, i - 1)];
      i := i + 1;
    }
  }

  /** The search and copy loops of sMsinceWinterSolstice. */
  method WindowOf(tnm: seq<real>, dzJd: real) returns (r: Result<seq<real>, CalendarError>)
    requires |tnm| == 20
    ensures r == NewMoonWindow(tnm, dzJd)
  {
    var jj := 0;
    var j := 0;
    while j <= 18
      invariant 0 <= j <= 19 && jj == 0
      invariant FirstLaterFrom(tnm, dzJd, 0) == FirstLaterFrom(tnm, dzJd, j)
    {
      if (tnm[j] + 0.5).Floor > (dzJd + 0.5).Floor {
        jj := j;
        break;
      }
      j := j + 1;
    }
    assert jj == WindowIndex(tnm, dzJd);
    if !(1 <= jj <= 5) {
      return Failure(IndexOutOfRange);
    }
    var nm: seq<real> := [];
    var k := 0;
    while k <= 15
      invariant 0 <= k <= 16 && |nm| == k
      invariant forall m :: 0 <= m < k ==> nm[m] == tnm[jj - 1 + m]
    {
      nm := nm + [tnm[jj - 1 + k]];
      k := k + 1;
    }
    assert nm == tnm[jj - 1..jj + 15];
    r := Success(nm);
  }

  /** sMsinceWinterSolstice: 20 true new moons, the first later than the
    * solstice's day, and the 16 from the one before it. */
  method SMsinceWinterSolstice(eph: Astronomy.Ephemeris, year: int, dzJd: real) returns (r: Result<seq<real>, CalendarError>)
    ensures r == NewMoonWindow(TrueNewMoons(eph, year), dzJd)
  {
    var tnm := NewMoonsSinceNovember(eph, year);
    r := WindowOf(tnm, dzJd);
  }
}
