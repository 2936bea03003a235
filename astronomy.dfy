/** The astronomy of astronomy.go that sits above the trigonometry: the
  * domain and branch structure of ΔT (the Espenak–Meeus NASA polynomials),
  * the vernal equinox polynomial (Meeus chapter 27), the mean new moon
  * index and estimate, and the fixed 26-slot solar-term tables. The
  * trigonometric parts (perihelion offsets of the terms, the perturbation,
  * the true new moon) are inputs, gathered in an Ephemeris. */
module Astronomy {
  import opened Wrappers

  /** The astronomical values the model takes as given: the offset of
    * solar term i of a year from the vernal equinox along the eccentric
    * orbit (the first loop of meanSolarTermsJd), the perturbation
    * correction at a Julian Day, and the true new moon of lunation k. */
  datatype Ephemeris = Ephemeris(
    perihelionOffset: (int, int) -> real,
    perturbation: real -> real,
    trueNewMoon: int -> real)

  /** Mean length of the synodic month, in days. */
  const MeanSynodicMonth: real := 29.530588853
  /** Julian Day of the first mean new moon of 2000 (lunation 0). */
  const BaseNewMoon: real := 2451550.0976504628

  // ------------------------------------------------------------ Delta T

  /** The years where each ΔT polynomial starts to apply: segment s covers
    * SegmentStarts[s] <= year < SegmentStarts[s + 1]; the first segment is
    * everything up to and including -500. */
  const SegmentStarts: seq<int> := [-1999, -499, 500, 1600, 1700, 1800, 1860, 1900, 1920, 1941, 1961, 1986, 2005, 2050, 2150, 3001]

  /** Which of the 15 polynomial cases the source's switch takes for `year`. */
  function DeltaTSegment(year: int): (s: nat)
    ensures s < 15
  {
    if year <= -500 then 0
    else if year < 500 then 1
    else if year < 1600 then 2
    else if year < 1700 then 3
    else if year < 1800 then 4
    else if year < 1860 then 5
    else if year < 1900 then 6
    else if year < 1920 then 7
    else if year < 1941 then 8
    else if year < 1961 then 9
    else if year < 1986 then 10
    else if year < 2005 then 11
    else if year < 2050 then 12
    else if year < 2150 then 13
    else 14
  }

  /** The segments partition the valid years: each valid year lies in the
    * range of exactly the segment the switch picks. */
  lemma DeltaTSegmentsPartition(year: int, s: nat)
    requires -1999 <= year <= 3000 && s < 15
    ensures SegmentStarts[s] <= year < SegmentStarts[s + 1] <==> s == DeltaTSegment(year)
  {
  }

  /** The polynomial with coefficients cs (constant term first) at t, by
    * Horner's rule. */
  function Horner(cs: seq<real>, t: real): real
  {
    if |cs| == 0 then 0.0 else cs[0] + t * Horner(cs[1..], t)
  }

  /** The ΔT polynomial of the source's switch, in seconds, for a year and
    * the fractional year y taken at mid-month: the case of the segment
    * DeltaTSegment picks for the year. */
  function DeltaTPolynomial(year: int, y: real): real
  {
    match DeltaTSegment(year)
    case 0 =>
      var u := (year as real - 1820.0) / 100.0;
      Horner([-20.0, 0.0, 32.0], u)
    case 1 =>
      var u := y / 100.0;
      Horner([10583.6, -1014.41, 33.78311, -5.952053, -0.1798452, 0.022174192, 0.0090316521], u)
    case 2 =>
      var u := (y - 1000.0) / 100.0;
      Horner([1574.2, -556.01, 71.23472, 0.319781, -0.8503463, -0.005050998, 0.0083572073], u)
    case 3 =>
      var t := y - 1600.0;
      Horner([120.0, -0.9808, -0.01532, 1.0 / 7129.0], t)
    case 4 =>
      var t := y - 1700.0;
      Horner([8.83, 0.1603, -0.0059285, 0.00013336, -1.0 / 1174000.0], t)
    case 5 =>
      var t := y - 1800.0;
      Horner([13.72, -0.332447, 0.0068612, 0.0041116, -0.00037436, 0.0000121272, -0.0000001699, 0.000000000875], t)
    case 6 =>
      var t := y - 1860.0;
      Horner([7.62, 0.5737, -0.251754, 0.01680668, -0.0004473624, 1.0 / 233174.0], t)
    case 7 =>
      var t := y - 1900.0;
      Horner([-2.79, 1.494119, -0.0598939, 0.0061966, -0.000197], t)
    case 8 =>
      var t := y - 1920.0;
      Horner([21.2, 0.84493, -0.0761, 0.0020936], t)
    case 9 =>
      var t := y - 1950.0;
      Horner([29.07, 0.407, -1.0 / 233.0, 1.0 / 2547.0], t)
    case 10 =>
      var t := y - 1975.0;
      Horner([45.45, 1.067, -1.0 / 260.0, -1.0 / 718.0], t)
    case 11 =>
      var t := y - 2000.0;
      Horner([63.86, 0.3345, -0.060374, 0.0017275, 0.000651814, 0.00002373599], t)
    case 12 =>
      var t := y - 2000.0;
      Horner([62.92, 0.32217, 0.005589], t)
    case 13 =>
      var u := (y - 1820.0) / 100.0;
      Horner([-20.0, 0.0, 32.0], u) - 0.5628 * (2150.0 - y)
    case _ =>
      var u := (y - 1820.0) / 100.0;
      Horner([-20.0, 0.0, 32.0], u)
  }

  /** Before -500 the polynomial reads the whole year, not the month. */
  lemma EarliestSegmentIgnoresMonth(year: int, y1: real, y2: real)
    requires year <= -500
    ensures DeltaTPolynomial(year, y1) == DeltaTPolynomial(year, y2)
  {
  }

  /** The year at the middle of month `month`. */
  function MidMonthYear(year: int, month: int): real
  {
    year as real + (month as real - 0.5) / 12.0
  }

  /** The correction for the lunar secular acceleration of the ELP-2000/82
    * ephemeris, applied outside 1955..2004. */
  function LunarAccelerationCorrection(y: real): real
  {
    -0.000012932 * (y - 1955.0) * (y - 1955.0)
  }

  /** ΔT in seconds for a month of a year; it fails outside -1999..3000. */
  function DeltaTSeconds(year: int, month: int): (r: Result<real, string>)
    ensures r.Failure? <==> year < -1999 || year > 3000
    ensures r.Success? && 1955 <= year < 2005 ==> r.value == DeltaTPolynomial(year, MidMonthYear(year, month))
    ensures r.Success? && !(1955 <= year < 2005) ==>
              r.value == DeltaTPolynomial(year, MidMonthYear(year, month)) + LunarAccelerationCorrection(MidMonthYear(year, month))
  {
    if year < -1999 || year > 3000 then Failure("DeltaT is only valid from -1999 to 3000")
    else
      var y := MidMonthYear(year, month);
      var dt := DeltaTPolynomial(year, y);
      if year < 1955 || year >= 2005 then
        var c := -0.000012932 * (y - 1955.0) * (y - 1955.0);
        Success(dt + c)
      else Success(dt)
  }

  /** ΔT in days, or 0 outside the valid years. */
  function DeltaTDays(year: int, month: int): (days: real)
    ensures DeltaTSeconds(year, month).Failure? ==> days == 0.0
    ensures DeltaTSeconds(year, month).Success? ==> 86400.0 * days == DeltaTSeconds(year, month).value
  {
    match DeltaTSeconds(year, month)
    case Failure(_) => 0.0
    case Success(dt) => dt / 60.0 / 60.0 / 24.0
  }

  /** ΔT in minutes, or 0 outside the valid years. */
  function DeltaTMinutes(year: int, month: int): (minutes: real)
    ensures DeltaTSeconds(year, month).Failure? ==> minutes == 0.0
    ensures DeltaTSeconds(year, month).Success? ==> 60.0 * minutes == DeltaTSeconds(year, month).value
  {
    match DeltaTSeconds(year, month)
    case Failure(_) => 0.0
    case Success(dt) => dt / 60.0
  }

  /** The two units agree: a day has 1440 minutes. */
  lemma DeltaTUnitsAgree(year: int, month: int)
    ensures 1440.0 * DeltaTDays(year, month) == DeltaTMinutes(year, month)
  {
  }

  /** astronomy_test.go's values for December 2021, to ten decimals. */
  lemma DeltaTTestVectors()
    ensures -0.00000000005 < DeltaTDays(2021, 12) - 0.0008406386 < 0.00000000005
    ensures -0.00000000005 < DeltaTMinutes(2021, 12) - 1.2105195981 < 0.00000000005
  {
    var y := MidMonthYear(2021, 12);
    assert y == 2021.0 + 11.5 / 12.0;
    assert DeltaTPolynomial(2021, y) == 62.92 + (y - 2000.0) * (0.32217 + 0.005589 * (y - 2000.0));
  }

  // ---------------------------------------------------- vernal equinox

  /** The Julian Day of the March equinox (Meeus, Astronomical Algorithms,
    * chapter 27): the polynomial centred on 2000 for 1000..3000, the one
    * centred on year 0 otherwise. */
  function VernalEquinox(year: int): real
  {
    if 1000 <= year <= 3000 then
      var m := (year as real - 2000.0) / 1000.0;
      Horner([2451623.80984, 365242.37404, 0.05169, -0.00411, -0.00057], m)
    else
      var m := year as real / 1000.0;
      Horner([1721139.29189, 365242.1374, 0.06134, 0.00111, -0.00071], m)
  }

  /** astronomy_test.go's equinox of 2021, to within one float64 step. */
  lemma VernalEquinoxTestVector()
    ensures -0.000000001 < VernalEquinox(2021) - 2459293.8997175973 < 0.000000001
  {
    var m := (2021.0 - 2000.0) / 1000.0;
    assert m == 0.021;
  }

  /** Horner's rule on five coefficients is the quartic they define. */
  lemma HornerQuartic(cs: seq<real>, t: real)
    requires |cs| == 5
    ensures Horner(cs, t) == cs[0] + cs[1] * t + cs[2] * (t * t) + cs[3] * (t * t * t) + cs[4] * (t * t * t * t)
  {
    var h4 := Horner(cs[4..], t);
    assert h4 == cs[4] by {
      assert cs[4..][1..] == [];
      assert Horner(cs[4..][1..], t) == 0.0;
      assert h4 == cs[4] + t * 0.0;
    }
    var h3 := Horner(cs[3..], t);
    assert h3 == cs[3] + t * h4 by {
      assert cs[3..][1..] == cs[4..];
    }
    var h2 := Horner(cs[2..], t);
    assert h2 == cs[2] + t * h3 by {
      assert cs[2..][1..] == cs[3..];
    }
    var h1 := Horner(cs[1..], t);
    assert h1 == cs[1] + t * h2 by {
      assert cs[1..][1..] == cs[2..];
    }
    assert Horner(cs, t) == cs[0] + t * h1;
  }

  /** Products of numbers of magnitude at most one stay within one. */
  lemma UnitProduct(x: real, y: real)
    requires -1.0 <= x <= 1.0 && -1.0 <= y <= 1.0
    ensures -1.0 <= x * y <= 1.0
  {
    if x >= 0.0 {
      if y >= 0.0 { assert x * y <= 1.0 * y; } else { assert x * y >= x * -1.0; }
    } else {
      if y >= 0.0 { assert x * y >= -1.0 * y; } else { assert x * y <= -x; }
    }
  }

  /** A square is never negative. */
  lemma SquareNonNegative(x: real)
    ensures x * x >= 0.0
  {
    if x < 0.0 {
      assert x * x == (-x) * (-x);
    }
  }

  /** The quartic terms of the equinox polynomial change by less than
    * 0.00012 days from m to m + 0.001 when |m| is at most one. */
  lemma EquinoxQuarticStep(a: real)
    requires -1.0 <= a <= 0.999
    ensures var b := a + 0.001;
            var dq := 0.05169 * (b * b - a * a) - 0.00411 * (b * b * b - a * a * a) - 0.00057 * (b * b * b * b - a * a * a * a);
            -0.00012 < dq < 0.00011
  {
    var b := a + 0.001;
    var s := a + b;
    var a2, b2, ab := a * a, b * b, a * b;
    UnitProduct(a, a);
    UnitProduct(b, b);
    UnitProduct(a, b);
    var q := a2 + ab + b2;
    assert 0.0 <= q <= 3.0 by {
      assert q == (a + b / 2.0) * (a + b / 2.0) + 0.75 * b2;
      SquareNonNegative(a + b / 2.0);
      SquareNonNegative(b);
    }
    var r := s * (a2 + b2);
    assert -4.0 <= r <= 4.0 by {
      UnitProduct(s / 2.0, (a2 + b2) / 2.0);
      assert r == 4.0 * ((s / 2.0) * ((a2 + b2) / 2.0));
    }
    assert b * b - a * a == 0.001 * s;
    assert b * b * b - a * a * a == 0.001 * q;
    assert b * b * b * b - a * a * a * a == 0.001 * r;
  }

  /** The equinox step with the powers of m taken as given numbers: the
    * linear term contributes 365.24237404 days, the rest less than 0.00012. */
  lemma EquinoxLinearStep(ea: real, eb: real, a: real, b: real,
                          a2: real, a3: real, a4: real, b2: real, b3: real, b4: real)
    requires ea == 2451623.80984 + 365242.37404 * a + 0.05169 * a2 + -0.00411 * a3 + -0.00057 * a4
    requires eb == 2451623.80984 + 365242.37404 * b + 0.05169 * b2 + -0.00411 * b3 + -0.00057 * b4
    requires b == a + 0.001
    requires -0.00012 < 0.05169 * (b2 - a2) - 0.00411 * (b3 - a3) - 0.00057 * (b4 - a4) < 0.00011
    ensures 365.2422 < eb - ea < 365.2425
  {
  }

  /** The equinox polynomial of 1000..3000 grows by one tropical year when
    * m grows by 0.001, for m in -1..0.999. */
  lemma EquinoxPolynomialStep(a: real)
    requires -1.0 <= a <= 0.999
    ensures var cs := [2451623.80984, 365242.37404, 0.05169, -0.00411, -0.00057];
            365.2422 < Horner(cs, a + 0.001) - Horner(cs, a) < 365.2425
  {
    var cs := [2451623.80984, 365242.37404, 0.05169, -0.00411, -0.00057];
    var b := a + 0.001;
    var a2, a3, a4 := a * a, a * a * a, a * a * a * a;
    var b2, b3, b4 := b * b, b * b * b, b * b * b * b;
    assert Horner(cs, a) == 2451623.80984 + 365242.37404 * a + 0.05169 * a2 + -0.00411 * a3 + -0.00057 * a4 by {
      HornerQuartic(cs, a);
    }
    assert Horner(cs, b) == 2451623.80984 + 365242.37404 * b + 0.05169 * b2 + -0.00411 * b3 + -0.00057 * b4 by {
      HornerQuartic(cs, b);
    }
    assert -0.00012 < 0.05169 * (b2 - a2) - 0.00411 * (b3 - a3) - 0.00057 * (b4 - a4) < 0.00011 by {
      EquinoxQuarticStep(a);
    }
    EquinoxLinearStep(Horner(cs, a), Horner(cs, b), a, b, a2, a3, a4, b2, b3, b4);
  }

  /** Within 1000..3000 consecutive March equinoxes are one tropical year
    * apart: between 365.2422 and 365.2425 days. */
  lemma VernalEquinoxYearStep(year: int)
    requires 1000 <= year < 3000
    ensures 365.2422 < VernalEquinox(year + 1) - VernalEquinox(year) < 365.2425
  {
    var cs := [2451623.80984, 365242.37404, 0.05169, -0.00411, -0.00057];
    var a := (year as real - 2000.0) / 1000.0;
    assert ((year + 1) as real - 2000.0) / 1000.0 == a + 0.001;
    assert VernalEquinox(year) == Horner(cs, a);
    assert VernalEquinox(year + 1) == Horner(cs, a + 0.001);
    EquinoxPolynomialStep(a);
  }

  // ------------------------------------------------------- new moons

  /** The lunation a Julian Day falls in, counted in mean synodic months from
    * lunation 0 of 2000. */
  function ReferenceLunarMonthNum(jd: real): int
  {
    ((jd - BaseNewMoon) / MeanSynodicMonth).Floor
  }

  /** The mean estimate of new moon k. */
  function NewMoonEstimated(k: int): real
  {
    BaseNewMoon + MeanSynodicMonth * k as real
  }

  /** A Julian Day lies between the estimated new moon of its lunation and
    * the next one. */
  lemma NewMoonBracket(jd: real)
    ensures var k := ReferenceLunarMonthNum(jd);
            NewMoonEstimated(k) <= jd < NewMoonEstimated(k + 1)
  {
    var q := (jd - BaseNewMoon) / MeanSynodicMonth;
    var k := q.Floor;
    assert k as real <= q < k as real + 1.0;
    assert jd - BaseNewMoon == MeanSynodicMonth * q;
  }

  // ---------------------------------------------------- solar terms

  /** Mean solar term i of a year: the equinox moved by the term's offset
    * along the orbit relative to the equinox's own. */
  function MeanSolarTerm(eph: Ephemeris, year: int, i: int): real
  {
    VernalEquinox(year) + eph.perihelionOffset(year, i) - eph.perihelionOffset(year, 0)
  }

  /** The 26 mean solar terms from the March equinox of `year`. */
  method MeanSolarTermsJd(eph: Ephemeris, year: int) returns (mst: seq<real>)
    ensures |mst| == 26
    ensures forall i :: 0 <= i < 26 ==> mst[i] == MeanSolarTerm(eph, year, i)
    ensures mst[0] == VernalEquinox(year)
  {
    var ve := VernalEquinox(year);
    var peri: seq<real> := [];
    var i := 0;
    while i < 26
      invariant 0 <= i <= 26 && |peri| == i
      invariant forall j :: 0 <= j < i ==> peri[j] == eph.perihelionOffset(year, j)
    {
      peri := peri + [eph.perihelionOffset(year, i)];
      i := i + 1;
    }
    mst := [];
    i := 0;
    while i < 26
      invariant 0 <= i <= 26 && |mst| == i
      invariant forall j :: 0 <= j < i ==> mst[j] == ve + peri[j] - peri[0]
    {
      mst := mst + [ve + peri[i] - peri[0]];
      i := i + 1;
    }
  }

  /** The month used for the ΔT of solar term i: the equinox's slot pair is
    * March, and each pair of terms moves one month on. */
  function TermMonth(i: int): (month: int)
    requires 0 <= i < 26
    ensures 3 <= month <= 16
    ensures month == (i + 1) / 2 + 3
  {
    (((i as real) + 1.0) / 2.0).Floor + 3
  }

  /** Solar term i with the perturbation added and ΔT taken off. */
  function AdjustedSolarTerm(eph: Ephemeris, year: int, i: int): real
    requires 0 <= i < 26
  {
    var jd := MeanSolarTerm(eph, year, i);
    jd + eph.perturbation(jd) - DeltaTDays(year, TermMonth(i))
  }

  /** The 26-slot table with the adjusted terms start..end filled in and 0
    * elsewhere. */
  function AdjustedSolarTerms(eph: Ephemeris, year: int, start: int, end: int): (jqs: seq<real>)
    ensures |jqs| == 26
    ensures forall i :: 0 <= i < 26 && (i < start || i > end) ==> jqs[i] == 0.0
    ensures forall i :: 0 <= i < 26 && start <= i <= end ==> jqs[i] == AdjustedSolarTerm(eph, year, i)
  {
    seq(26, i requires 0 <= i < 26 => if i < start || i > end then 0.0 else AdjustedSolarTerm(eph, year, i))
  }

  /** adjustedSolarTermsJd: computes the mean terms, then fills the slots
    * start..end. */
  method AdjustedSolarTermsJd(eph: Ephemeris, year: int, start: int, end: int) returns (jqs: seq<real>)
    ensures jqs == AdjustedSolarTerms(eph, year, start, end)
  {
    var mst := MeanSolarTermsJd(eph, year);
    jqs := [];
    var i := 0;
    while i < 26
      invariant 0 <= i <= 26 && |jqs| == i
      invariant forall j :: 0 <= j < i ==> jqs[j] == AdjustedSolarTerms(eph, year, start, end)[j]
    {
      var v := 0.0;
      if start <= i <= end {
        var jd := mst[i];
        var pert := eph.perturbation(jd);
        var month := (((i as real) + 1.0) / 2.0).Floor + 3;
        var dtd := DeltaTDays(year, month);
        v := jd + pert - dtd;
      }
      jqs := jqs + [v];
      i := i + 1;
    }
  }

  /** The previous year's terms from the winter solstice on: slots 18..23. */
  function LastYearSolarTerms(eph: Ephemeris, year: int): (jqs: seq<real>)
    ensures |jqs| == 26
    ensures forall i :: 0 <= i < 18 ==> jqs[i] == 0.0
    ensures jqs[24] == 0.0 && jqs[25] == 0.0
    ensures forall i :: 18 <= i <= 23 ==> jqs[i] == AdjustedSolarTerm(eph, year - 1, i)
  {
    AdjustedSolarTerms(eph, year - 1, 18, 23)
  }
}
