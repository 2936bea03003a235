/** The month codes of chinesecalendar.go's zqAndSMandLunarMonthCode: the
  * 15 lunations from the one holding the winter solstice get codes 0
  * (the eleventh month), 1 (the twelfth), 2 (the first month of the next
  * year) and so on, a leap month getting the code of the month before it
  * plus one half; and mcLeap, which finds the leap month among them. */
module LunarMonths {
  import opened Wrappers
  import opened LunarTables
  import Astronomy

  /** Lunation i of the window (1..14) holds no Zhongqi: its new moon falls
    * after the day of Zhongqi i - 1 - yz while the next new moon's day is not
    * after the day of Zhongqi i - yz (yz is 1 once a leap month was found).
    * The first comparison is of the new moon's instant with a day number. */
  predicate NoQi(qss: seq<real>, nm: seq<real>, i: int, yz: int)
    requires |qss| == 16 && |nm| == 16 && 1 <= i <= 14 && 0 <= yz <= 1 && i - 1 - yz >= 0
  {
    nm[i] + 0.5 + ChineseTimeOffsetDays > LocalDay(qss[i - 1 - yz]) as real
    && LocalDay(nm[i + 1]) <= LocalDay(qss[i - yz])
  }

  /** The thirteenth new moon's day is not after the next winter solstice's
    * day: 13 lunations start between the two solstices, so one of the
    * lunations may be a leap month. Otherwise only slots 13 and 14 can be. */
  predicate LeapYearWindow(qss: seq<real>, nm: seq<real>)
    requires |qss| == 16 && |nm| == 16
  {
    LocalDay(qss[12]) >= LocalDay(nm[13])
  }

  /** The first lunation in from..14 holding no Zhongqi, or 15 when none does. */
  function FirstNoQi(qss: seq<real>, nm: seq<real>, from: int): (f: int)
    requires |qss| == 16 && |nm| == 16 && 1 <= from <= 15
    ensures from <= f <= 15
    ensures f <= 14 ==> NoQi(qss, nm, f, 0)
    ensures forall j :: from <= j < f ==> !NoQi(qss, nm, j, 0)
    decreases 15 - from
  {
    if from == 15 then 15
    else if NoQi(qss, nm, from, 0) then from
    else FirstNoQi(qss, nm, from + 1)
  }

  /** The slot of the leap month, or 15 when the window has none: the first
    * lunation without Zhongqi, searched from slot 1 in a window of 13
    * lunations and from slot 13 otherwise. */
  function LeapIndex(qss: seq<real>, nm: seq<real>): (f: int)
    requires |qss| == 16 && |nm| == 16
    ensures 1 <= f <= 15
  {
    FirstNoQi(qss, nm, if LeapYearWindow(qss, nm) then 1 else 13)
  }

  /** The code of slot i given the leap slot f: i before the leap month,
    * i - 1/2 for it, and after it i - 1, or i - 1/2 again for a later
    * lunation without Zhongqi. */
  function CodeAt(qss: seq<real>, nm: seq<real>, f: int, i: int): real
    requires |qss| == 16 && |nm| == 16 && 1 <= f <= 15 && 0 <= i <= 14
  {
    if i < f then i as real
    else if i == f then i as real - 0.5
    else if NoQi(qss, nm, i, 1) then i as real - 0.5
    else (i - 1) as real
  }

  /** The 15 month codes of a window of new moons and Zhongqi terms. */
  function MonthCodes(qss: seq<real>, nm: seq<real>): (lmc: seq<real>)
    requires |qss| == 16 && |nm| == 16
    ensures |lmc| == 15
    ensures forall i :: 0 <= i < 15 ==> lmc[i] >= 0.0
  {
    var f := LeapIndex(qss, nm);
    seq(15, i requires 0 <= i < 15 => CodeAt(qss, nm, f, i))
  }

  /** A code ends in one half. */
  predicate IsLeapCode(c: real)
  {
    c - c.Floor as real > 0.0
  }

  /** The codes start at 0, go up strictly, stay within one of their slot,
    * and are whole numbers before the leap slot; each is whole or a half. */
  lemma MonthCodesShape(qss: seq<real>, nm: seq<real>)
    requires |qss| == 16 && |nm| == 16
    ensures var lmc := MonthCodes(qss, nm);
            lmc[0] == 0.0
            && (forall i :: 0 <= i < 14 ==> lmc[i] < lmc[i + 1])
            && (forall i :: 0 <= i < 15 ==> (i - 1) as real <= lmc[i] <= i as real)
            && (forall i :: 0 <= i < 15 && i < LeapIndex(qss, nm) ==> lmc[i] == i as real)
            && (forall i :: 0 <= i < 15 ==> lmc[i] == i as real || lmc[i] == i as real - 0.5 || lmc[i] == (i - 1) as real)
  {
    var lmc := MonthCodes(qss, nm);
    var f := LeapIndex(qss, nm);
    forall i | 0 <= i < 14
      ensures lmc[i] < lmc[i + 1]
    {
      assert lmc[i] == CodeAt(qss, nm, f, i) && lmc[i + 1] == CodeAt(qss, nm, f, i + 1);
    }
  }

  /** The leap codes are exactly the leap slot and the later lunations
    * without Zhongqi; with no leap slot every code is its slot. */
  lemma MonthCodesLeaps(qss: seq<real>, nm: seq<real>, i: int)
    requires |qss| == 16 && |nm| == 16 && 0 <= i < 15
    ensures var lmc := MonthCodes(qss, nm);
            var f := LeapIndex(qss, nm);
            (IsLeapCode(lmc[i]) <==> i == f || (f < i && NoQi(qss, nm, i, 1)))
            && (f == 15 ==> lmc[i] == i as real)
  {
    var lmc := MonthCodes(qss, nm);
    var f := LeapIndex(qss, nm);
    assert lmc[i] == CodeAt(qss, nm, f, i);
    if i == f || (f < i && NoQi(qss, nm, i, 1)) {
      assert lmc[i] == i as real - 0.5;
      assert lmc[i].Floor == i - 1;
    } else {
      assert lmc[i].Floor as real == lmc[i];
    }
  }

  /** A window of 12 lunations between the solstices has codes 0..12 in
    * slots 0..12. */
  lemma CommonYearCodes(qss: seq<real>, nm: seq<real>, i: int)
    requires |qss| == 16 && |nm| == 16 && !LeapYearWindow(qss, nm) && 0 <= i <= 12
    ensures MonthCodes(qss, nm)[i] == i as real
  {
  }

  /** The loop over slots lo..14 with the leap flag yz: a lunation without
    * Zhongqi gets its slot less one half and sets the flag, any other its
    * slot less the flag. */
  method CodesFrom(qss: seq<real>, nm: seq<real>, lmc0: seq<real>, lo: int) returns (lmc: seq<real>)
    requires |qss| == 16 && |nm| == 16 && |lmc0| == 15
    requires lo == (if LeapYearWindow(qss, nm) then 1 else 13)
    requires forall j :: 0 <= j < lo ==> lmc0[j] == j as real
    ensures lmc == MonthCodes(qss, nm)
  {
    ghost var f := LeapIndex(qss, nm);
    lmc := lmc0;
    var yz := 0;
    var i := lo;
    while i <= 14
      invariant lo <= i <= 15 && |lmc| == 15
      invariant yz == (if f < i then 1 else 0)
      invariant forall j :: 0 <= j < i ==> lmc[j] == CodeAt(qss, nm, f, j)
    {
      if NoQi(qss, nm, i, yz) {
        assert yz == 0 ==> i == f;
        lmc := lmc[i := i as real - 0.5];
        yz := 1;
      } else {
        assert yz == 0 ==> i < f;
        lmc := lmc[i := (i - yz) as real];
      }
      i := i + 1;
    }
  }

  /** The codes a window gets in zqAndSMandLunarMonthCode: slots 0..12
    * directly when only 12 lunations start between the solstices, then the
    * remaining slots by CodesFrom. */
  method FillCodes(qss: seq<real>, nm: seq<real>) returns (lmc: seq<real>)
    requires |qss| == 16 && |nm| == 16
    ensures lmc == MonthCodes(qss, nm)
  {
    lmc := seq(15, _ => 0.0);
    if LeapYearWindow(qss, nm) {
      lmc := CodesFrom(qss, nm, lmc, 1);
    } else {
      var i := 0;
      while i <= 12
        invariant 0 <= i <= 13 && |lmc| == 15
        invariant forall j :: 0 <= j < i ==> lmc[j] == j as real
      {
        lmc := lmc[i := i as real];
        i := i + 1;
      }
      lmc := CodesFrom(qss, nm, lmc, 13);
    }
  }

  /** The new moons and month codes of the window of year `year`, or the
    * index panic of the new-moon window. */
  function YearTable(eph: Astronomy.Ephemeris, year: int): (r: Result<(seq<real>, seq<real>), CalendarError>)
    ensures r.Success? ==> |r.value.0| == 16 && |r.value.1| == 15
    ensures r.Success? <==> NewMoonWindow(TrueNewMoons(eph, year), QiSinceSolstice(eph, year)[0]).Success?
    ensures r.Success? ==> r.value.1 == MonthCodes(QiSinceSolstice(eph, year), r.value.0)
    ensures r.Success? ==> forall k :: 0 <= k < 15 ==> r.value.1[k] >= 0.0
  {
    var qss := QiSinceSolstice(eph, year);
    var w := NewMoonWindow(TrueNewMoons(eph, year), qss[0]);
    if w.Failure? then Failure(w.error) else Success((w.value, MonthCodes(qss, w.value)))
  }

  /** zqAndSMandLunarMonthCode: the Zhongqi terms, the window of new moons
    * from the one holding the winter solstice, and its month codes. */
  method ZqAndSMandLunarMonthCode(eph: Astronomy.Ephemeris, year: int) returns (r: Result<(seq<real>, seq<real>), CalendarError>)
    ensures r == YearTable(eph, year)
  {
    var qss := QiSinceWinterSolstice(eph, year);
    var w := SMsinceWinterSolstice(eph, year, qss[0]);
    if w.Failure? {
      return Failure(w.error);
    }
    var nm := w.value;
    var lmc := FillCodes(qss, nm);
    r := Success((nm, lmc));
  }

  // ----------------------------------------------------------- mcLeap

  /** The first leap code among slots from..14, rounded to its slot number
    * (floor of code + 1/2), or 0 when there is none. */
  function LeapFrom(lmc: seq<real>, from: int): int
    requires |lmc| == 15 && 1 <= from <= 15
    decreases 15 - from
  {
    if from == 15 then 0
    else if IsLeapCode(lmc[from]) then (lmc[from] + 0.5).Floor
    else LeapFrom(lmc, from + 1)
  }

  /** mcLeap's result: the slot of the window's leap month, 0 for none. */
  function LeapSlot(lmc: seq<real>): int
    requires |lmc| == 15
  {
    LeapFrom(lmc, 1)
  }

  /** mcLeap: scans slots 1..14 for the first code ending in one half. */
  method McLeap(lmc: seq<real>) returns (leap: int)
    requires |lmc| == 15
    ensures leap == LeapSlot(lmc)
  {
    leap := 0;
    var j := 1;
    while j <= 14
      invariant 1 <= j <= 15 && leap == 0
      invariant LeapFrom(lmc, j) == LeapSlot(lmc)
    {
      if lmc[j] - lmc[j].Floor as real > 0.0 {
        leap := (lmc[j] + 0.5).Floor;
        return;
      }
      j := j + 1;
    }
  }

  lemma {:induction false} LeapFromNone(qss: seq<real>, nm: seq<real>, from: int)
    requires |qss| == 16 && |nm| == 16 && 1 <= from <= 15 && from <= LeapIndex(qss, nm)
    ensures var lmc := MonthCodes(qss, nm);
            var f := LeapIndex(qss, nm);
            LeapFrom(lmc, from) == (if f == 15 then 0 else f)
    decreases 15 - from
  {
    var lmc := MonthCodes(qss, nm);
    var f := LeapIndex(qss, nm);
    if from < 15 {
      MonthCodesLeaps(qss, nm, from);
      if from == f {
        assert lmc[from] == from as real - 0.5;
      } else {
        LeapFromNone(qss, nm, from + 1);
      }
    }
  }

  /** mcLeap finds the leap slot of the month codes, and 0 exactly when the
    * window has no leap month. */
  lemma LeapSlotOfMonthCodes(qss: seq<real>, nm: seq<real>)
    requires |qss| == 16 && |nm| == 16
    ensures var f := LeapIndex(qss, nm);
            LeapSlot(MonthCodes(qss, nm)) == (if f == 15 then 0 else f)
            && (LeapSlot(MonthCodes(qss, nm)) == 0 <==> forall i :: 0 <= i < 15 ==> !IsLeapCode(MonthCodes(qss, nm)[i]))
  {
    LeapFromNone(qss, nm, 1);
    var f := LeapIndex(qss, nm);
    if f < 15 {
      MonthCodesLeaps(qss, nm, f);
    } else {
      forall i | 0 <= i < 15
        ensures !IsLeapCode(MonthCodes(qss, nm)[i])
      {
        MonthCodesLeaps(qss, nm, i);
      }
    }
  }

  /** The codes can hold a second leap code: in this window lunation 1 holds
    * no Zhongqi and neither does lunation 3, though the Zhongqi after the leap
    * month is counted one slot later; mcLeap reports the first. */
  lemma SecondLeapCodePossible()
    ensures var qss := [10.0, 65.0, 125.0, 400.0, 400.0, 400.0, 400.0, 400.0, 400.0, 400.0, 400.0, 400.0, 400.0, 400.0, 400.0, 400.0];
            var nm := [0.0, 30.0, 60.0, 90.0, 120.0, 150.0, 180.0, 210.0, 240.0, 270.0, 300.0, 330.0, 360.0, 390.0, 420.0, 450.0];
            LeapYearWindow(qss, nm) && LeapIndex(qss, nm) == 1
            && MonthCodes(qss, nm)[1] == 0.5 && MonthCodes(qss, nm)[2] == 1.0 && MonthCodes(qss, nm)[3] == 2.5
            && LeapSlot(MonthCodes(qss, nm)) == 1
  {
    var qss := [10.0, 65.0, 125.0, 400.0, 400.0, 400.0, 400.0, 400.0, 400.0, 400.0, 400.0, 400.0, 400.0, 400.0, 400.0, 400.0];
    var nm := [0.0, 30.0, 60.0, 90.0, 120.0, 150.0, 180.0, 210.0, 240.0, 270.0, 300.0, 330.0, 360.0, 390.0, 420.0, 450.0];
    assert LocalDay(10.0) == 10 && LocalDay(65.0) == 65 && LocalDay(125.0) == 125 && LocalDay(400.0) == 400;
    assert LocalDay(60.0) == 60 && LocalDay(90.0) == 90 && LocalDay(120.0) == 120 && LocalDay(390.0) == 390;
    assert NoQi(qss, nm, 1, 0);
    assert !NoQi(qss, nm, 2, 1) && NoQi(qss, nm, 3, 1);
    LeapSlotOfMonthCodes(qss, nm);
  }
}
