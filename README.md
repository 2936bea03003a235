# gocalendar in Dafny

A model of the calendar core of the Go package gocalendar, with proofs about it. The package converts civil dates to and from Julian Days. It builds the year tables of the Chinese lunisolar calendar: the Jie and Zhongqi solar terms, the window of 16 new moons from the winter-solstice month, and the month codes with leap-month detection. It converts between civil and lunar dates, and it computes the four sexagenary pillars (year, month, day and hour stems and branches). It also lays out a month grid: the first cell, nth-weekday festivals, star signs and the list of solar terms. The older revision of the package (date.go and ctime.go) is modelled separately, so the two revisions can be compared.

One module per component:

- `GoMath` (gomath.dfy): Go's truncating `%`, `/` and `int(x)`, next to Dafny's Euclidean operators.
- `Julian` (julian.dfy): julian.go, including JulianDay, the Meeus inverse JdToTimeMap with its correction loop, and the MJD and J2000 helpers.
- `DateTime` (datetime.dfy) and `Utils` (utils.dfy): the two leap rules, month lengths, zodiac signs, the Five Elements, the integer power and zone names.
- `Astronomy` (astronomy.dfy): the ΔT domain and segments, the vernal equinox, the mean new-moon index, and the 26-slot solar-term tables.
- chinesecalendar.go is split into four modules:
  - `LunarTables` (lunar_tables.dfy): the Jie, Zhongqi and new-moon windows;
  - `LunarMonths` (lunar_months.dfy): the month codes and mcLeap;
  - `LunarConversion` (lunar_conversion.dfy): gregorianToLunar, lunarToGregorian, LunarMonthDays, mdList, LunarLeap and DayChinese;
  - `Sexagenary` (sexagenary.dfy): ChineseSexagenaryCycle.
- `CalendarGrid` (calendar.dfy): calendar.go. The `Calendar` class holds the state that setRawTime and SolarTerms update.
- `LegacyCtime` (ctime.dfy) and `LegacyDate` (date.dfy): the older revision. `Date` and `LunarDate` are classes whose fields its methods overwrite.

How the source maps onto Dafny:

- Go's `float64` is `real` and `math.Floor` is `.Floor`.
- The package's decimal `Round` is the identity, so every value is the one the source computes before rounding.
- Fixed arrays are sequences of fixed length, built by methods that follow the source's loops. Each such method is proved equal to a specification function, and the properties are lemmas about that function.
- A Go index panic that callers can reach is a `Failure(IndexOutOfRange)` result. The source's `errors.New` results are the other `CalendarError` values.
- The trigonometric astronomy is an input record of functions: the perihelion offsets of the solar terms, the perturbation and the true new moon (`Astronomy.Ephemeris`). So are the legacy revision's solar terms and new moons (`LegacyDate.LegacyEphemeris`).
- `time.Now`, time-zone lookup and `time.Weekday` enter as parameters.

The ΔT table of astronomy.go:56-102 has 15 branches.

## Model

| member | source | states |
|---|---|---|
| GoMath.GoRem | chinesecalendar.go:123-124 | Go's `%` by a positive modulus: the remainder is smaller than the modulus in magnitude and takes the sign of the dividend |
| GoMath.GoQuo | date.go:1192-1207 | Go's integer `/` by a positive divisor, truncating: dividend = divisor × quotient + Go remainder |
| GoMath.GoRemAgrees | chinesecalendar.go:106 | the dividend and its Go remainder differ by a multiple of the modulus, and the idiom `(a % b + b) % b` is the Euclidean remainder for every `a` |
| GoMath.ModShift | chinesecalendar.go:106 | adding a multiple of the modulus leaves the remainder unchanged |
| GoMath.FloorDiv | calendar.go:155-156 | integer division by a positive divisor equals `math.Floor` of the floating-point quotient |
| GoMath.Trunc | chinesecalendar.go:315 | Go's `int(x)` of a float truncates toward zero: it lies within one of x, on the side of zero |
| GoMath.TruncWhole | chinesecalendar.go:315 | `int(x)` is exact on a whole number |
| Julian.ShiftedMonth | julian.go:63-65 | every integer month is counted from March into 0..11: March..December become 0..9, January and February 10 and 11 |
| Julian.JdnInJulian | julian.go:90-96 | specification function: the Julian Day Number of a Julian-calendar date from the shifted year and month, day + floor((153m + 2)/5) + 365y + floor(y/4) - 32083; CalendarReformBoundary and NextDayIsNextJulianDay are proved about it |
| Julian.JdnInGregorian | julian.go:98-104 | specification function: the Gregorian Julian Day Number, with the century terms - floor(y/100) + floor(y/400) and the constant 32045; CalendarReformBoundary and NextDayIsNextJulianDay are proved about it |
| Julian.JulianDay | julian.go:41-88 | specification function: the Julian formula up to 1582-10-04, the Gregorian one from 1582-10-15 and the adoption date's constant in between, less 0.5; JulianDayTestVectors, CalendarBranchesPartition, ReformGapCollapses, TimeOfDayIsLinear and NextDayIsNextJulianDay state its properties |
| Julian.JulianDayTestVectors | julian_test.go:8-37 | JulianDay gives the values julian_test.go expects: 2298519 (1581-01-01 12:00), 2459554.5 and 2459555 (2021-12-06 0:00 and 12:00) and 2459555.00706… for 12:10:10 |
| Julian.CalendarReformBoundary | julian.go:73-78 | the last Julian-calendar day 1582-10-04 and the first Gregorian day 1582-10-15 are consecutive Julian Days (2299160 and 2299161 at noon) |
| Julian.ReformGapCollapses | julian.go:79-82 | every instant of 1582-10-05..14 maps to one constant, which is not the JD of 1582-10-15 (the gap branch feeds already-shifted constants back into the Gregorian formula) |
| Julian.CalendarBranchesPartition | julian.go:73-82 | no date is both a Julian-calendar and a Gregorian-calendar date, and the gap branch is taken exactly for 1582-10-05..14 |
| Julian.TimeOfDayIsLinear | julian.go:43-68 | outside the gap the hour, minute, second and millisecond add hour/24 + minute/1440 + (second + ms/1000)/86400 to the JD of midnight |
| Julian.NextDayIsNextJulianDay | julian.go:90-101 | outside the gap the next day of a month is the next Julian Day, in both calendars |
| Julian.ReckonYearDay | julian.go:132-135 | one pass of the month arithmetic puts the day of year B - D counted from March in 123..488 |
| Julian.ReckonBounds | julian.go:132-136 | every pass gives a month count E in 4..15 and a whole-day part in 0..31 |
| Julian.CorrectionRunsOnce | julian.go:131-145 | when a pass lands on day 0, the pass one day earlier lands on day 30 of the month before in the same year count, so the correction loop runs at most once |
| Julian.ClockOfFraction | julian.go:171-190 | the hour, minute, second and millisecond of a day fraction are in 0..24, 0..59, 0..59 and 0..999, and a zero fraction gives 0:00:00.000 |
| Julian.CalendarOfJdUnfold | julian.go:108-124 | the calendar of a JD is the one of its Meeus day count A (Z itself before JD 2299161, Z + 10 + a - floor(a/4) from there) and its day fraction |
| Julian.CorrectedReckoning | julian.go:126-145 | the correction loop steps back at most one day, exactly when the first pass lands on day 0, and leaves a day value of at least 1 |
| Julian.SplitDayPart | julian.go:162-169 | the day of the month is the pass's day plus the correction count, and the remaining fraction is the time of day |
| Julian.JdToTimeMap | julian.go:106-201 | JdToTimeMap is the calendar of the JD, with month 1..12, day 1..31 and clock fields in range; CalendarOfJdRoundTrip proves that it undoes JulianDay |
| Julian.CalendarOfJd | julian.go:106-201 | the calendar of every Julian Day has month 1..12, day 1..31, hour 0..24, minute and second 0..59 and millisecond 0..999; CalendarOfJdRoundTrip proves it the inverse of JulianDay |
| Julian.ReckonOfYearDay | julian.go:131-136 | a pass at a day count that lies n days after the 1st of March of year count C, within that year, gives that C, the month count E with 153E <= 5n < 153(E+1), and n - floor(153E/5) as its day |
| Julian.ReckonOfDate | julian.go:126-145 | at the Julian-calendar count of a valid day of a March-based month, the pass that survives the correction loop gives year count y - 84, month count m + 4 and the day, where the day-0 case (the 31st of March, August and January) is stepped back once |
| Julian.GregorianCountSplit | julian.go:98-104 | a Gregorian count splits into 400-year cycles, centuries and days within the century, and the Julian count of the same day is the elapsed centuries less the elapsed quadricentennials less 2 days later |
| Julian.CenturyFloors | julian.go:121-123 | at such a count, a = floor((Z - 2305507.25)/36524.25) is the elapsed Gregorian centuries less 16 and floor(a/4) the elapsed 400-year cycles less 4 |
| Julian.MeeusAOfGregorian | julian.go:117-124 | for a valid Gregorian day from JD 2299161 on, Z + 10 + a - floor(a/4) is the Julian-calendar count of the same day |
| Julian.CountsOfCalendars | julian.go:73-78 | a Julian-calendar date has a Julian count below 2299161 and a Gregorian date a Gregorian count of at least 2299161, so JdToTimeMap's boundary test picks the calendar JulianDay used |
| Julian.MeeusAOfCount | julian.go:111-124 | for every valid date outside the reform gap, the Meeus count A of the day JulianDay gives is the date's Julian-calendar count |
| Julian.ClockOfWholeTime | julian.go:171-190 | a time of whole hours, minutes and seconds is below one day and its clock reads back exactly, the 0.000000005 h nudge never carrying into the next unit |
| Julian.MarchMonthStarts | julian.go:95 | floor((153m + 2)/5) is the day of the year, counted from the 1st of March, on which March-based month m starts: 0, 31, 61, 92, 122, 153, 184, 214, 245, 275, 306, 337, and 367 after February |
| Julian.MarchDayBounds | julian.go:63-65 | a valid civil day still lies inside its month once the month is counted from March, and a leap day of February is one in the shifted year's rule |
| Julian.JulianDayOfCount | julian.go:63-88 | outside the reform gap JulianDay is the date's count in its own calendar plus the clock's fraction of a day, less 0.5 |
| Julian.CalendarOfDateCount | julian.go:126-201 | the calendar of the Julian-calendar count of a valid March-based date has that day, the civil month and year it came from, and the clock of the fraction |
| Julian.CalendarOfJdOfCount | julian.go:106-124 | for a valid date outside the gap with a whole-second clock, JdToTimeMap of JulianDay reduces to the calendar of the date's Julian-calendar count and fraction |
| Julian.CalendarOfJdRoundTrip | julian.go:41-201 | JdToTimeMap undoes JulianDay: every valid date outside the reform gap (Julian leap years up to 1582, Gregorian ones after) with a whole-second clock reads back with the same year, month, day, hour, minute and second and millisecond 0 |
| Julian.ReckonTestPoints | julian.go:111-136 | the passes JdToTimeMap makes for JD 2298519 and 2459555 |
| Julian.CalendarOfJd2298519 | julian_test.go:63-69 | JD 2298519 reads back as 1581-01-01 12:00:00 |
| Julian.CalendarOfJd2459554Midnight | julian_test.go:71-76 | JD 2459554.5 reads back as 2021-12-06 00:00:00 |
| Julian.CalendarOfJd2459555Noon | julian_test.go:78-83 | JD 2459555 reads back as 2021-12-06 12:00:00 |
| Julian.CalendarOfJd2459555Clock | julian_test.go:85-92 | JD 2459555.007060185 reads back as 2021-12-06 12:10:10 |
| Julian.MjdShiftsInvert | julian.go:244-252 | jdToMjd and mjdToJd are inverse shifts by 2400000.5 |
| Julian.JdToMjd | julian.go:245-247 | specification function: MJD is JD - 2400000.5; MjdShiftsInvert proves MjdToJd its inverse |
| Julian.MjdToJd | julian.go:250-252 | specification function: JD is MJD + 2400000.5; MjdShiftsInvert proves JdToMjd its inverse |
| Julian.Mjd | julian.go:230-235 | specification function: the MJD of a civil date is its JulianDay shifted by JdToMjd; MjdTestVectors checks it |
| Julian.MjdToTimeMap | julian.go:237-242 | MjdToTimeMap is JdToTimeMap of mjd + 2400000.5 |
| Julian.MjdTestVectors | julian_test.go:40-53 | Mjd of 2021-12-06 is 59554 at midnight and 59554.5 at noon |
| Julian.MjdToTimeMapTestVectors | julian_test.go:100-113 | MJD 59554 and 59554.5 read back as 2021-12-06 0:00 and 12:00 |
| Julian.EpochScales | julian.go:254-267 | days, centuries and millennia since J2000.0 measure the same interval (a century is 36525 days, ten millennia parts) |
| Julian.JulianDayFromJ2000 | julian.go:265-267 | specification function: the days since JD 2451545; EpochScales proves it undoes the shift |
| Julian.JulianCentury | julian.go:255-257 | specification function: those days over 36525; EpochScales proves t centuries after J2000 give t |
| Julian.JulianThousandYear | julian.go:260-262 | specification function: those days over 365250; EpochScales proves it one tenth of JulianCentury |
| DateTime.IsLeapYear | datetime.go:19-21 | datetime.go's leap years are the plain Gregorian ones except the years divisible by 3200 and not by 172800 |
| DateTime.LeapRulesDiffer | datetime.go:19-21 | the rule of datetime.go and utils.go's IsLeap disagree exactly on years divisible by 3200 but not 172800, where datetime.go sees a common year |
| DateTime.IsLeapYearTestVectors | datetime_test.go:8-14 | 1900 and 2100 are common, 1940 and 2000 leap, 3200 common (though leap for IsLeap) and 172800 leap |
| DateTime.GregorianMonthDays | datetime.go:8-14 | a month has 28..31 days; 29 exactly for February of a leap year, otherwise the table's length |
| DateTime.YearLength | datetime.go:8-14 | the twelve months add up to 366 days in a leap year and 365 otherwise |
| DateTime.MonthLengthMatchesJulianDay | datetime.go:8-14 | after 1582 the month table agrees with julian.go's JulianDay: the first of the next month is the month's length later (February under the plain leap rule) |
| DateTime.LeapDayCount | julian.go:100 | how the leap-day terms floor(y/4), floor(y/100) and floor(y/400) step from y - 1 to y |
| Utils.IsLeap | utils.go:28-30 | a leap year is divisible by 4; every year divisible by 400 is leap and every other century is common |
| Utils.IsLeapPeriod | utils.go:28-30 | the plain rule repeats every 400 years |
| Utils.ZodiacIndex | utils.go:75-83 | the sign index is in 0..11 and the day lies in that sign (on or after its start day in its month, or before the next sign's start in the next month); 1 January..19 January is Capricorn (11) |
| Utils.ZodiacIndexUnique | utils.go:75-83 | a valid day lies in no other sign than the one zodiacIndex picks |
| Utils.ZodiacTitle | utils.go:85-90 | the sign's name for an index in 0..11, "" otherwise |
| Utils.Zodiac | utils.go:69-73 | Zodiac fails (Go index panic) exactly for a month outside 1..12; otherwise it gives the sign the day lies in |
| Utils.TianGanWuXing | utils.go:51-57 | the element of stem i for i in 0..9, "" otherwise |
| Utils.DiZhiWuXing | utils.go:60-66 | the element of branch i for i in 0..11, "" otherwise |
| Utils.StemPairsShareElement | utils.go:15 | stems 2k and 2k + 1 share an element, and the five pairs have five different elements |
| Utils.B2i | utils.go:93-98 | B2i is 0 or 1, and 1 exactly for true |
| Utils.I2b | utils.go:100-102 | I2b is false exactly for 0 |
| Utils.BoolIntRoundTrip | utils.go:93-102 | I2b(B2i(b)) == b |
| Utils.RealPowAdd | utils.go:116-134 | x^(a+b) = x^a × x^b for the reference power |
| Utils.CalPow | utils.go:116-134 | calPow's halving and squaring computes x to the n-th power as n repeated factors |
| Utils.Pow | utils.go:105-114 | Pow is 0 for x = 0 and x^n otherwise |
| Utils.DecimalString | utils.go:45-47 | `%d` prints a natural number as one or more decimal digits |
| Utils.DecimalStringRoundTrip | utils.go:45-47 | the printed digits read back to the number |
| Utils.ClockOfOffset | utils.go:41 | the wall clock an offset in seconds shows is a valid hour and minute |
| Utils.LocName | utils.go:33-48 | LocName is "UTC" exactly when the offset's clock reads 00:00 (a zero offset, but also 86400 s or a 30 s offset, since seconds are dropped and hours wrap at 24), and otherwise an "Etc/GMT" name whose sign is inverted (`+` west of UTC, `-` east) |
| Utils.LocNameReadsBack | utils.go:33-48 | the hours (and minutes after a colon) of a zone name read back to the offset's clock |
| Utils.LocNameSignOnly | utils.go:35-39 | opposite offsets get the same name apart from the sign, which is inverted (`-` for east) |
| Utils.LocNameExamples | utils.go:33-48 | LocName(0) and LocName(86400) are "UTC", 28800 gives "Etc/GMT-8", -18000 "Etc/GMT+5" and 19800 "Etc/GMT-5:30" |
| Astronomy.DeltaTSegment | astronomy.go:56-102 | the switch picks one of its 15 polynomial cases for every year; DeltaTPolynomial is defined by cases on this choice, so the ΔT the model computes uses it |
| Astronomy.DeltaTSegmentsPartition | astronomy.go:56-102 | the cases of the switch that DeltaTPolynomial runs partition -1999..3000: a valid year lies in the year range of exactly the case the switch takes (the first case is every year up to -500) |
| Astronomy.DeltaTPolynomial | astronomy.go:56-102 | specification function: the polynomial of the case DeltaTSegment picks, each written by Horner's rule with the source's coefficients; DeltaTSeconds, EarliestSegmentIgnoresMonth and DeltaTTestVectors are stated with it |
| Astronomy.EarliestSegmentIgnoresMonth | astronomy.go:57-59 | up to -500 the polynomial reads the whole year, so ΔT does not depend on the month |
| Astronomy.DeltaTSeconds | astronomy.go:44-114 | ΔT fails exactly outside -1999..3000; from 1955 to 2004 it is the polynomial at the middle of the month, otherwise the polynomial plus the lunar-acceleration correction -0.000012932 (y - 1955)² |
| Astronomy.DeltaTDays | astronomy.go:19-26 | ΔT in days is the seconds over 86400, and 0 where deltaTSeconds fails |
| Astronomy.DeltaTMinutes | astronomy.go:31-38 | ΔT in minutes is the seconds over 60, and 0 where deltaTSeconds fails |
| Astronomy.DeltaTUnitsAgree | astronomy.go:19-38 | the two units agree: 1440 × days = minutes |
| Astronomy.DeltaTTestVectors | astronomy_test.go:8-30 | ΔT of December 2021 is 0.0008406386 days and 1.2105195981 minutes to ten decimals |
| Astronomy.VernalEquinoxTestVector | astronomy_test.go:43-50 | the March equinox of 2021 is JD 2459293.8997175973 to within 10⁻⁹ |
| Astronomy.VernalEquinox | astronomy.go:154-170 | specification function: Meeus's quartic in m = (year - 2000)/1000 for 1000..3000 and in year/1000 otherwise; VernalEquinoxTestVector and VernalEquinoxYearStep are proved about it |
| Astronomy.HornerQuartic | astronomy.go:161-166 | Horner's rule on five coefficients is the quartic c0 + c1 m + c2 m² + c3 m³ + c4 m⁴ the source writes with math.Pow |
| Astronomy.EquinoxPolynomialStep | astronomy.go:161-163 | the 1000..3000 equinox polynomial grows by between 365.2422 and 365.2425 days when m grows by 0.001, for every m in -1..0.999 |
| Astronomy.VernalEquinoxYearStep | astronomy.go:154-170 | for every year in 1000..2999 the next March equinox comes between 365.2422 and 365.2425 days later: one tropical year |
| Astronomy.NewMoonBracket | astronomy.go:256-267 | a Julian Day lies between the estimated new moon of its reference lunation and the next one |
| Astronomy.ReferenceLunarMonthNum | astronomy.go:259-262 | specification function: floor((jd - BNM) / MSM), the mean lunation index of jd; NewMoonBracket is proved about it |
| Astronomy.NewMoonEstimated | astronomy.go:264-268 | specification function: BNM + MSM k, the mean new moon k; NewMoonBracket proves jd lies between those of its lunation and the next |
| Astronomy.MeanSolarTermsJd | astronomy.go:285-342 | the 26 mean terms are the equinox moved by each term's orbital offset relative to the equinox's own, and term 0 is the equinox |
| Astronomy.MeanSolarTerm | astronomy.go:285-342 | specification function: mean term i is the equinox plus the orbital offset of term i less that of term 0; MeanSolarTermsJd's loops compute it |
| Astronomy.TermMonth | astronomy.go:364 | the ΔT month of term i is floor((i + 1) / 2) + 3, in 3..16 |
| Astronomy.AdjustedSolarTerm | astronomy.go:360-368 | specification function: the mean term plus the perturbation at it, less ΔT in days of its TermMonth; AdjustedSolarTerms and AdjustedSolarTermsJd are stated with it |
| Astronomy.AdjustedSolarTerms | astronomy.go:347-371 | slots start..end hold the mean term with the perturbation added and ΔT taken off; every other slot is 0 |
| Astronomy.AdjustedSolarTermsJd | astronomy.go:347-371 | adjustedSolarTermsJd's loop fills exactly that table |
| Astronomy.LastYearSolarTerms | astronomy.go:374-376 | the previous year's table holds that year's adjusted terms in slots 18..23 (winter solstice on) and 0 elsewhere |
| LunarTables.NonZero | chinesecalendar.go:188-190 | the kept entries are the non-zero ones, no more of them than there were slots |
| LunarTables.NonZeroStep | chinesecalendar.go:188-192 | one more slot adds that slot's value exactly when it is not 0 |
| LunarTables.NonZeroKeepsAll | chinesecalendar.go:188-192 | with no empty slot every entry is kept, in order |
| LunarTables.PadZeros | chinesecalendar.go:171 | a Go array filled from the front holds the kept entries and then zeros |
| LunarTables.PadZerosPush | chinesecalendar.go:192-194 | writing the next entry at index ki fills the next slot of that array |
| LunarTables.JieCandidates | chinesecalendar.go:184-209 | the Jie are read from last year's slots 19, 21, 23 and then this year's odd slots 1..25 |
| LunarTables.QiCandidates | chinesecalendar.go:231-250 | the Zhongqi are read from last year's slots 18, 20, 22 and then this year's even slots 0..24 |
| LunarTables.PureJie | chinesecalendar.go:170-214 | pureJieSinceSpring's 16 slots |
| LunarTables.QiSinceSolstice | chinesecalendar.go:217-255 | qiSinceWinterSolstice's 16 slots |
| LunarTables.CollectTerms | chinesecalendar.go:184-209 | one collection loop appends the non-zero terms of its slots after the ones already kept, ki being one less than their count |
| LunarTables.CollectJie | chinesecalendar.go:181-209 | the two loops of pureJieSinceSpring give the non-zero candidates from the front, zero-padded to 16 |
| LunarTables.CollectQi | chinesecalendar.go:228-250 | the two loops of qiSinceWinterSolstice give the non-zero candidates from the front, zero-padded to 16 |
| LunarTables.PureJieSinceSpring | chinesecalendar.go:170-214 | pureJieSinceSpring's array is PureJie of the year |
| LunarTables.QiSinceWinterSolstice | chinesecalendar.go:217-255 | qiSinceWinterSolstice's array is QiSinceSolstice of the year |
| LunarTables.TermTablesInSourceOrder | chinesecalendar.go:179-250 | with no empty slot the tables list the candidates in source order: jss[1] is last year's slot 21 (Beginning of Spring) and qss[0] last year's slot 18 (winter solstice) |
| LunarTables.TrueNewMoons | chinesecalendar.go:627-644 | the 20 true new moons from the lunation of 1 November of the year before, each with ΔT of month i - 1 taken off |
| LunarTables.FirstLaterFrom | chinesecalendar.go:650-655 | the first j from `from` to 18 whose new moon falls on a later day than the solstice (19 when there is none): every j before it does not |
| LunarTables.WindowIndex | chinesecalendar.go:649-655 | the index jj the search leaves is in 0..18 |
| LunarTables.NewMoonWindow | chinesecalendar.go:657-659 | the copy succeeds exactly when the first later new moon is one of 1..5 (otherwise tnm[jj - 1 + k] is out of range, a Go panic), and then holds tnm[jj - 1 .. jj + 14] |
| LunarTables.WindowHoldsSolstice | chinesecalendar.go:649-659 | the window's lunation 0 is the one holding the solstice's day |
| LunarTables.NewMoonsSinceNovember | chinesecalendar.go:627-644 | the first loop of sMsinceWinterSolstice computes exactly the 20 true new moons |
| LunarTables.WindowOf | chinesecalendar.go:649-661 | the search and copy loops give NewMoonWindow, including its failure |
| LunarTables.SMsinceWinterSolstice | chinesecalendar.go:615-662 | sMsinceWinterSolstice is the window of the year's true new moons at the solstice |
| LunarMonths.FirstNoQi | chinesecalendar.go:580-590 | the first lunation from `from` on holding no Zhongqi (15 when none does): the lunations before it all hold one |
| LunarMonths.NoQi | chinesecalendar.go:584 | specification predicate: lunation i holds no Zhongqi when its new moon's China-time instant is after the day of Zhongqi i - 1 - yz and the next new moon's day is not after the day of Zhongqi i - yz; FirstNoQi and MonthCodesLeaps are stated with it |
| LunarMonths.LeapYearWindow | chinesecalendar.go:577 | specification predicate: the day of Zhongqi 12 is not before the day of new moon 13, so 13 lunations start between the solstices; LeapIndex and CommonYearCodes are stated with it |
| LunarMonths.LeapIndex | chinesecalendar.go:578-605 | the leap slot is searched from slot 1 when 13 lunations start between the solstices and only from slot 13 otherwise, and lies in 1..15 (15 for none) |
| LunarMonths.MonthCodes | chinesecalendar.go:576-605 | the 15 codes of a window are all non-negative |
| LunarMonths.MonthCodesShape | chinesecalendar.go:576-605 | the codes start at 0 (the eleventh month), rise strictly, lie in i - 1..i for slot i, equal their slot before the leap slot, and are each i, i - 1/2 or i - 1 |
| LunarMonths.MonthCodesLeaps | chinesecalendar.go:584-589 | a code ends in one half exactly for the leap slot and for later lunations without Zhongqi (counted with the shifted index); with no leap slot every code is its slot |
| LunarMonths.CommonYearCodes | chinesecalendar.go:591-595 | with 12 lunations between the solstices slots 0..12 get codes 0..12 |
| LunarMonths.CodesFrom | chinesecalendar.go:580-604 | the loop over slots lo..14 with the flag yz finishes the codes of MonthCodes |
| LunarMonths.FillCodes | chinesecalendar.go:576-605 | both branches of zqAndSMandLunarMonthCode compute MonthCodes of the window |
| LunarMonths.YearTable | chinesecalendar.go:561-610 | the year table exists exactly when the new-moon window can be copied, and then holds that window and its month codes |
| LunarMonths.ZqAndSMandLunarMonthCode | chinesecalendar.go:561-610 | zqAndSMandLunarMonthCode returns YearTable of the year |
| LunarMonths.McLeap | chinesecalendar.go:542-554 | mcLeap's loop returns the rounded code of the first slot 1..14 whose code has a fraction, 0 for none |
| LunarMonths.LeapSlot | chinesecalendar.go:542-554 | specification function: the first code in slots 1..14 that ends in one half, rounded up to its slot number, 0 for none; McLeap computes it and LeapSlotOfMonthCodes characterises it |
| LunarMonths.LeapFromNone | chinesecalendar.go:546-551 | scanning from any slot up to the leap slot finds the leap slot |
| LunarMonths.LeapSlotOfMonthCodes | chinesecalendar.go:542-554 | mcLeap of the month codes is the leap slot, and 0 exactly when no code ends in one half |
| LunarMonths.SecondLeapCodePossible | chinesecalendar.go:584-589 | a window can hold two codes ending in one half (slot 1 and slot 3 here), and mcLeap reports the first |
| Sexagenary.Pillar | chinesecalendar.go:154-162 | a cycle index gives a stem 0..9 and a branch 0..11 of equal parity, named from the stem and branch name tables |
| Sexagenary.PillarUnique | chinesecalendar.go:106-110 | two cycle indices with the same stem and branch are the same index (the 60 pillars are distinct) |
| Sexagenary.CycleUnique | chinesecalendar.go:106-110 | an index 0..59 is determined by its remainders mod 10 and mod 12 |
| Sexagenary.StemBranchParity | chinesecalendar.go:106-110 | the stem and the branch of one index have the same parity |
| Sexagenary.CycleParts | chinesecalendar.go:106-110 | reducing an index mod 60 keeps its stem and its branch |
| Sexagenary.Cycle60 | chinesecalendar.go:133 | `(x % 60 + 60) % 60` with Go's truncating `%` is the Euclidean remainder, in 0..59, for negative x too |
| Sexagenary.DayJd | chinesecalendar.go:130-132 | splitting the Julian Day into whole days plus seconds and adding 3600 seconds is jd + 1/2 + 1/24 |
| Sexagenary.DayPillarIndex | chinesecalendar.go:133 | the day pillar index lies in 0..59 |
| Sexagenary.HourPillarIndex | chinesecalendar.go:147-148 | the hour pillar index lies in 0..59 |
| Sexagenary.DayPillarNextDay | chinesecalendar.go:130-137 | one day later the day pillar is one step further round the cycle |
| Sexagenary.ClockFloors | chinesecalendar.go:130-148 | at minute m of hour h of day number dn the day floor is dn + 49 (dn + 50 from 23:00) and the hour floor 12 dn + 48 + (h + 1)/2 |
| Sexagenary.HourPillarRules | chinesecalendar.go:130-152 | the hour branch is the double hour (23:00-00:59 is Zi), the hour stem is twice the day stem plus the double hour, and from 23:00 the day pillar is already the next day's |
| Sexagenary.NightZiDayStepsBack | chinesecalendar.go:139-145 | the late-Zi adjustment moves the day pillar exactly one step back round the cycle |
| Sexagenary.NightZiDay | chinesecalendar.go:139-145 | specification function: the day pillar with stem and branch each stepped back one; NightZiDayStepsBack proves that is one step back round the cycle |
| Sexagenary.StepBack | chinesecalendar.go:142-143 | stepping stem and branch back separately is stepping the index back by one |
| Sexagenary.MonthPillarRules | chinesecalendar.go:123-128 | for years from 4712 BC the month index lies in 0..59, the month of the Beginning of Spring has branch Yin and the branch steps with the months, and its stem is twice the year stem plus 2 |
| Sexagenary.MonthPillarIndex | chinesecalendar.go:123-128 | specification function: ((year + 4712) 12 + ix - 1 + 60) mod 60 + 50, mod 60, with Go's `%`; MonthPillarRules is proved about it |
| Sexagenary.JieFrom | chinesecalendar.go:115-121 | the first Jie term from `from` on whose day is later than dn, all terms before it being on or before dn (16 when none is later) |
| Sexagenary.JieMonthIndex | chinesecalendar.go:112-121 | the solar month is the slot whose Jie day is on or before dn and whose successor's is after it; reading past the 16 terms is an index failure |
| Sexagenary.FindJieMonth | chinesecalendar.go:112-121 | the search loop returns the solar month index of JieMonthIndex, or the index failure when no term is later |
| Sexagenary.JieYear | chinesecalendar.go:95-103 | the Jie year is the civil year exactly when dn is on or after the day of the Beginning of Spring, otherwise the year before, with that year's terms |
| Sexagenary.PillarsOf | chinesecalendar.go:105-152 | the pillars succeed exactly when the solar month is found and its index is not negative; the year, month, day (stepped back from 23:00 under the late-Zi rule) and hour pillars are the cycle entries of their indices |
| Sexagenary.JieYearOfDay | chinesecalendar.go:95-103 | the method picks the Jie year and terms of JieYear |
| Sexagenary.Pillars | chinesecalendar.go:105-152 | the method computes the pillars of PillarsOf |
| Sexagenary.CycleOfJulianDay | chinesecalendar.go:92-152 | the method computes the pillars of the chosen Jie year at that Julian Day |
| Sexagenary.CycleOfJd | chinesecalendar.go:92-152 | specification function: PillarsOf over the Jie year JieYear chooses; CycleOfJulianDay computes it |
| Sexagenary.CycleOf | chinesecalendar.go:76-165 | specification function: CycleOfJd at the civil date's JulianDay with the zone offset in days; ChineseSexagenaryCycle computes it |
| Sexagenary.ChineseSexagenaryCycle | chinesecalendar.go:76-165 | the four pillars of a civil date and time in a zone offset, as CycleOf defines them |
| Sexagenary.PillarTestVectors | chinesecalendar_test.go:10-29 | 23:50 on 6 May 2021 has day pillar 乙卯 (1, 3), with the late-Zi rule 甲寅 (0, 2), year 辛丑 (7, 1) and solar month 4 pillar 癸巳 (9, 5) |
| Sexagenary.TestDateJulianDay | chinesecalendar_test.go:12 | the Julian Day of the test time 2021-05-06 23:50 |
| LunarConversion.DayChinese | chinesecalendar.go:782-800 | a day name is empty exactly outside 1..30 and two characters inside it |
| LunarConversion.DayNameRoundTrip | chinesecalendar.go:782-800 | every day 1..30 reads back from its name, so no two days share a name |
| LunarConversion.MonthOfCode | chinesecalendar.go:315 | the month number of a code lies in 1..12 |
| LunarConversion.MonthOfCodeNumbers | chinesecalendar.go:315 | codes 2..13 are months 1..12, codes 0 and 1 the eleventh and twelfth month, a leap code has the number of the month before it, and numbers repeat every 12 codes |
| LunarConversion.YearPillarIndex | chinesecalendar.go:324-328 | `((y + 4712 + 24) % 60 + 60) % 60` with Go's `%` is the Euclidean (y + 4736) mod 60, in 0..59 for every year |
| LunarConversion.YearPillarTestVectors | chinesecalendar.go:324-328 | 1984 and 2044 start the cycle, 2021 is 辛丑 (7, 1), and the formula stays in range for years before 4736 BC |
| LunarConversion.SlotFrom | chinesecalendar.go:296-301 | the first lunation from `from` on holding the day, every earlier one not holding it (15 for none) |
| LunarConversion.MonthSlot | chinesecalendar.go:295-301 | the slot the search leaves lies in 0..14 (0 when no lunation holds the day) |
| LunarConversion.SlotUnique | chinesecalendar.go:296-301 | with new-moon days in order, a lunation holding the day is the one the search finds |
| LunarConversion.MonotoneDays | chinesecalendar.go:297 | new-moon days in order pairwise stay in order for any two slots |
| LunarConversion.FindMonthSlot | chinesecalendar.go:295-301 | the search loop finds MonthSlot |
| LunarConversion.DateInSlot | chinesecalendar.go:303-364 | the lunar year counts back for codes below 2 or the previous table, month from the code, day counted from the new moon's China-time day, the leap mark exactly for a leap code, the year pillar, animal and names |
| LunarConversion.ChosenTable | chinesecalendar.go:284-292 | a chosen table has 16 new moons and 15 non-negative codes |
| LunarConversion.TableOfDay | chinesecalendar.go:284-292 | the method takes the year's table, or the year before's (and sets prev) when the day is before the table's first new moon |
| LunarConversion.DateOfTable | chinesecalendar.go:294-364 | the method reads off the date of DateInTable |
| LunarConversion.DateInTable | chinesecalendar.go:294-364 | specification function: the lunar date of day dn is DateInSlot of MonthSlot's lunation; DateOfTable computes it and TableRoundTrip is proved about it |
| LunarConversion.LunarOfDayNumber | chinesecalendar.go:280-364 | the method converts a day number as LunarOfDay |
| LunarConversion.LunarOfDay | chinesecalendar.go:280-364 | specification function: the chosen table's failure, or DateInTable over it; LunarOfDayNumber computes it |
| LunarConversion.GregorianToLunar | chinesecalendar.go:263-365 | the conversion of a civil date and time as LunarOf defines it |
| LunarConversion.LunarOf | chinesecalendar.go:263-365 | specification function: LunarOfDay of the civil date's day number; GregorianToLunar computes it |
| LunarConversion.LunarDayInMonth | chinesecalendar.go:296-318 | a day found in a lunation gets a day number from 1 up to that lunation's length |
| LunarConversion.MonthLengths | chinesecalendar.go:408-411 | each lunation's length carries its China-time new-moon day to the next |
| LunarConversion.MonthLengthsTelescope | chinesecalendar.go:408-411 | the first n lengths add up to the days from the first to the n-th new moon |
| LunarConversion.SumIntsPush | chinesecalendar.go:408-411 | a sum of a list extended by one element grows by that element |
| LunarConversion.MonthLengthsOf | chinesecalendar.go:519-521 | the mdList loop computes MonthLengths |
| LunarConversion.MdList | chinesecalendar.go:510-526 | mdList fails exactly when the year table does, and otherwise gives the lengths of the table's lunations |
| LunarConversion.TargetSlot | chinesecalendar.go:415-448 | a leap request fails with "not a leap year" when the leap slot is below 3 and with "not the leap month" for another month; otherwise the slot is the month, shifted by one once past the leap month |
| LunarConversion.SlotOfMonth | chinesecalendar.go:406-445 | a successful slot lies inside the 15 lunations |
| LunarConversion.JdOfTable | chinesecalendar.go:400-451 | the method gives JdOfLunarDate with the day placed at its China-time midnight; this is the corrected day rule of the findings, not line 451's floor(nm + d - 1) + 0.5, which is JdOfLunarDate with `corrected` false |
| LunarConversion.JdOfLunarDate | chinesecalendar.go:400-451 | specification function: the slot's failure, "out of range" for a day past the lunation's length, otherwise the day's Julian Day as written or (`corrected`) in China time; JdOfSlot and TableRoundTrip are proved about it |
| LunarConversion.DayJdAsWritten | chinesecalendar.go:451 | specification function: floor(nm + d - 1) + 0.5, line 451's day rule; DayJdAsWrittenDay and AsWrittenDayLate are proved about it |
| LunarConversion.DayJdCorrected | chinesecalendar.go:451 | specification function: the China-time midnight starting day d of the lunation, the corrected rule of the findings; TableRoundTrip is proved with it |
| LunarConversion.LunarToGregorian | chinesecalendar.go:379-452 | LunarToGregorian up to the Julian Day it turns into a time, the leap flag counting only for a positive month, with the corrected day rule |
| LunarConversion.LunarToJd | chinesecalendar.go:379-452 | specification function: the year table's failure, or JdOfLunarDate over it with the leap flag counted only for a positive month; LunarToGregorian computes it |
| LunarConversion.LunarMonthDays | chinesecalendar.go:460-505 | the method gives LunarMonthDaysOf |
| LunarConversion.MonthDaysOf | chinesecalendar.go:460-505 | specification function: the slot's failure, or the length of the month's lunation; MonthDaysBoundLunarToGregorian is stated with it |
| LunarConversion.LunarMonthDaysOf | chinesecalendar.go:460-505 | specification function: the year table's failure, or MonthDaysOf over it; LunarMonthDays computes it |
| LunarConversion.MonthDaysBoundLunarToGregorian | chinesecalendar.go:415-447 | a lunar date converts exactly when its day is at most LunarMonthDays of its month, and a longer day fails with "out of range"; where LunarMonthDays fails, the conversion fails with the same `CalendarError` value (the two functions' messages differ, see "Left out") |
| LunarConversion.LunarLeap | chinesecalendar.go:531-537 | the method gives LunarLeapOf |
| LunarConversion.LunarLeapOf | chinesecalendar.go:531-537 | specification function: the year table's failure, or the leap slot less 2 when that is positive, else 0; LunarLeap computes it and LunarLeapNamesLeapMonth characterises it |
| LunarConversion.LunarLeapNamesLeapMonth | chinesecalendar.go:531-554 | LunarLeap is 0 exactly when no month of the lunar year is a leap month; otherwise that lunation carries a leap code and LunarLeap is the number it shares with the month before |
| LunarConversion.SlotRoundTrip | chinesecalendar.go:415-445 | the month number and leap flag read from a lunation name that same lunation again |
| LunarConversion.TableRoundTrip | chinesecalendar.go:270-452 | a regular day converted to a lunar date and back gives the same day with the China-time day rule; as written it does so exactly when the new moon's Julian Day fraction is at least 1/6 |
| LunarConversion.JdOfSlot | chinesecalendar.go:423-451 | a date naming lunation i with a day within its length converts to the Julian Day of that day, under either day rule |
| LunarConversion.DayJdAsWrittenDay | chinesecalendar.go:424-451 | as written the civil day is the new moon's integer part plus d, which is the China-time day plus d - 1 exactly when the fraction is at least 1/6 |
| LunarConversion.AsWrittenDayLate | chinesecalendar.go:424-451 | a new moon at Julian Day 2459000.1: the first of its month lands one day late as written, and on the right day with the China-time rule |
| CalendarGrid.AbsMod | calendar.go:155-156 | `int(math.Mod(math.Abs(x), n))` lies in 0..n-1 and differs from x (or from -x for negative x) by a multiple of n |
| CalendarGrid.NormalizeConfig | calendar.go:153-156 | NewCalendar reduces the grid kind to 0..2 and the first weekday to 0..6 and leaves every other setting as given |
| CalendarGrid.NormalizeKeepsValid | calendar.go:153-156 | a reduced configuration is kept as it is, so the reduction is idempotent |
| CalendarGrid.NormalizeExamples | config_test.go:23 | grid -2 and first weekday 789 become 2 and 5 |
| CalendarGrid.Weekday | calendar.go:389 | the weekday of a day number lies in 0..6 |
| CalendarGrid.WeekdayOfJ2000 | calendar.go:389 | 1 January 2000 (day number 2451545) is a Saturday |
| CalendarGrid.WeekdayNext | calendar.go:389 | the next day has the next weekday, wrapping from Saturday to Sunday |
| CalendarGrid.FirstDayOffset | calendar.go:381-396 | differenceDays lies in 0..6 and steps from the first weekday to the given day's weekday |
| CalendarGrid.FirstDayOffsetUnique | calendar.go:381-396 | no other offset in 0..6 reaches that weekday |
| CalendarGrid.IsAccidental | calendar.go:416-432 | -1 exactly for an earlier month, 1 exactly for a later month, 0 exactly for the month shown |
| CalendarGrid.IsAccidentalIsMonthOrder | calendar.go:416-432 | for months 1..12 isAccidental is the sign of the difference of the months counted from year 0 |
| CalendarGrid.NthWeekday | calendar.go:568-582 | the festival day exists exactly when the computed day fits in the month; it lies in the num-th week and falls on the requested weekday |
| CalendarGrid.NthWeekdayCounts | calendar.go:568-582 | the day found is the num-th day of that weekday in the month |
| CalendarGrid.SameRemainder | calendar.go:572-578 | numbers with equal remainders differ by a multiple of the modulus |
| CalendarGrid.CardOfProgression | calendar.go:578 | n days a week apart are n distinct days |
| CalendarGrid.StarSign | calendar.go:714-729 | StarSign fails exactly outside month 1..12 and day 1..31, and otherwise names a sign 0..11 from the sign names |
| CalendarGrid.StarSignIsZodiac | calendar.go:714-729 | StarSign picks the same sign index and name as Zodiac in utils.go |
| CalendarGrid.TermItems | calendar.go:661-706 | the items appended from a table are never more than its remaining slots |
| CalendarGrid.TermItemsSkip | calendar.go:665-667 | slots below the lower bound contribute nothing |
| CalendarGrid.TermItemsFull | calendar.go:661-706 | with no zero slot in from..hi, item k is slot from + k with name index (ji + 1 + k + 18) mod 24 |
| CalendarGrid.TermItemsPastEnd | calendar.go:668-670 | slots past the upper bound contribute nothing |
| CalendarGrid.SolarTermListInOrder | calendar.go:651-711 | with no zero instants, SolarTerms lists 26 items (last year's slots 18..23, then this year's 0..19) in order, each named after the slot it came from |
| CalendarGrid.AppendTermItems | calendar.go:661-683 | one loop appends exactly TermItems to the list and advances the counter by their number |
| CalendarGrid.TermsAfter | calendar.go:657-706 | the two loops append SolarTermList of last year's and this year's tables |
| CalendarGrid.Calendar.constructor | calendar.go:153-184 | NewCalendar keeps the reduced configuration with the resolved zone name, no cells, the current time and empty caches |
| CalendarGrid.Calendar.SetRawTimeTo | calendar.go:211-226 | setRawTime stores the time and clears the cells, and clears the caches exactly when the year changes |
| CalendarGrid.Calendar.SetRawTime | calendar.go:190-208 | the time parts hour, minute, second and a fourth part default to 0 when absent; the fourth, named millisecond in the source, becomes the raw time's nanosecond field unscaled, as time.Date receives it; then as setRawTime |
| CalendarGrid.Calendar.FirstDay | calendar.go:381-401 | the grid's first day lies 0..6 days before the given day and falls on the configured first weekday |
| CalendarGrid.Calendar.SolarTerms | calendar.go:651-711 | a cached list of 26 items is returned as it is; otherwise the items are appended to what the cache held and the result is cached for the year |
| LegacyCtime.IsLeapYear | ctime.go:67-69 | the legacy leap rule is the plain Gregorian rule of utils.go, so years divisible by 3200 are leap years |
| LegacyCtime.MonthDay | ctime.go:85-109 | a month has 28..31 days, and 29 exactly for February of a leap year |
| LegacyCtime.MonthDayAgreesWithGregorian | ctime.go:85-109 | the legacy month lengths differ from GregorianMonthDays only in February of years divisible by 3200 but not by 172800 |
| LegacyCtime.MonthDayLeft | ctime.go:112-114 | the days left plus the day of the month are the month's length, and lie in 0..length-1 for a valid day |
| LegacyCtime.B2i | ctime.go:195-200 | B2i is 1 for true and 0 for false |
| LegacyCtime.I2b | ctime.go:201-206 | I2b is false exactly for 0 |
| LegacyCtime.BoolIntAgree | ctime.go:195-206 | the legacy conversions equal those of utils.go, and I2b undoes B2i |
| LegacyCtime.Date.constructor | date.go:14-26 | a Date holds the given civil fields, no location and no pillars |
| LegacyCtime.DateNewCtime | ctime.go:14-30 | a zero year becomes 1970, a zero month or day 1 and a missing location the local zone, the other fields stay, and those fields are what time.Date receives |
| LegacyDate.PureJQ | date.go:544-577 | the Jie of a year from the Start of Spring are 16 values |
| LegacyDate.ZQ | date.go:580-601 | the Zhongqi from the winter solstice are 15 values |
| LegacyDate.NewMoons | date.go:939-951 | sMsinceWinterSolstice computes 20 true new moons |
| LegacyDate.ClampYear | date.go:194-198 | a clamped year lies in 1000..3000 and a year already there is kept |
| LegacyDate.ClampYearLaws | date.go:194-198 | clamping is idempotent and monotone, and sends years below or above the range to its ends |
| LegacyDate.DefaultYear | date.go:125-131 | year 0 becomes the current year, any other year is clamped |
| LegacyDate.DefaultField | date.go:175-181 | a zero month or day becomes the current one, and 1 when that is zero too; any other value is kept |
| LegacyDate.NewDateYear | date.go:165-198 | the year NewDate returns lies in 1000..3000, is the clamped year for a nonzero year and the current year for 0 |
| LegacyDate.CtimeNewDate | date.go:190-213 | a new Date with the time value's fields, the year clamped, zero nanoseconds, its weekday and location and zero pillars |
| LegacyDate.NewDate | date.go:165-188 | the caller's Date gets its defaults written back, and the new Date has its fields through DateNewCtime and CtimeNewDate |
| LegacyDate.MarchYear | date.go:791 | the year term counts years from March, as julian.go's shifted year |
| LegacyDate.MonthTerm | date.go:810-811 | `mp * 30 + floor((mp + 1) * 34 / 57)` is the days before month mp of a year from March |
| LegacyDate.JulianYearDays | date.go:802 | floor(365.25 yp) is 365 yp plus the leap days floor(yp / 4) |
| LegacyDate.FloorDivShift | date.go:798 | floor division commutes with adding whole multiples of the divisor |
| LegacyDate.SolarToJulian | date.go:782-816 | specification function: Solar2Julian's year-from-March formula, Gregorian from 1582-10-15, Julian up to 1582-10-04, 0 in between; SolarToJulianIsJulianDay, SolarToJulianGap and SolarOfJdRoundTrip are proved about it |
| LegacyDate.Solar2Julian | date.go:782-816 | specification function: SolarToJulian of a Date's fields |
| LegacyDate.SolarToJulianIsJulianDay | date.go:782-816 | outside the reform gap Solar2Julian equals julian.go's JulianDay of the same date and clock |
| LegacyDate.SolarToJulianGap | date.go:805-808 | the ten days 1582-10-05..14 give 0 |
| LegacyDate.ClockOfJd | date.go:850-855 | the clock of a Julian Day is its fraction after midnight in whole seconds split into hours 0..24, minutes and seconds |
| LegacyDate.MarchDate | date.go:822-848 | specification function: Julian2Solar's date arithmetic from the whole days after the calendar's epoch; MarchDateOfDayCount proves it undoes the day count |
| LegacyDate.SolarOfJd | date.go:819-858 | specification function: Julian2Solar's fields; Julian2Solar computes them, and SolarOfJdRanges, the test vectors and SolarOfJdRoundTrip are proved about them |
| LegacyDate.SolarOfJdRanges | date.go:819-858 | Julian2Solar's month lies in 1..12 and its day in 1..31 |
| LegacyDate.SolarOfJdGregorianVector | date.go:819-858 | Julian Day 2459554.5 is 2021-12-06 00:00:00 |
| LegacyDate.SolarOfJdJulianVector | date.go:819-858 | Julian Day 2298519.0 is 1581-01-01 12:00:00 in the Julian calendar |
| LegacyDate.SolarToJulianTestVectors | date.go:782-816 | Solar2Julian gives those two dates their Julian Days back |
| LegacyDate.SolarMonthDays | ctime.go:85-109 | a month of Solar2Julian's calendars has 28..31 days, and outside February as many as the month table gives |
| LegacyDate.SolarToJulianCount | date.go:782-816 | outside the reform gap Solar2Julian is the day count of the date after its calendar's epoch plus the clock, and it is at least JD 2299160.5 exactly for a Gregorian date |
| LegacyDate.MarchDateOfDayCount | date.go:822-848 | the date arithmetic of Julian2Solar applied to the day count of a valid date gives that date back, in both calendars |
| LegacyDate.SolarOfJdRoundTrip | date.go:782-858 | Julian2Solar undoes Solar2Julian: every valid date outside the reform gap with a clock of whole seconds comes back with the same year, month, day, hour, minute and second |
| LegacyDate.Julian2Solar | date.go:819-868 | the Date of a Julian Day has Julian2Solar's fields passed through NewDate's defaults and clamp |
| LegacyDate.PrevYearOf | date.go:237-239 | PrevYear's year lies in 1000..3000 and is one less for years 1001..3001 |
| LegacyDate.JieAtOrAfter | date.go:745-751 | the first Jie from `from` on at or after jd, all earlier ones before jd (16 for none) |
| LegacyDate.JieIndex | date.go:743-751 | the Jie month index lies in -1..14, is -1 exactly when jd is not after the first Jie, and otherwise jd lies after Jie ix and not after Jie ix + 1, or after all of them |
| LegacyDate.PillarsAtAgree | date.go:739-773 | the year and hour pillars are chinesecalendar.go's, the month branch steps with the Jie months and the month stem follows the year stem, and outside the night-zi hour the day pillar is chinesecalendar.go's |
| LegacyDate.PillarsAt | date.go:739-773 | specification function: the year pillar, the month pillar of JieIndex, the day and hour pillars of jd, and from 23:00 with Zwz the night-zi day pillar as written ((9, 11)) or corrected; PillarsAtAgree, NightZiAsWritten and NightZiCorrected are proved about it |
| LegacyDate.NightZiAsWritten | date.go:765-768 | with Zwz from 23:00 the day pillar is always (9, 11); on 2021-05-06 23:50 that is not the intended (0, 2) |
| LegacyDate.NightZiCorrected | date.go:764-768 | corrected, the night-zi day pillar is the day before's, as chinesecalendar.go's late-Zi rule gives |
| LegacyDate.FindJieIndex | date.go:743-751 | the search loop gives JieIndex |
| LegacyDate.GanZhi | date.go:721-777 | the Date's pillars become GanZhiOf its date and clock, with the corrected night-zi day pillar |
| LegacyDate.GanZhiOf | date.go:721-777 | specification function: no pillars in the reform gap, otherwise PillarsAt in the Jie year (the year before when jd precedes the Start of Spring); GanZhi computes it with the corrected night-zi rule |
| LegacyDate.Unshift | date.go:946 | values in China time taken back by one third of a day, entry by entry |
| LegacyDate.UnshiftDay | date.go:956 | the day of a China-time value is the China-time day of its universal time |
| LegacyDate.ZhongqiWindow | date.go:875 | the 15 Zhongqi padded to the 16-entry window chinesecalendar.go reads |
| LegacyDate.LegacyWindowIsNewMoonWindow | date.go:953-966 | the legacy window equals chinesecalendar.go's window for every list of new moons, and fails when no new moon is on a later day than the solstice |
| LegacyDate.LegacyWindow | date.go:953-966 | specification function: the 16 new moons from kj - 1, where kj is the first new moon on a later day than the solstice (18 for none), or the index failure; LegacyWindowIsNewMoonWindow equates it with chinesecalendar.go's window |
| LegacyDate.FindWindowStart | date.go:953-959 | the search ends on the first new moon on a later day than the solstice, or on 18 |
| LegacyDate.CopyWindow | date.go:964-966 | the copy is the 16 new moons from tjd[kj - 1], and an index failure unless they all exist |
| LegacyDate.SMsinceWinterSolstice | date.go:919-969 | sMsinceWinterSolstice gives LegacyWindow of the year's new moons |
| LegacyDate.LegacyNoQiIsNoQi | date.go:889-905 | the legacy test for a lunation without Zhongqi is chinesecalendar.go's on universal time |
| LegacyDate.LegacyNoQi | date.go:888 | specification predicate: the legacy no-Zhongqi test on China-time values; LegacyNoQiIsNoQi equates it with NoQi |
| LegacyDate.LegacyLeapYearWindow | date.go:883 | the legacy test for 13 lunations between the solstices is chinesecalendar.go's |
| LegacyDate.LegacyCodesFrom | date.go:885-911 | the legacy code loops produce chinesecalendar.go's month codes of the same window in universal time |
| LegacyDate.LegacyFillCodes | date.go:881-913 | both branches of the legacy code computation give chinesecalendar.go's month codes |
| LegacyDate.LegacyTable | date.go:871-916 | the year table exists exactly when the new-moon window does, and holds the Zhongqi, the window and chinesecalendar.go's month codes |
| LegacyDate.ZQandSMandLunarMonthCode | date.go:871-916 | the method gives LegacyTable |
| LegacyDate.LunarDate.constructor | date.go:28-44 | a LunarDate literal with the given fields and the others zero |
| LegacyDate.Nofd | date.go:1007-1010 | nofd has 15 entries |
| LegacyDate.NofdIsMonthLengths | date.go:1007-1010 | nofd is chinesecalendar.go's month lengths of the window in universal time |
| LegacyDate.NofdOf | date.go:1075-1078 | the loop computes Nofd |
| LegacyDate.LegacyMonthIndexIsTargetSlot | date.go:1014-1029 | the legacy lunation choice is chinesecalendar.go's TargetSlot, missing exactly where that reports a non-leap year or month |
| LegacyDate.LegacyMonthIndex | date.go:1014-1029 | specification function: the lunation of the month given as mm = month + 2, None for a leap request in a year or month without one; LegacyMonthIndexIsTargetSlot equates it with TargetSlot |
| LegacyDate.LegacyMonthDaysAgree | date.go:991-1033 | LunarDays equals chinesecalendar.go's month length of the same window, except 0 where that reports a non-leap year or month |
| LegacyDate.LunarDays | date.go:991-1033 | the method gives LegacyMonthDaysOf of the LunarDate's year, month and leap flag |
| LegacyDate.LunarDaysInTable | date.go:995-1033 | over a fetched year table the method gives LegacyMonthDays: 0 for a missing leap month, an index failure out of the window, otherwise nofd of the month's slot |
| LegacyDate.LegacyMonthDays | date.go:995-1033 | specification function: 0 for LegacyMonthIndex's None, the index failure outside 15 slots, otherwise nofd of the lunation; LunarDaysInTable computes it and LegacyMonthDaysAgree compares it with MonthDaysOf |
| LegacyDate.LegacyMonthDaysOf | date.go:991-1033 | specification function: the legacy table's failure or LegacyMonthDays over it; LunarDays computes it |
| LegacyDate.LegacyLeapOf | date.go:972-988 | leap() succeeds exactly when the year table does and lies in 0..12 |
| LegacyDate.LegacyLeapOfMeaning | date.go:976-987 | a positive leap() is a month whose code carries the leap half with none before it, and 0 exactly when the leap slot is at most 2 |
| LegacyDate.Leap | date.go:972-988 | the method returns LegacyLeapOf and stores it in LeapYear |
| LegacyDate.LegacyLunarJdCorrected | date.go:1082-1110 | with the day compared, a Julian Day exists exactly for a month the year has and a day within its length, lies that many days into the lunation, and its day is in the lunation |
| LegacyDate.LegacyLeapDayOverflow | date.go:1089 | as written, day 30 of a 29-day leap month is accepted and lands in the next lunation, where the corrected rule gives the empty Date |
| LegacyDate.LunarJdInTable | date.go:1061-1110 | the method computes LegacyLunarJd with the leap branch comparing the day |
| LegacyDate.LegacyLunarJd | date.go:1061-1110 | specification function: None where Lunar2Solar returns an empty Date, the index failure, or the new moon plus day - 1; the leap branch checks the month as written or the day when `corrected`; LegacyLunarJdCorrected and LegacyLeapDayOverflow are proved about it |
| LegacyDate.LegacyLunarJdOf | date.go:1059-1110 | specification function: the legacy table's failure or LegacyLunarJd over it; Lunar2Solar computes it with `corrected` |
| LegacyDate.IsEmptyDate | date.go:1084-1107 | specification predicate: the fields of `new(Date)`, all zero with no location and no pillars; Lunar2Solar's contract uses it for the empty results |
| LegacyDate.Lunar2Solar | date.go:1059-1122 | the Date of a lunar date: failure with the table, an empty Date where the month or day is missing, otherwise Julian2Solar's year, month and day with Nsec 0, the lunar date's clock and location, and recomputed pillars (both with the corrections of the findings) |
| LegacyDate.SolarWithClock | date.go:1112-1121 | the fresh Date of the found Julian Day, with Nsec 0, the lunar date's clock and location, and the pillars of the result under GanZhi's corrected night-zi rule (as written that pillar is always (9, 11), see the findings) |
| LegacyDate.YearGanZiIndex | date.go:1037-1050 | the common-era year indices lie in 0..9 and 0..11 with equal parity |
| LegacyDate.StemOfYear | date.go:1037-1043 | for year 3 + x with x >= 0, the stem x mod 10 moved back one (0 wrapping to 9) is (x + 4739) mod 10, so YearGanZiIndex takes the year pillar's stem |
| LegacyDate.BranchOfYear | date.go:1038-1049 | for year 3 + x with x >= 0, the branch x mod 12 moved back one (0 wrapping to 11) is (x + 4739) mod 12, the year pillar's branch |
| LegacyDate.YearGanZiIndexAgrees | date.go:1036-1056 | from year 3 on they are chinesecalendar.go's year pillar stem and branch; they fail only before |
| LegacyDate.YearNames | date.go:1051-1055 | the stem, branch and animal names of those indices |
| LegacyDate.LunarYearGanZiCommon | date.go:1036-1056 | the method sets the year's names from YearGanZiIndex |
| LegacyDate.DefaultLunarFields | date.go:125-139 | year 0 becomes the current year and others are clamped, a month outside 1..12 the current month, a day below 1 the current day |
| LegacyDate.CopyLunarDate | date.go:149-162 | the copy has every field but MonthDays, which is 0 |
| LegacyDate.NewLunarDate | date.go:123-163 | NewLunarDate's defaults, a day past 29 replaced by the month's length, the local zone for a missing location, and a copy without MonthDays |
| LegacyDate.LegacyChosenTable | date.go:1134-1139 | a chosen table has the window shape, and the previous year's is taken only when the day is before the year's first new-moon day |
| LegacyDate.LegacyFindMonthSlot | date.go:1141-1147 | the search finds chinesecalendar.go's MonthSlot on the window in universal time |
| LegacyDate.LegacyLunarFieldsAgree | date.go:1141-1177 | Solar2Lunar's year, month, day and leap mark are chinesecalendar.go's gregorianToLunar on the same window |
| LegacyDate.ChooseLegacyTable | date.go:1134-1139 | the method gives LegacyChosenTable |
| LegacyDate.SetLunarMonth | date.go:1163-1173 | the leap month and the month of the lunation's code are stored, and the leap flag is set only in a leap year for a leap code |
| LegacyDate.SetLunarDay | date.go:1175-1177 | the month length and the day counted from the lunation's first day are stored |
| LegacyDate.FillLunarFields | date.go:1163-1179 | the leap month, month, month length, day and year names of Solar2Lunar once the year is known |
| LegacyDate.StartLunarDate | date.go:1149-1162 | the fresh LunarDate NewLunarDate makes of the Date's fields: the defaulted year, or the year before for a day of the previous lunar year, no leap mark, the Date's clock, Nsec and Week 0, and the Date's location or the local zone when it has none |
| LegacyDate.LunarFromTable | date.go:1141-1180 | the LunarDate of a day once the table is chosen, field by field: year, month, day, leap year and mark, month length, year names, clock, Nsec and Week 0, and the location of NewLunarDate |
| LegacyDate.Solar2Lunar | date.go:1125-1181 | a table failure fails; otherwise the fresh LunarDate has its year, month, day, leap flag, month length and names from the lunation holding the day, the Date's clock, Nsec and Week 0, and the Date's location or the local zone when it has none |
| LegacyDate.MonthChinese | date.go:1184-1189 | empty exactly outside 1..12; the name of calendar.go's lunarMonthNameArray (calendar.go:115) for every month but the eleventh, which is 冬 |
| LegacyDate.DayChinese | date.go:1192-1207 | succeeds exactly for 0..39, where the tables can be indexed |
| LegacyDate.DayChineseAsWritten | date.go:1192-1207 | days 1..30 get chinesecalendar.go's names except 20 and 30, written 廿十 and 卅十, which do not read back |
| LegacyDate.GetZodiac | date.go:621-630 | succeeds exactly for months 1..12 and gives the sign the month and day lie in |
| LegacyDate.SolarDays | date.go:606-618 | succeeds exactly for months 1..12 with the month's 28..31 days by the plain leap rule |

## Left out

- perturbation, trueNewMoon and the eccentric-anomaly loop of meanSolarTermsJd (astronomy.go:120-151, 175-254, 306-333), and their copies in date.go: floating-point trigonometry. They are inputs (`Astronomy.Ephemeris`), so no value that depends on them is computed.
- date.go's meanNewMoon, deltaT, adjustedJQ, pureJQsinceSpring, zQsinceWinterSolstice and the new-moon loop of sMsinceWinterSolstice: the legacy astronomy. Its results are the inputs of `LegacyDate.LegacyEphemeris`, already in China time and corrected by ΔT.
- meanNewMoon of astronomy.go: only its use through the new-moon index and estimate is modelled.
- Round and round: decimal rounding through powers of ten. It is the identity here.
- The `*Temp` caches with their read-write locks: only the uncached computations are modelled. SolarTerms' solar-term cache is a `map` field of `CalendarGrid.Calendar`, because the method's result depends on it.
- The goroutine fan-out of weekCalendar, monthCalendar and createItem: concurrency. Only the isAccidental block of createItem is modelled.
- The festival lookups lunarFestival and gregorianFestival: regexp, strconv and strings parsing. Only the nth-weekday arithmetic is modelled.
- time.Time plumbing: JdToTime, TimeMapToTime, GetRawTime, time.Date normalisation, AddDate, BeginningOfMonth and EndOfMonth, and the Ctime wrappers. Julian Days and civil-date records stand in for time values, so a day out of range is not normalised into the next month.
- date.go's Copy, NextYear, Jieqi, firstdayWeekday, lastdayWeekday, year and XingZuo: copies and time.Time calls. PrevYear's year arithmetic is `LegacyDate.PrevYearOf`.
- String methods, fmt output and the JSON tags: rendering.
- config.go and clone.go: defaults and field copies.
- The result of LunarMonthDays(2018, 12, false), which the package's test checks against 30: it depends on real ephemeris values, which are inputs here.
- Utils.Pow: for nonzero x it requires `n >= 0`. calPow never returns for a negative exponent (-1 >> 1 is -1), so the source's `1 / result` branch is never reached.
- LegacyDate.Solar2Lunar: among its failures only the table failures are characterised. The failures of NewLunarDate's month length, leap() and the year names are only returned.
- LegacyDate.NewLunarDate: the current time is the `now` parameter, and the clock fields pass through unchanged.
- LunarConversion.LunarToGregorian, LunarConversion.JdOfTable, LegacyDate.GanZhi, LegacyDate.SolarWithClock, LegacyDate.LunarJdInTable and LegacyDate.Lunar2Solar: these methods use the corrected rules of the findings below. The code as written is the specification function with `corrected` false, with a lemma that shows the difference.
- LunarConversion.JdOfTable: places the day at its China-time midnight (DayJdCorrected), not at line 451's floor(nm + d - 1) + 0.5; the line as written is JdOfLunarDate with `corrected` false.
- DateTime.GregorianMonthDays: requires a month in 1..12. The exported Go function indexes its table with month - 1 and panics for any other month (datetime.go:13); the package's own callers pass only months in 1..12 (calendar.go:580, 607), but a caller outside the package can reach the panic, which the model does not give as `Failure(IndexOutOfRange)`.
- LegacyDate.Lunar2Solar: the leap branch compares the day with the month's length where date.go:1089 compares the month, and the pillars use the corrected night-zi rule; the code as written is LegacyLunarJd and PillarsAt with `corrected` false.
- LegacyDate.SolarWithClock: fills the pillars with GanZhi's corrected night-zi rule; as written that pillar is always (9, 11), which is PillarsAt with `corrected` false.
- LunarConversion.MonthDaysBoundLunarToGregorian: its "same error" holds because `CalendarError` has one value for each kind of leap failure. The source's messages differ: lunarToGregorian says 此年非闰年 and 该月非闰月 (chinesecalendar.go:418, 421), LunarMonthDays says 该年非闰年 and 该月非该年的闰月 (chinesecalendar.go:481, 485).
- Julian.CalendarOfJdRoundTrip: the round trip is proved for whole seconds without a millisecond part. A millisecond or a fractional second passes through the 0.000000005 h nudge and float rounding in JdToTimeMap, and the model's exact reals do not capture that. Dates inside the reform gap 1582-10-05..14 are excluded because JulianDay maps them all to one constant (ReformGapCollapses).
- Julian.JulianDay, Julian.Mjd, Astronomy.DeltaTSeconds, Astronomy.DeltaTDays, Astronomy.DeltaTMinutes and Astronomy.VernalEquinox: the year, month and day are integers, where the Go functions take float64 (julian.go:41, 230, astronomy.go:19, 31, 44, 154). Every caller inside the package passes whole numbers. The exported JulianDay also accepts a fractional day such as 6.5, and its reform-gap tests compare such days; the model covers whole days only.

## Findings

| source | as written | input that shows it | evidently intended | confidence | as-written member | corrected member |
|---|---|---|---|---|---|---|
| chinesecalendar.go:424-451 | the Julian Day is `floor(nm[k] + day - 1) + 0.5`, midnight after the integer part of the new moon in universal time | a new moon at Julian Day 2459000.1, 22:24 China time: the first day of its month is placed on the day after the new moon's day | the China-time day `floor(nm + 0.5 + 8/24)`, which gregorianToLunar uses, so the round trip returns the same day | not executed | LunarConversion.AsWrittenDayLate | LunarConversion.TableRoundTrip |
| date.go:765-768 | the night-zi day pillar is stepped back from `tg[2]` and `dz[2]`, which are never written, so it is always (9, 11) | 2021-05-06 23:50 with Zwz: the day is 乙卯 (1, 3), and GanZhi gives 癸亥 (9, 11) | step the day's own pillar back, giving 甲寅 (0, 2), as chinesecalendar.go:140-145 does | not executed | LegacyDate.NightZiAsWritten | LegacyDate.NightZiCorrected |
| date.go:1089 | the leap branch compares `ld.Month` with the month's length | day 30 of a 29-day leap month (month at most 29): it is accepted and lands on the first day of the next lunation | compare `ld.Day`, as the other branches at date.go:1098 and 1104 do | not executed | LegacyDate.LegacyLeapDayOverflow | LegacyDate.LegacyLunarJdCorrected |
| date.go:1198-1200 | days 20 and 30 are written 廿十 and 卅十 | DayChinese(20) and DayChinese(30) | 二十 and 三十, as chinesecalendar.go:790-793 writes them, so every day's name reads back | not executed | LegacyDate.DayChineseAsWritten | LunarConversion.DayNameRoundTrip |
