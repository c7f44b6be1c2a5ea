# Solar-term calendar core, modelled in Dafny

The PHP class `SolarTerm` (src/SolarTerm.php) finds the instants of the 24
East-Asian solar terms of a year. It runs a Newton iteration on the Sun's
apparent longitude, which comes from VSOP87 and nutation series. Around that
numerical part sits an exact-arithmetic layer, and that layer is what this
project models:

- **Calendar** (`calendar.dfy`, module `Calendar`):
  - the Julian/Gregorian cutover test;
  - the date → Julian day conversion (Meeus style);
  - the Julian day → date-and-time conversion, written step by step as in the source.
- **Angles** (`angles.dfy`, module `Angles`):
  - the two-loop normalisation of an angle into [0, 360];
  - the choice of the Newton start point for a term angle;
  - the 0°/360° wrap guard of the Newton loop.
- **ΔT** (`delta_t.dfy`, module `DeltaT`):
  - the TD − UT model (a table of cubics before 2005, then linear and quadratic extrapolation);
  - the `COUNT_OF` helper and the shapes of every coefficient table;
  - the conversion of a Terrestrial-Time Julian day to UTC.
- **Solar terms** (`solar_terms.dfy`, module `SolarTerms`):
  - the term names;
  - the 25-entry catalogue built by `getSolarTerms`, indexed by position or by date;
  - the previous / same-day / next scan of `getRecentlySolarTerm`.
- **Shared helpers** (`numeric.dfy`, modules `Numeric` and `Wrappers`):
  - PHP's `(int)` (truncation toward zero), `ceil` and `round` (half away from zero) on exact reals;
  - an `Option` type.

PHP floats are modelled as exact `real`s. PHP's `/` on integers gives a
float when the division is inexact, so `$year / 400` is a real quotient.

Facts about the code that the model keeps as they are:

- **No round trip.** Meeus's date ↔ Julian-day algorithm, which these
  functions follow, floors the Gregorian correction B and so round-trips.
  This code computes `B = year/400 - year/100` as a real quotient, so it
  does not: `NoRoundTripFor2019March20Noon` shows 2019-03-20 12:00 coming
  back as 08:34:48, and `GregorianCenturyRuleLost` shows that century years
  keep a 29 February.
- **Cutover day.** Meeus starts the Gregorian adjustment at day number
  2299161; this code starts it only above 2299161, so midnight of
  15 October 1582 converts to 5 October 1582 (`CutoverMidnightIsOctober5`).
- **Second 60.** The clock is a truncated hour, a truncated minute and a
  rounded second with no carry into the minute, so the seconds field can
  read 60 (`SecondReachesSixty`).
- **ΔT scan bound.** The table scan of `TdUtcDeltatT` is bounded by
  `sizeof(DELTA_TB1) / sizeof(DELTA_TB1[0])`, 20 rows / 5 columns = 4. From year 500 to 2004
  it always uses the 500–900 cubic, so at J2000 `JDTDtoUTC` subtracts
  8901.3046875 s instead of the table's 63.87 s (`UtcOffsetAtJ2000`). The
  source-named members `TdUtcDeltatT`, `TdUtcDeltatT2` and `JDTDtoUTC` keep
  that bound; the `…RowBound` members are the same pipeline with the scan
  bounded by the row count (see "## Findings").
- **25 entries.** As the comment at src/SolarTerm.php:30 says, the yearly
  list has 25 entries, from the previous year's winter solstice to this
  year's (`GetSolarTerms`, `CatalogueEnds`). When no later term exists,
  `getRecentlySolarTerm` takes entry 1 of the next year's list. For query
  years 1900..2099 that is Slight Cold of the following year, the first
  term of that calendar year (`SecondSlotIsSlightCold`, `FallbackYear`).
  For a query in 2100 the next year, 2101, fails the 1900..2100 clamp, and
  the fallback is Slight Cold of the current year (`FallbackYear`).

## Model

| member | source | states |
|---|---|---|
| Numeric.Trunc | src/SolarTerm.php:980 | PHP `(int)` of a float: the integer part toward zero, within one of the argument and not past it |
| Numeric.Ceil | src/SolarTerm.php:1073 | `ceil`: the least integer not below the argument |
| Numeric.Round | src/SolarTerm.php:1006 | `round`: within one half of the argument, with halves rounded away from zero |
| Calendar.IsGregorianDays | src/SolarTerm.php:1043-1053 | true exactly when the date is not before 15 October 1582, in lexicographic (year, month, day) order |
| Calendar.ShiftedYear | src/SolarTerm.php:1057-1060 | January and February count in the previous year; `JanuaryFebruaryAreMonths13And14` states the effect on the day number |
| Calendar.ShiftedMonth | src/SolarTerm.php:1057-1060 | months 1..12 become 3..14, with January and February as 13 and 14 |
| Calendar.GregorianCorrection | src/SolarTerm.php:1061-1064 | B: −2 before the cutover, the real quotient y/400 − y/100 after it; `JulianBeforeCutover`, `GregorianCorrectionNotFloored` and `WholeCorrection` state its values |
| Calendar.YearMonthDays | src/SolarTerm.php:1066-1068 | the truncated 365.25·y plus the truncated 30.6001·(m + 1); `JulianYearDays` states the year term and `FebruaryEndDays` the step across the end of February |
| Calendar.CalculateJulianDay | src/SolarTerm.php:1055-1069 | on a Julian-calendar date, or a Gregorian one whose shifted year is a multiple of 400, midnight has a day number ending in .5 |
| Calendar.WholeCorrection | src/SolarTerm.php:1061-1064 | B is the whole number -2 on Julian dates and the whole number y div 400 − y div 100 on Gregorian dates of years divisible by 400 |
| Calendar.JanuaryFebruaryAreMonths13And14 | src/SolarTerm.php:1057-1060 | a January or February date gives the same day number as month 13 or 14 of the previous year |
| Calendar.TimeOfDayContribution | src/SolarTerm.php:1068 | the time of day adds exactly hour/24 + minute/1440 + second/86400 to the day number |
| Calendar.JulianBeforeCutover | src/SolarTerm.php:1061-1068 | a date before the cutover, judged on the shifted year and month, gets B = -2 |
| Calendar.GregorianCorrectionNotFloored | src/SolarTerm.php:1062-1063 | on Gregorian dates B equals the floored correction plus the fractions (y mod 400)/400 - (y mod 100)/100; it differs from the floored value by less than one day; the two are equal exactly when 400 divides the year |
| Calendar.JulianYearDays | src/SolarTerm.php:1066-1068 | the truncated 365.25·y of a non-negative year is 365·y + y div 4 |
| Calendar.FebruaryEndDays | src/SolarTerm.php:1055-1068 | the day number from 28 February to 1 March is 2 in years divisible by 4 and 1 otherwise, plus the difference of the two B corrections |
| Calendar.JulianLeapRule | src/SolarTerm.php:1055-1068 | for years 1 to 1582 that step is exactly 2 in years divisible by 4 and 1 otherwise |
| Calendar.GregorianCenturyRuleLost | src/SolarTerm.php:1062-1068 | from 1583 on that step is the Julian one less 0.0075 days, so century years keep a 29 February |
| Calendar.GregorianAdjusted | src/SolarTerm.php:982-985 | the Gregorian adjustment never lowers the day count, and leaves it unchanged exactly when the day is at most 2299161 |
| Calendar.MonthYearFixup | src/SolarTerm.php:991-998 | the final year is never 0; month indices 3..14 become months 1..12; the day is unchanged; for a positive year the fix-up undoes the January/February shift of the date → Julian-day conversion: shifting the result back gives the month index and the year it started from |
| Calendar.DaysIntoYearRange | src/SolarTerm.php:987-990 | for a shifted day count of at least 123, the day of the computed year is in 123..488, the month index in 4..15 and the day in 1..31 |
| Calendar.MonthAndDay | src/SolarTerm.php:989-990 | the month index and the day from the day of the year; `MonthDayRange` states their ranges |
| Calendar.MonthDayRange | src/SolarTerm.php:989-990 | a day of year in 123..488 gives a month index in 4..15 and a day in 1..31 |
| Calendar.CivilDate | src/SolarTerm.php:986-998 | the civil date computed from a day count never has year 0 |
| Calendar.CivilDateRange | src/SolarTerm.php:986-998 | the computed year is never 0; from a shifted count of 123 on, the month is in 1..12 and the day in 1..31 |
| Calendar.ClockTime | src/SolarTerm.php:999-1006 | for a day fraction in [0, 1): hour 0..23, minute 0..59, second 0..60; for a fraction in (-1, 0] the mirrored ranges |
| Calendar.DateSteps | src/SolarTerm.php:986-998 | the step-by-step date code computes the civil date of the day count |
| Calendar.ClockSteps | src/SolarTerm.php:999-1006 | the step-by-step clock code computes the clock time of the fraction |
| Calendar.GetDayTimeFromJulianDay | src/SolarTerm.php:977-1010 | the method's result is the date and time of the Julian day: split at noon, Gregorian adjustment, civil date, clock time |
| Calendar.DayTimeOf | src/SolarTerm.php:977-1010 | the converted date and time never has year 0, and from JD −0.5 on the clock reads hour 0..23, minute 0..59 and second 0..60 |
| Calendar.DayTimeRanges | src/SolarTerm.php:977-1010 | the year is never 0; from JD -0.5 on: month 1..12, day 1..31, hour 0..23, minute 0..59, second 0..60 (60 is possible, with no carry); before that the negative clock ranges |
| Calendar.SecondReachesSixty | src/SolarTerm.php:1006 | JD 2451544.5 + 86399.75/86400 converts to 2000-01-01 23:59:60 |
| Calendar.NoRoundTripFor2019March20Noon | src/SolarTerm.php:1055-1068 | 2019-03-20 12:00 has day number 2458562.8575, which converts back to 2019-03-20 08:34:48 |
| Calendar.CutoverMidnightIsOctober5 | src/SolarTerm.php:982-985 | the adjustment applies only past day 2299161, so JD 2299160.5 (15 October 1582, 00:00) converts to 1582-10-05 00:00:00, a day the reform skipped |
| Angles.Normalized360 | src/SolarTerm.php:1093-1104 | the normalised angle lies in [0, 360] and differs from the input by a whole number of turns; it is below 360 when the input is not positive and above 0 when the input is positive; an input already in [0, 360], 360 included, is returned unchanged |
| Angles.Normalized360Unique | src/SolarTerm.php:1093-1104 | the only value that is the input plus a whole number of turns and lies in the range where the loops stop is the normalised angle |
| Angles.Normalized360Idempotent | src/SolarTerm.php:1093-1104 | normalising twice is the same as normalising once |
| Angles.Mod360Degree | src/SolarTerm.php:1093-1104 | the two while-loops terminate with the normalised angle |
| Angles.ZeroAngleWrap | src/SolarTerm.php:1340 | the longitude is shifted by -360 only for target angle 0; the result is the longitude or the longitude minus 360, and for angle 0 and a longitude in [0, 360] it lies in (-15, 345] |
| Angles.EstimateMonth | src/SolarTerm.php:1073-1074 | for an angle in (−90, 360) the start month is in 1..12 |
| Angles.EstimateDay | src/SolarTerm.php:1077-1080 | the start day is 6 or 20, and it is 6 exactly for odd multiples of 15° |
| Angles.GetInitialEstimateSolarTerms | src/SolarTerm.php:1071-1081 | the start point is noon: half a day after midnight of the estimated day |
| Angles.EstimateDateOfTerm | src/SolarTerm.php:1073-1080 | for angle 15k, 0 <= k < 24, the start month is in 1..12 and equals ((k+7) div 2 + 11) mod 12 + 1; the start day is 6 for odd k and 20 for even k |
| Angles.InitialEstimateOfTerm | src/SolarTerm.php:1071-1081 | the start point of term k is noon of that estimated day |
| Angles.MonthPairs | src/SolarTerm.php:1073-1080 | for every month pair m in 1..12, terms 2m−1 and 2m mod 24 share a month, with days 6 and 20; m = 12 is term 23 on 6 March and term 0 on 20 March |
| Angles.InitialEstimatesDistinct | src/SolarTerm.php:1073-1080 | different terms get different (month, day) start dates |
| Angles.InitialEstimateExamples | src/SolarTerm.php:1071-1081 | angle 0 starts at 20 March and angle 270 at 20 December, both at noon |
| DeltaT.CountOf | src/SolarTerm.php:1106-1109 | the result times the column count is the row count, so it divides rows by columns rather than counting rows |
| DeltaT.CountOfCutsTablesShort | src/SolarTerm.php:1106-1109 | for any table with more than one row and more than one column, a loop bounded by COUNT_OF makes fewer passes than the table has rows |
| DeltaT.PassesBelow | src/SolarTerm.php:1287 | a loop `for (i = 0; i < bound; i++)` makes the least number of passes that is not below the bound |
| DeltaT.DeltaScanBound | src/SolarTerm.php:1287 | the ΔT scan bound is 20/5 = 4, so the loop makes 4 passes at most |
| DeltaT.NutationLoopPasses | src/SolarTerm.php:1205 | the nutation loop bound is 63/9 = 7, so it visits 7 of the 63 rows |
| DeltaT.LongitudeLoopPasses | src/SolarTerm.php:1118-1123 | CalcPeriodicTerm, called with COUNT_OF, visits 22, 12, 7, 3, 1 and 1 rows of L0..L5 (of 64, 34, 20, 7, 3, 1) |
| DeltaT.LatitudeLoopPasses | src/SolarTerm.php:1152-1156 | it visits 2, 1, 2, 2 and 1 rows of B0..B4 (of 5, 2, 4, 4, 1) |
| DeltaT.RadiusLoopPasses | src/SolarTerm.php:1218-1222 | it visits 14, 4, 2, 1 and 1 rows of R0..R4 (of 40, 10, 6, 2, 1) |
| DeltaT.DeltatExt | src/SolarTerm.php:1259-1263 | with a non-negative acceleration the extrapolation is at least -20 s, and it is exactly -20 s in 1820 |
| DeltaT.LinearDeltaT | src/SolarTerm.php:1280 | the straight-line extrapolation 64.7 + 0.4·(y − 2005); `LinearPiece` and `SpliceEnds` state where it applies and its value at 2014 |
| DeltaT.BlendedDeltaT | src/SolarTerm.php:1281-1284 | the quadratic less the pivot gap fading over 100 years; `BlendAsPolynomial`, `SpliceEnds` and `SpliceContinuousAfterPivot` state its form, ends and growth |
| DeltaT.DeltaTExtrapolated | src/SolarTerm.php:1273-1286 | from 2005 to 2014 ΔT lies between 64.7 s and 68.3 s |
| DeltaT.LinearPiece | src/SolarTerm.php:1279-1280 | on [2005, 2014] ΔT is 64.7 + 0.4·(y − 2005) |
| DeltaT.QuadraticPiece | src/SolarTerm.php:1281-1285 | from 2114 on ΔT is −20 + 31·((y − 1820)/100)² |
| DeltaT.SpliceEnds | src/SolarTerm.php:1281-1284 | the blend equals the linear piece (68.3 s) at 2014 and the quadratic at 2114 |
| DeltaT.BlendAsPolynomial | src/SolarTerm.php:1281-1284 | the blend is 68.3 + 1.486516·e + 0.0031·e², where e = y − 2014 |
| DeltaT.SpliceContinuousAfterPivot | src/SolarTerm.php:1273-1286 | on (2014, 2114] ΔT lies between 68.3 + 1.4·e and 68.3 + 1.8·e, so it joins the linear piece continuously at 2014 |
| DeltaT.BlendIncreasing | src/SolarTerm.php:1281-1286 | on (2014, 2114] ΔT strictly increases |
| DeltaT.ScanStop | src/SolarTerm.php:1287-1290 | the scan stops at a row within the table; every row it passes is under the bound and its successor starts no later than y; if it stopped before the bound, the next row starts after y |
| DeltaT.ScanDeltaTable | src/SolarTerm.php:1287-1290 | the loop with its break stops where that scan stops |
| DeltaT.TableYearsIncrease | src/SolarTerm.php:933 | the table's boundary years strictly increase, so the interpolation divisor is positive |
| DeltaT.Row | src/SolarTerm.php:933-975 | the 20 rows of DELTA_TB1; `TableYearsIncrease`, `EarlyRowYears`, `RowYearsUpTo2000` and `RowCubic` state what the scan and the cubic need of them |
| DeltaT.AsWrittenBound | src/SolarTerm.php:1287 | the scan bound sizeof(DELTA_TB1) / sizeof(DELTA_TB1[0]) is 4 |
| DeltaT.RowCubic | src/SolarTerm.php:1291-1295 | at the row's own boundary year the cubic gives the row's constant coefficient |
| DeltaT.DeltaTSeconds | src/SolarTerm.php:1270-1296 | before 2005 ΔT is the cubic of some table row, whatever the scan bound; from 2005 to 2014 it lies between 64.7 s and 68.3 s |
| DeltaT.DeltaTWithBound | src/SolarTerm.php:1270-1296 | the method computes ΔT: extrapolation from 2005 on, otherwise the cubic of the row where the scan stops |
| DeltaT.TdUtcDeltatT | src/SolarTerm.php:1270-1296 | the method computes ΔT with the source's scan bound of 20/5 |
| DeltaT.TdUtcDeltatTRowBound | src/SolarTerm.php:1270-1296 | the method computes ΔT with the scan bounded by the row count |
| DeltaT.EarlyRowYears | src/SolarTerm.php:933 | rows 0 to 4 start no later than year 500 |
| DeltaT.AsWrittenScanRow | src/SolarTerm.php:1287-1290 | as written, the row chosen before 2005 is at most 4: the first i ≤ 3 with y < year[i+1], otherwise 4 |
| DeltaT.AsWrittenUsesRowFour | src/SolarTerm.php:1287-1295 | as written, every year from 500 to 2004 uses the 500–900 cubic |
| DeltaT.AsWrittenDeltaTAt2000 | src/SolarTerm.php:1287-1295 | as written, ΔT for 2000 is 8901.3046875 s |
| DeltaT.RowBoundScanBrackets | src/SolarTerm.php:1287-1291 | with the row-count bound the scan finds the interval year[i] ≤ y < year[i+1], for −4000 ≤ y < 2005 |
| DeltaT.RowBoundScanAt2000 | src/SolarTerm.php:1287-1290 | with that bound the scan for 2000 stops at row 18, the 2000 row |
| DeltaT.RowYearsUpTo2000 | src/SolarTerm.php:933 | rows 0 to 18 start no later than 2000 |
| DeltaT.RowBoundDeltaTAt2000 | src/SolarTerm.php:1287-1295 | with that bound ΔT for 2000 is the table's 63.87 s |
| DeltaT.BoundIrrelevantFrom2005 | src/SolarTerm.php:1273-1286 | from 2005 on the scan bound does not affect ΔT |
| DeltaT.YearOfJ2000Day | src/SolarTerm.php:1306 | the year is 2000 or later exactly for days from J2000 on, and 2005 or later, where TdUtcDeltatT extrapolates, exactly for days from 1826.2125 on |
| DeltaT.YearOfJ2000DayStep | src/SolarTerm.php:1306 | every 365.2425 days advance that year by exactly one |
| DeltaT.UtcOffsetSeconds | src/SolarTerm.php:1306-1313 | TT − UTC in seconds at a TT Julian day for a given scan bound; `JDTDtoUTC` and `JDTDtoUTCRowBound` subtract exactly it, `UtcOffsetAtJ2000` gives its values at J2000 and `UtcOffsetBoundIrrelevantFrom2005` shows the bound does not matter from 2005 on |
| DeltaT.TdUtcDeltatT2 | src/SolarTerm.php:1303-1307 | the result in days, times 86400, is the source-bound ΔT of year 2000 + d/365.2425; for years 2005 to 2014 that is 64.7 s to 68.3 s |
| DeltaT.TdUtcDeltatT2RowBound | src/SolarTerm.php:1303-1307 | the same conversion on the row-bounded ΔT |
| DeltaT.JDTDtoUTC | src/SolarTerm.php:1309-1316 | TT minus UTC, in seconds, is the source-bound ΔT of the day's year; for years 2005 to 2014 the shift lies between 64.7 s and 68.3 s |
| DeltaT.JDTDtoUTCRowBound | src/SolarTerm.php:1309-1316 | the same shift on the row-bounded ΔT |
| DeltaT.UtcOffsetAtJ2000 | src/SolarTerm.php:1287-1316 | at J2000 JDTDtoUTC subtracts 8901.3046875 s; with the row-count bound it subtracts 63.87 s |
| DeltaT.UtcOffsetBoundIrrelevantFrom2005 | src/SolarTerm.php:1273-1286 | from year 2005 on both scan bounds give the same TT − UTC shift |
| SolarTerms.TermName | src/SolarTerm.php:185-238 | a code has a name exactly when it is in 0..23 |
| SolarTerms.CodeOfName | src/SolarTerm.php:185-238 | a name maps back to a code in 0..23 or to nothing |
| SolarTerms.NameRoundTrip | src/SolarTerm.php:185-238 | a code's name leads back to the same code |
| SolarTerms.NamesDistinct | src/SolarTerm.php:185-238 | different codes have different names |
| SolarTerms.SelectYear | src/SolarTerm.php:32-33 | the argument is used when it is in 1900..2100, and the current year otherwise |
| SolarTerms.GetSolarTerms | src/SolarTerm.php:27-51 | exactly 25 entries; entry i has code (18 + i) mod 24, angle 15·code and that code's name; its working year is Y − 1 for entry 0 and Y for entries 1..24 |
| SolarTerms.CatalogueEnds | src/SolarTerm.php:31-48 | the first and the last entry are both the winter solstice, of years Y − 1 and Y |
| SolarTerms.SecondSlotIsSlightCold | src/SolarTerm.php:104-106 | entry 1, the fallback of the adjacent-term query, is Slight Cold (code 19, 285°) of year Y |
| SolarTerms.FallbackYear | src/SolarTerm.php:104-106 | the fallback is Slight Cold; it is of the following year for query years 1899..2099, but of the current year for a query in 2100, because 2101 fails the clamp |
| SolarTerms.PositionInYear | src/SolarTerm.php:36-48 | each code c has a position among entries 1..24, and that entry has code c |
| SolarTerms.EachCodeOnceInYear | src/SolarTerm.php:36-48 | among entries 1..24, code c is at that position and nowhere else |
| SolarTerms.KeyIndex | src/SolarTerm.php:73 | the first index holding key k, with no earlier index holding it; nothing exactly when k is absent |
| SolarTerms.ArraySet | src/SolarTerm.php:40-44 | PHP array assignment: the key is present afterwards and, when keys were unique, holds the new code; other keys are untouched; a new key is appended and grows the array by one; the set of keys gains just this key; unique keys stay unique |
| SolarTerms.IndexByDate | src/SolarTerm.php:39-44 | keying by date leaves unique keys and exactly the given day keys; for strictly increasing days entry i is (day i, code i) |
| SolarTerms.LookupKey | src/SolarTerm.php:73 | the same-day entry is in the list under the query key; nothing exactly when no such key exists |
| SolarTerms.ScanStep | src/SolarTerm.php:80-101 | one pass changes at most one side: prev only to an entry before the query day, next only to one after it; a same-day entry changes nothing; an empty side takes the first entry on its side |
| SolarTerms.Scan | src/SolarTerm.php:79-102 | after the whole foreach prev is before the query day and next after it |
| SolarTerms.ScanAdjacent | src/SolarTerm.php:79-102 | the foreach computes the left fold of the scan step over the list |
| SolarTerms.ScanSides | src/SolarTerm.php:79-102 | prev is an entry before the query day and next one after it, so they never coincide; each is empty exactly when the list has no key on its side |
| SolarTerms.ScanExtremes | src/SolarTerm.php:79-102 | when the loose comparisons follow key order, prev is the latest key before the query and next the earliest key after it, whatever the list order |
| SolarTerms.ScanExtremesSorted | src/SolarTerm.php:79-102 | for a list in increasing key order it is enough that a larger key compares as later and not as earlier; prev and next are again the latest key before and the earliest after the query |
| SolarTerms.EarlierEntriesHaveSmallerKeys | src/SolarTerm.php:79-102 | in a list with increasing keys every entry before the last has a smaller key |
| SolarTerms.RecentlySolarTerm | src/SolarTerm.php:66-116 | equal returns only the same-day entry, computed before the scan; prev, next and all return the scan's entries, with next replaced by the fallback when the scan found none |
| SolarTerms.NextOrFallback | src/SolarTerm.php:104-107 | the answer always has a next entry; the scan's entry is kept when there is one |
| SolarTerms.FallbackWhenNoLaterKey | src/SolarTerm.php:104-107 | the next entry is the fallback or lies after the query; it is the fallback whenever no key lies after the query |
| SolarTerms.AnswerEntriesDiffer | src/SolarTerm.php:73-107 | when the fallback lies after the query, the prev, same-day and next entries are pairwise different |

## Left out

- The VSOP87 and nutation series (`CalcPeriodicTerm` and the longitude, latitude, radius, nutation and aberration functions). They are floating-point `sin`/`cos`/`tan` sums with no exact behaviour to state. Only their loop bounds are modelled (`DeltaT.LongitudeLoopPasses`, `DeltaT.LatitudeLoopPasses`, `DeltaT.RadiusLoopPasses`, `DeltaT.NutationLoopPasses`).
- The Newton iteration of `CalculateSolarTerms`. It stops on float convergence, with no iteration bound. Only its 0°/360° guard is modelled (`Angles.ZeroAngleWrap`).
- The numeric contents of the coefficient tables, beyond their row and column counts. The ΔT table is modelled in full.
- Time zones and clocks: `setTimezone`, `get_timezone_offset`, `JDUTCToLocalTime` and `date('Y')`. They read the system clock and the time-zone database. The current year is a parameter of `SolarTerms.SelectYear` and `SolarTerms.GetSolarTerms`.
- Date parsing and formatting: `formatDateTime`, `JDaysToDatetime` and `DateTime::format`/`createFromFormat`. They are library calls.
  - The day keys are therefore a parameter of `SolarTerms.IndexByDate`.
  - The query day and the following year's entry are parameters of `SolarTerms.RecentlySolarTerm`.
  - The `'date'` strings and the re-derived `term_name` of `array_walk` are not represented. A name is always `TermName(code)`.
- PHP's loose comparison of an integer key with a `"Y-m-d H:i:s"` string (src/SolarTerm.php:86 and 97). It is a pair of function parameters, `later` and `earlier`. `SolarTerms.ScanExtremesSorted` states the property of that comparison that the scan relies on.
- `getPrevSolarTerm`, `getNextSolarTerm` and `getCurrentSolarTerm` only pass a fixed type to `getRecentlySolarTerm`. They are covered by the `AdjacentType` argument of `SolarTerms.RecentlySolarTerm`.
- SolarTerms.RecentlySolarTerm: the fallback entry is a parameter. For a query in 2100 the source passes Slight Cold of the current year, which can lie before the query, so "next" is then not after the query day. `FallbackYear` states which year the fallback comes from, and `AnswerEntriesDiffer` is stated only for a fallback after the query.
- DeltaT.DeltatExt: the contract gives the minimum of −20 s and where it is reached, but not strictness elsewhere.
- Calendar.CivilDateRange: the month and day ranges are stated only from a shifted day count of 123 on. This covers every JD from −0.5 upwards; below that the PHP code is applied to negative counts, and no range is claimed.

## Findings

| source | as written | input that shows it | evidently intended | confidence | as-written member | corrected member |
|---|---|---|---|---|---|---|
| src/SolarTerm.php:1287 | the ΔT table scan runs while `i < sizeof(DELTA_TB1) / sizeof(DELTA_TB1[0])` = 20/5 = 4, so for 500 ≤ y < 2005 it always stops at the 500–900 row | y = 2000 gives ΔT = 8901.3046875 s, where the table's 2000 row gives 63.87 s | bound the scan by the number of rows, so it finds the row with year[i] ≤ y < year[i+1] | not executed | DeltaT.TdUtcDeltatT, DeltaT.AsWrittenDeltaTAt2000 | DeltaT.TdUtcDeltatTRowBound, DeltaT.RowBoundScanBrackets |
