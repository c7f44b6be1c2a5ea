/**
 * Julian-day / civil-date conversion of the solar-term calculator
 * (src/SolarTerm.php: IsGregorianDays, CalculateJulianDay,
 * GetDayTimeFromJulianDay). PHP floats are exact reals here.
 */
module Calendar {
  import opened Numeric

  /** Lexicographic order on (year, month, day). */
  predicate DateBefore(y1: int, m1: int, d1: int, y2: int, m2: int, d2: int) {
    y1 < y2 || (y1 == y2 && (m1 < m2 || (m1 == m2 && d1 < d2)))
  }

  /** True from 15 October 1582, the first day of the Gregorian calendar, on. */
  function IsGregorianDays(year: int, month: int, day: int): (r: bool)
    ensures r <==> !DateBefore(year, month, day, 1582, 10, 15)
  {
    if year < 1582 then false
    else if year == 1582 && (month < 10 || (month == 10 && day < 15)) then false
    else true
  }

  /** January and February count as months 13 and 14 of the previous year. */
  function ShiftedYear(year: int, month: int): int {
    if month <= 2 then year - 1 else year
  }

  function ShiftedMonth(month: int): (m: int)
    ensures 1 <= month <= 12 ==> 3 <= m <= 14
  {
    if month <= 2 then month + 12 else month
  }

  /**
   * The correction term B on the shifted date. PHP's `/` on integers yields a
   * float when the division is not exact, so B is not floored.
   */
  function GregorianCorrection(year: int, month: int, day: int): real {
    if IsGregorianDays(year, month, day) then year as real / 400.0 - year as real / 100.0 else -2.0
  }

  /** Days from the shifted year and month, before the correction and the day of month. */
  function YearMonthDays(year: int, month: int): int {
    Trunc(365.25 * year as real) + Trunc(30.6001 * (month + 1) as real)
  }

  /**
   * The Julian day of a civil date and time. On a Julian-calendar date, or a
   * Gregorian one whose shifted year is a multiple of 400, midnight falls on
   * a day number ending in .5.
   */
  function CalculateJulianDay(year: int, month: int, day: int, hour: int, minute: int, second: real): (r: real)
    ensures hour == 0 && minute == 0 && second == 0.0
         && (!IsGregorianDays(ShiftedYear(year, month), ShiftedMonth(month), day) || ShiftedYear(year, month) % 400 == 0)
         ==> (r + 0.5).Floor as real == r + 0.5
  {
    var y := ShiftedYear(year, month);
    var m := ShiftedMonth(month);
    var whole := YearMonthDays(y, m) + (if IsGregorianDays(y, m, day) then y / 400 - y / 100 else -2) + 1720997 + day;
    WholeCorrection(y, m, day);
    var jd := YearMonthDays(y, m) as real + GregorianCorrection(y, m, day) + 1720996.5 + day as real
      + hour as real / 24.0 + minute as real / 1440.0 + second / 86400.0;
    assert hour == 0 && minute == 0 && second == 0.0 && (!IsGregorianDays(y, m, day) || y % 400 == 0)
      ==> jd + 0.5 == whole as real;
    jd
  }

  /** B is a whole number of days on Julian dates and on Gregorian dates of years divisible by 400. */
  lemma WholeCorrection(year: int, month: int, day: int)
    ensures !IsGregorianDays(year, month, day) || year % 400 == 0
         ==> GregorianCorrection(year, month, day)
             == (if IsGregorianDays(year, month, day) then year / 400 - year / 100 else -2) as real
  {
    if IsGregorianDays(year, month, day) && year % 400 == 0 {
      GregorianCorrectionNotFloored(year, month, day);
    }
  }

  /** A date in January or February gives the same day number as month 13 or 14 of the year before. */
  lemma JanuaryFebruaryAreMonths13And14(year: int, month: int, day: int, hour: int, minute: int, second: real)
    requires 1 <= month <= 2
    ensures CalculateJulianDay(year, month, day, hour, minute, second)
         == CalculateJulianDay(year - 1, month + 12, day, hour, minute, second)
  {
  }

  /** The time of day adds exactly hour/24 + minute/1440 + second/86400 days. */
  lemma TimeOfDayContribution(year: int, month: int, day: int, hour: int, minute: int, second: real)
    ensures CalculateJulianDay(year, month, day, hour, minute, second)
         == CalculateJulianDay(year, month, day, 0, 0, 0.0)
            + hour as real / 24.0 + minute as real / 1440.0 + second / 86400.0
  {
  }

  /**
   * Before the cutover, judged on the shifted year and month, B is -2: the
   * Julian calendar. So 1-14 October 1582 and January-February 1582 are Julian.
   */
  lemma JulianBeforeCutover(year: int, month: int, day: int)
    requires DateBefore(ShiftedYear(year, month), ShiftedMonth(month), day, 1582, 10, 15)
    ensures CalculateJulianDay(year, month, day, 0, 0, 0.0)
         == YearMonthDays(ShiftedYear(year, month), ShiftedMonth(month)) as real - 2.0 + 1720996.5 + day as real
  {
  }

  /**
   * On Gregorian dates B is the floored correction y/400 - y/100 plus the
   * fractions the real division keeps; the two agree exactly when 400 divides y.
   */
  lemma {:induction false} GregorianCorrectionNotFloored(year: int, month: int, day: int)
    requires IsGregorianDays(year, month, day)
    ensures GregorianCorrection(year, month, day)
         == (year / 400 - year / 100) as real + (year % 400) as real / 400.0 - (year % 100) as real / 100.0
    ensures -1.0 < GregorianCorrection(year, month, day) - (year / 400 - year / 100) as real < 1.0
    ensures GregorianCorrection(year, month, day) == (year / 400 - year / 100) as real <==> year % 400 == 0
  {
    var q4, r4 := year / 400, year % 400;
    var q1, r1 := year / 100, year % 100;
    assert year as real / 400.0 == q4 as real + r4 as real / 400.0;
    assert year as real / 100.0 == q1 as real + r1 as real / 100.0;
    var a := r4 / 100;
    assert r4 == 100 * a + r1 by {
      assert year == 400 * q4 + r4 == 100 * q1 + r1;
      assert year == 100 * (4 * q4 + a) + r4 % 100;
    }
    assert 0 <= a <= 3;
    if r4 as real / 400.0 - r1 as real / 100.0 == 0.0 {
      assert r4 == 4 * r1;
      assert 100 * a == 3 * r1;
      assert a == 0;
    }
  }

  /** Trunc(365.25 y) for a non-negative year counts 365 days a year plus one every fourth year. */
  lemma {:induction false} JulianYearDays(year: int)
    requires year >= 0
    ensures Trunc(365.25 * year as real) == 365 * year + year / 4
  {
    var q, r := year / 4, year % 4;
    assert 365.25 * year as real == (365 * year + q) as real + r as real / 4.0;
  }

  /** Days between 28 February and 1 March of a shifted year pair. */
  lemma {:induction false} FebruaryEndDays(year: int)
    requires year >= 1
    ensures CalculateJulianDay(year, 3, 1, 0, 0, 0.0) - CalculateJulianDay(year, 2, 28, 0, 0, 0.0)
         == (if year % 4 == 0 then 2.0 else 1.0)
            + GregorianCorrection(year, 3, 1) - GregorianCorrection(year - 1, 14, 28)
  {
    JulianYearDays(year);
    JulianYearDays(year - 1);
    assert Trunc(30.6001 * 4 as real) == 122;
    assert Trunc(30.6001 * 15 as real) == 459;
  }

  /** Up to 1582 the conversion follows the Julian leap rule: 29 February exists exactly in years divisible by 4. */
  lemma JulianLeapRule(year: int)
    requires 1 <= year <= 1582
    ensures CalculateJulianDay(year, 3, 1, 0, 0, 0.0) - CalculateJulianDay(year, 2, 28, 0, 0, 0.0)
         == (if year % 4 == 0 then 2.0 else 1.0)
  {
    FebruaryEndDays(year);
  }

  /**
   * After 1582 the unfloored B loses the Gregorian century rule: the step
   * over the end of February is the Julian one less 0.0075 days, so 1900
   * gets the same 29 February as 1904.
   */
  lemma GregorianCenturyRuleLost(year: int)
    requires year >= 1583
    ensures CalculateJulianDay(year, 3, 1, 0, 0, 0.0) - CalculateJulianDay(year, 2, 28, 0, 0, 0.0)
         == (if year % 4 == 0 then 2.0 else 1.0) - 0.0075
  {
    FebruaryEndDays(year);
  }

  datatype DayTime = DayTime(year: int, month: int, day: int, hour: int, minute: int, second: int)

  /** The Gregorian adjustment of the integer day number, applied only past day 2299161. */
  function GregorianAdjusted(cna: int): (r: int)
    ensures r >= cna
    ensures r == cna <==> cna <= 2299161
  {
    if cna > 2299161 then
      var cnd := Trunc((cna as real - 1867216.25) / 36524.25);
      cna + 1 + cnd - Trunc(cnd as real / 4.0)
    else
      cna
  }

  /** Month index and day from the days into the shifted year. */
  function MonthAndDay(cnd: int): (int, int) {
    var month := Trunc(cnd as real / 30.6001);
    (month, cnd - Trunc(month as real * 30.6001))
  }

  /** Civil (year, month, day) from the adjusted day number plus 1524; there is no year 0. */
  function CivilDate(cna: int): (r: (int, int, int))
    ensures r.0 != 0
  {
    var y0 := Trunc((cna as real - 122.1) / 365.25);
    var md := MonthAndDay(cna - Trunc(365.25 * y0 as real));
    MonthYearFixup(y0 - 4716, md.0 - 1, md.1)
  }

  /** From day number 123 on, every converted date has a month in 1..12 and a day in 1..31. */
  lemma CivilDateRange(cna: int)
    ensures CivilDate(cna).0 != 0
    ensures cna >= 123 ==> 1 <= CivilDate(cna).1 <= 12 && 1 <= CivilDate(cna).2 <= 31
  {
    DaysIntoYearRange(cna);
  }

  /** The month wrap above 12, the year step for January and February, and the skip of year 0. */
  function MonthYearFixup(year: int, month: int, day: int): (r: (int, int, int))
    ensures r.0 != 0
    ensures 3 <= month <= 14 ==> 1 <= r.1 <= 12
    ensures r.2 == day
    ensures 3 <= month <= 14 && year >= 1 ==> ShiftedYear(r.0, r.1) == year && ShiftedMonth(r.1) == month
  {
    var m := if month > 12 then month - 12 else month;
    var y := if m <= 2 then year + 1 else year;
    (if y < 1 then y - 1 else y, m, day)
  }

  lemma DaysIntoYearRange(cna: int)
    ensures var y0 := Trunc((cna as real - 122.1) / 365.25);
      var cnd := cna - Trunc(365.25 * y0 as real);
      cna >= 123 ==> 123 <= cnd <= 488 && 4 <= MonthAndDay(cnd).0 <= 15 && 1 <= MonthAndDay(cnd).1 <= 31
  {
    if cna < 123 { return; }
    var y0 := Trunc((cna as real - 122.1) / 365.25);
    assert 365.25 * y0 as real <= cna as real - 122.1 < 365.25 * y0 as real + 365.25;
    var cnd := cna - Trunc(365.25 * y0 as real);
    MonthDayRange(cnd);
  }

  lemma MonthDayRange(cnd: int)
    requires 123 <= cnd <= 488
    ensures 4 <= MonthAndDay(cnd).0 <= 15 && 1 <= MonthAndDay(cnd).1 <= 31
  {
    var m := Trunc(cnd as real / 30.6001);
    assert m as real * 30.6001 <= cnd as real < m as real * 30.6001 + 30.6001;
    // 30.6001 m is never an integer for m in 4..15, so its truncation lies strictly below cnd.
    assert Trunc(m as real * 30.6001) as real < m as real * 30.6001 by {
      assert m == 4 || m == 5 || m == 6 || m == 7 || m == 8 || m == 9 || m == 10
          || m == 11 || m == 12 || m == 13 || m == 14 || m == 15;
    }
  }

  /** Hour, minute and second of a day fraction; the second is rounded and never carried. */
  function ClockTime(f: real): (r: (int, int, int))
    ensures 0.0 <= f < 1.0 ==> 0 <= r.0 <= 23 && 0 <= r.1 <= 59 && 0 <= r.2 <= 60
    ensures -1.0 < f <= 0.0 ==> -23 <= r.0 <= 0 && -59 <= r.1 <= 0 && -60 <= r.2 <= 0
  {
    var hours := f * 24.0;
    var hour := Trunc(hours);
    var minutes := (hours - hour as real) * 60.0;
    var minute := Trunc(minutes);
    (hour, minute, Round((minutes - minute as real) * 60.0))
  }

  /** The civil date and time of a Julian day, stage by stage. */
  function DayTimeOf(jd: real): (r: DayTime)
    ensures r.year != 0
    ensures jd >= -0.5 ==> 0 <= r.hour <= 23 && 0 <= r.minute <= 59 && 0 <= r.second <= 60
  {
    var jdf := jd + 0.5;
    var cna := Trunc(jdf);
    var date := CivilDate(GregorianAdjusted(cna) + 1524);
    var clock := ClockTime(jdf - cna as real);
    DayTime(date.0, date.1, date.2, clock.0, clock.1, clock.2)
  }

  /**
   * The source's step-by-step conversion; the by-reference array of six
   * fields becomes a returned record. The date steps and the clock steps
   * are the two methods below.
   */
  method GetDayTimeFromJulianDay(jd: real) returns (dt: DayTime)
    ensures dt == DayTimeOf(jd)
  {
    var jdf := jd + 0.5;
    var cna := Trunc(jdf);
    var cnf := jdf - cna as real;
    ghost var whole := cna;
    if cna > 2299161 {
      var cnd := Trunc((cna as real - 1867216.25) / 36524.25);
      cna := cna + 1 + cnd - Trunc(cnd as real / 4.0);
    }
    assert cna == GregorianAdjusted(whole);
    var year, month, day := DateSteps(cna + 1524);
    var hour, minute, second := ClockSteps(cnf);
    dt := DayTime(year, month, day, hour, minute, second);
  }

  /**
   * Every field is in its civil range from Julian day -0.5 on, except that the
   * second can reach 60; before that the truncation toward zero makes the
   * clock fields non-positive. There is never a year 0.
   */
  lemma DayTimeRanges(jd: real)
    ensures DayTimeOf(jd).year != 0
    ensures jd >= -0.5 ==> 1 <= DayTimeOf(jd).month <= 12 && 1 <= DayTimeOf(jd).day <= 31
    ensures jd >= -0.5 ==> 0 <= DayTimeOf(jd).hour <= 23 && 0 <= DayTimeOf(jd).minute <= 59
    ensures jd >= -0.5 ==> 0 <= DayTimeOf(jd).second <= 60
    ensures jd < -0.5 ==> -23 <= DayTimeOf(jd).hour <= 0 && -59 <= DayTimeOf(jd).minute <= 0
    ensures jd < -0.5 ==> -60 <= DayTimeOf(jd).second <= 0
  {
    var cna := Trunc(jd + 0.5);
    CivilDateRange(GregorianAdjusted(cna) + 1524);
  }

  /** From the adjusted day number plus 1524 to year, month and day. */
  method DateSteps(cna: int) returns (year: int, month: int, day: int)
    ensures (year, month, day) == CivilDate(cna)
  {
    year := Trunc((cna as real - 122.1) / 365.25);
    var cnd := cna - Trunc(365.25 * year as real);
    month := Trunc(cnd as real / 30.6001);
    day := cnd - Trunc(month as real * 30.6001);
    year := year - 4716;
    month := month - 1;
    ghost var date := MonthYearFixup(year, month, day);
    if month > 12 {
      month := month - 12;
    }
    if month <= 2 {
      year := year + 1;
    }
    if year < 1 {
      year := year - 1;
    }
    assert (year, month, day) == date;
  }

  /** From the day fraction to hour, minute and the rounded second. */
  method ClockSteps(fraction: real) returns (hour: int, minute: int, second: int)
    ensures (hour, minute, second) == ClockTime(fraction)
  {
    var cnf := fraction * 24.0;
    hour := Trunc(cnf);
    cnf := cnf - hour as real;
    cnf := cnf * 60.0;
    minute := Trunc(cnf);
    cnf := cnf - minute as real;
    second := Round(cnf * 60.0);
  }

  /** One quarter second before midnight the seconds field reads 60: no carry into the minute. */
  lemma SecondReachesSixty()
    ensures DayTimeOf(2451544.5 + 86399.75 / 86400.0) == DayTime(2000, 1, 1, 23, 59, 60)
  {
    var jdf := 2451544.5 + 86399.75 / 86400.0 + 0.5;
    assert Trunc(jdf) == 2451545;
    assert Trunc((2451545.0 - 1867216.25) / 36524.25) == 15;
    assert GregorianAdjusted(2451545) == 2451558;
    assert Trunc((2453082.0 - 122.1) / 365.25) == 6715;
    assert Trunc(365.25 * 6715 as real) == 2452653;
    assert MonthAndDay(429) == (14, 1);
    assert CivilDate(2453082) == (2000, 1, 1);
    assert jdf - 2451545.0 == 86399.75 / 86400.0;
    var hours := 86399.75 / 86400.0 * 24.0;
    assert Trunc(hours) == 23;
    var minutes := (hours - 23.0) * 60.0;
    assert minutes == 3599.75 / 60.0;
    assert Trunc(minutes) == 59;
    assert (minutes - 59.0) * 60.0 == 59.75;
    assert ClockTime(86399.75 / 86400.0) == (23, 59, 60);
  }

  /**
   * The Gregorian adjustment starts only after day 2299161, so midnight of
   * 15 October 1582, JD 2299160.5, converts to 5 October 1582, one of the
   * days the calendar reform skipped.
   */
  lemma CutoverMidnightIsOctober5()
    ensures DayTimeOf(2299160.5) == DayTime(1582, 10, 5, 0, 0, 0)
  {
    assert Trunc(2299160.5 + 0.5) == 2299161;
    assert GregorianAdjusted(2299161) == 2299161;
    assert Trunc((2300685.0 - 122.1) / 365.25) == 6298;
    assert Trunc(365.25 * 6298 as real) == 2300344;
    assert MonthAndDay(341) == (11, 5);
    assert CivilDate(2300685) == (1582, 10, 5);
    assert ClockTime(0.0) == (0, 0, 0);
  }

  /**
   * Because B is not floored the conversion does not round-trip: noon of
   * 20 March 2019 comes back as 08:34:48 the same day.
   */
  lemma NoRoundTripFor2019March20Noon()
    ensures CalculateJulianDay(2019, 3, 20, 12, 0, 0.0) == 2458562.8575
    ensures DayTimeOf(CalculateJulianDay(2019, 3, 20, 12, 0, 0.0)) == DayTime(2019, 3, 20, 8, 34, 48)
  {
    assert Trunc(365.25 * 2019 as real) == 737439;
    assert Trunc(30.6001 * 4 as real) == 122;
    assert GregorianCorrection(2019, 3, 20) == -15.1425;
    var jdf := 2458562.8575 + 0.5;
    assert Trunc(jdf) == 2458563;
    assert Trunc((2458563.0 - 1867216.25) / 36524.25) == 16;
    assert GregorianAdjusted(2458563) == 2458576;
    assert Trunc((2460100.0 - 122.1) / 365.25) == 6735;
    assert Trunc(365.25 * 6735 as real) == 2459958;
    assert MonthAndDay(142) == (4, 20);
    assert CivilDate(2460100) == (2019, 3, 20);
    assert jdf - 2458563.0 == 0.3575;
    assert Trunc(0.3575 * 24.0) == 8;
    assert Trunc((0.3575 * 24.0 - 8.0) * 60.0) == 34;
    assert ((0.3575 * 24.0 - 8.0) * 60.0 - 34.0) * 60.0 == 48.0;
    assert ClockTime(0.3575) == (8, 34, 48);
  }
}
