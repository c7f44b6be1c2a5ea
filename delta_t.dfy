/**
 * The TD - UT (delta T) model and the time-scale step that applies it
 * (src/SolarTerm.php: COUNT_OF, deltatExt, TdUtcDeltatT, TdUtcDeltatT2,
 * JDTDtoUTC), with the row and column counts of every coefficient table.
 */
module DeltaT {
  import opened Numeric

  /** A row of DELTA_TB1: the boundary year and the four cubic coefficients. */
  datatype DeltaRow = DeltaRow(year: int, c0: real, c1: real, c2: real, c3: real)

  const RowCount: nat := 20
  const DeltaColumns: nat := 5

  /** The rows of DELTA_TB1, in table order. */
  function Row(i: nat): DeltaRow
    requires i < RowCount
  {
    match i
    case 0 => DeltaRow(-4000, 108371.7, -13036.80, 392.000, 0.0000)
    case 1 => DeltaRow(-500, 17201.0, -627.82, 16.170, -0.3413)
    case 2 => DeltaRow(-150, 12200.6, -346.41, 5.403, -0.1593)
    case 3 => DeltaRow(150, 9113.8, -328.13, -1.647, 0.0377)
    case 4 => DeltaRow(500, 5707.5, -391.41, 0.915, 0.3145)
    case 5 => DeltaRow(900, 2203.4, -283.45, 13.034, -0.1778)
    case 6 => DeltaRow(1300, 490.1, -57.35, 2.085, -0.0072)
    case 7 => DeltaRow(1600, 120.0, -9.81, -1.532, 0.1403)
    case 8 => DeltaRow(1700, 10.2, -0.91, 0.510, -0.0370)
    case 9 => DeltaRow(1800, 13.4, -0.72, 0.202, -0.0193)
    case 10 => DeltaRow(1830, 7.8, -1.81, 0.416, -0.0247)
    case 11 => DeltaRow(1860, 8.3, -0.13, -0.406, 0.0292)
    case 12 => DeltaRow(1880, -5.4, 0.32, -0.183, 0.0173)
    case 13 => DeltaRow(1900, -2.3, 2.06, 0.169, -0.0135)
    case 14 => DeltaRow(1920, 21.2, 1.69, -0.304, 0.0167)
    case 15 => DeltaRow(1940, 24.2, 1.22, -0.064, 0.0031)
    case 16 => DeltaRow(1960, 33.2, 0.51, 0.231, -0.0109)
    case 17 => DeltaRow(1980, 51.0, 1.29, -0.026, 0.0032)
    case 18 => DeltaRow(2000, 63.87, 0.1, 0.0, 0.0)
    case _ => DeltaRow(2005, 0.0, 0.0, 0.0, 0.0)
  }

  /** The boundary year of row i. */
  function RowYear(i: nat): int
    requires i < RowCount
  {
    Row(i).year
  }

  /** Row and column counts of a coefficient table. */
  datatype TableShape = TableShape(rows: nat, columns: nat)

  const Nutation := TableShape(63, 9)
  const EarthL0 := TableShape(64, 3)
  const EarthL1 := TableShape(34, 3)
  const EarthL2 := TableShape(20, 3)
  const EarthL3 := TableShape(7, 3)
  const EarthL4 := TableShape(3, 3)
  const EarthL5 := TableShape(1, 3)
  const EarthB0 := TableShape(5, 3)
  const EarthB1 := TableShape(2, 3)
  const EarthB2 := TableShape(4, 3)
  const EarthB3 := TableShape(4, 3)
  const EarthB4 := TableShape(1, 3)
  const EarthR0 := TableShape(40, 3)
  const EarthR1 := TableShape(10, 3)
  const EarthR2 := TableShape(6, 3)
  const EarthR3 := TableShape(2, 3)
  const EarthR4 := TableShape(1, 3)

  /**
   * COUNT_OF: sizeof(table) / sizeof(table[0]), the number of rows divided
   * by the number of columns; PHP's `/` gives a float when it is not exact.
   */
  function CountOf(t: TableShape): (r: real)
    requires t.columns > 0
    ensures r * t.columns as real == t.rows as real
  {
    t.rows as real / t.columns as real
  }

  /** How many passes `for ($i = 0; $i < bound; $i++)` makes: the least n with n >= bound. */
  function PassesBelow(bound: real): (n: nat)
    ensures n as real >= bound
    ensures n == 0 || (n - 1) as real < bound
  {
    if bound <= 0.0 then 0 else Ceil(bound)
  }

  /**
   * Every table with more than one row and more than one column is cut
   * short: a loop bounded by COUNT_OF visits fewer passes than the table
   * has rows.
   */
  lemma CountOfCutsTablesShort(t: TableShape)
    requires t.rows > 1 && t.columns > 1
    ensures PassesBelow(CountOf(t)) < t.rows
  {
    var c := CountOf(t);
    assert c >= 0.0;
    assert c * 2.0 <= c * t.columns as real by {
      assert c * t.columns as real - c * 2.0 == c * (t.columns as real - 2.0);
      ProductSign(c, t.columns as real - 2.0);
    }
    assert c <= t.rows as real / 2.0;
  }

  /** The delta T scan loop is bounded by sizeof(DELTA_TB1) / sizeof(DELTA_TB1[0]) = 20 / 5 = 4. */
  lemma DeltaScanBound()
    ensures CountOf(TableShape(RowCount, DeltaColumns)) == 4.0
    ensures PassesBelow(CountOf(TableShape(RowCount, DeltaColumns))) == 4
  {
  }

  /** The nutation loop, bounded by sizeof(NUTATION) / sizeof(NUTATION[0]), visits 7 of 63 rows. */
  lemma NutationLoopPasses()
    ensures CountOf(Nutation) == 7.0
    ensures PassesBelow(CountOf(Nutation)) == 7
  {
  }

  /**
   * CalcPeriodicTerm runs its loop COUNT_OF(table) times, and every VSOP
   * table is passed in with that count, so each loop visits about a third
   * of its rows: the longitude series L0..L5 ...
   */
  lemma LongitudeLoopPasses()
    ensures PassesBelow(CountOf(EarthL0)) == 22 && PassesBelow(CountOf(EarthL1)) == 12
    ensures PassesBelow(CountOf(EarthL2)) == 7 && PassesBelow(CountOf(EarthL3)) == 3
    ensures PassesBelow(CountOf(EarthL4)) == 1 && PassesBelow(CountOf(EarthL5)) == 1
  {
  }

  /** ... the latitude series B0..B4 ... */
  lemma LatitudeLoopPasses()
    ensures PassesBelow(CountOf(EarthB0)) == 2 && PassesBelow(CountOf(EarthB1)) == 1
    ensures PassesBelow(CountOf(EarthB2)) == 2 && PassesBelow(CountOf(EarthB3)) == 2
    ensures PassesBelow(CountOf(EarthB4)) == 1
  {
  }

  /** ... and the radius series R0..R4. */
  lemma RadiusLoopPasses()
    ensures PassesBelow(CountOf(EarthR0)) == 14 && PassesBelow(CountOf(EarthR1)) == 4
    ensures PassesBelow(CountOf(EarthR2)) == 2 && PassesBelow(CountOf(EarthR3)) == 1
    ensures PassesBelow(CountOf(EarthR4)) == 1
  {
  }

  /** deltatExt: the quadratic extrapolation -20 + jsd ((y - 1820) / 100)^2. */
  function DeltatExt(y: real, jsd: real): (r: real)
    ensures jsd >= 0.0 ==> r >= -20.0
    ensures y == 1820.0 ==> r == -20.0
  {
    var dy := (y - 1820.0) / 100.0;
    ScaledSquareSign(jsd, dy);
    -20.0 + jsd * dy * dy
  }

  /** j d^2 is never negative for j >= 0. */
  lemma ScaledSquareSign(j: real, d: real)
    ensures j >= 0.0 ==> j * d * d >= 0.0
  {
    assert j * d * d == j * (d * d);
    assert d * d >= 0.0;
  }

  /** The pivot year, the linear rate up to it and the acceleration after it. */
  const PivotYear := 2014.0
  const LinearRate := 0.4
  const Acceleration := 31.0

  function LinearDeltaT(y: real): real {
    64.7 + (y - 2005.0) * LinearRate
  }

  /** Quadratic extrapolation minus the pivot gap, fading out linearly over 100 years. */
  function BlendedDeltaT(y: real): real {
    var dv := DeltatExt(PivotYear, Acceleration) - LinearDeltaT(PivotYear);
    DeltatExt(y, Acceleration) - dv * (PivotYear + 100.0 - y) / 100.0
  }

  /** The branch of TdUtcDeltatT for y >= 2005. */
  function DeltaTExtrapolated(y: real): (r: real)
    requires y >= 2005.0
    ensures y <= 2014.0 ==> 64.7 <= r <= 68.3
  {
    if y <= PivotYear then LinearDeltaT(y)
    else if y < PivotYear + 100.0 then BlendedDeltaT(y)
    else DeltatExt(y, Acceleration)
  }

  /** On [2005, 2014] delta T grows linearly at 0.4 s a year from 64.7 s. */
  lemma LinearPiece(y: real)
    requires 2005.0 <= y <= 2014.0
    ensures DeltaTExtrapolated(y) == 64.7 + 0.4 * (y - 2005.0)
  {
  }

  /** From 2114 on delta T is the pure quadratic deltatExt(y, 31). */
  lemma QuadraticPiece(y: real)
    requires y >= 2114.0
    ensures DeltaTExtrapolated(y) == -20.0 + 31.0 * ((y - 1820.0) / 100.0) * ((y - 1820.0) / 100.0)
  {
  }

  /** The blend meets the linear piece at the pivot (68.3 s) and the quadratic at 2114. */
  lemma SpliceEnds()
    ensures BlendedDeltaT(2014.0) == LinearDeltaT(2014.0) == 68.3
    ensures BlendedDeltaT(2114.0) == DeltatExt(2114.0, 31.0)
  {
  }

  /**
   * Past the pivot the blend stays between 68.3 + 1.4 e and 68.3 + 1.8 e
   * seconds, e years after 2014, so delta T is continuous at 2014.
   */
  lemma {:induction false} SpliceContinuousAfterPivot(y: real)
    requires 2014.0 < y <= 2114.0
    ensures 68.3 + 1.4 * (y - 2014.0) <= DeltaTExtrapolated(y) <= 68.3 + 1.8 * (y - 2014.0)
  {
    var e := y - 2014.0;
    var q := e * e;
    assert 0.0 <= q <= 100.0 * e by {
      ProductSign(e, e);
      ProductSign(e, 100.0 - e);
      assert e * (100.0 - e) == 100.0 * e - e * e;
    }
    BlendAsPolynomial(y);
    assert 0.0031 * e * e == 0.0031 * q;
    assert BlendedDeltaT(y) == 68.3 + 1.486516 * e + 0.0031 * q;
    assert 0.0031 * q <= 0.31 * e;
    if y == 2114.0 {
      SpliceEnds();
    }
  }

  /** ... and the blend strictly increases over the whole century after the pivot. */
  lemma {:induction false} BlendIncreasing(y1: real, y2: real)
    requires 2014.0 < y1 < y2 <= 2114.0
    ensures DeltaTExtrapolated(y1) < DeltaTExtrapolated(y2)
  {
    var e1, e2 := y1 - 2014.0, y2 - 2014.0;
    BlendAsPolynomial(y1);
    BlendAsPolynomial(y2);
    assert 0.0031 * e2 * e2 - 0.0031 * e1 * e1 == 0.0031 * (e2 - e1) * (e2 + e1);
    ProductSign(e2 - e1, e2 + e1);
    assert 0.0031 * (e2 - e1) * (e2 + e1) >= 0.0;
    assert BlendedDeltaT(y1) < BlendedDeltaT(y2);
    if y2 == 2114.0 {
      SpliceEnds();
    }
  }

  lemma ProductSign(a: real, b: real)
    requires a >= 0.0 && b >= 0.0
    ensures a * b >= 0.0
  {
  }

  /** Written in the years past the pivot, the blend is 68.3 + 1.486516 e + 0.0031 e^2. */
  lemma BlendAsPolynomial(y: real)
    ensures BlendedDeltaT(y) == 68.3 + 1.486516 * (y - 2014.0) + 0.0031 * (y - 2014.0) * (y - 2014.0)
  {
    var e := y - 2014.0;
    var dy := (y - 1820.0) / 100.0;
    assert DeltatExt(PivotYear, Acceleration) - LinearDeltaT(PivotYear) == 28.3716;
    assert dy == 1.94 + e / 100.0;
    assert dy * dy == 3.7636 + 0.0388 * e + e * e / 10000.0;
    assert DeltatExt(y, Acceleration) == -20.0 + 31.0 * (dy * dy);
  }

  /** The scan passes row j: j is still below the bound and row j + 1 starts no later than y. */
  predicate PassesRow(y: real, bound: real, j: nat)
    requires j + 1 < RowCount
  {
    j as real < bound && RowYear(j + 1) as real <= y
  }

  /**
   * Where the scan that starts at row i stops: at the first row j >= i whose
   * successor's year exceeds y, unless j reaches the loop bound first.
   */
  function ScanStop(y: real, bound: real, i: nat): (r: nat)
    requires y < 2005.0 && i <= RowCount - 2
    ensures i <= r <= RowCount - 2
    ensures r > i ==> (r - 1) as real < bound && RowYear(r) as real <= y
    ensures forall j :: i <= j < r ==> PassesRow(y, bound, j)
    ensures r as real < bound ==> y < RowYear(r + 1) as real
    decreases RowCount - 2 - i
  {
    if !(i as real < bound) then i
    else if y < RowYear(i + 1) as real then i
    else ScanStop(y, bound, i + 1)
  }

  /** The scan loop of TdUtcDeltatT, with the loop bound as a parameter. */
  method ScanDeltaTable(y: real, bound: real) returns (i: nat)
    requires y < 2005.0
    ensures i == ScanStop(y, bound, 0)
  {
    i := 0;
    while i as real < bound
      invariant i <= RowCount - 2
      invariant ScanStop(y, bound, i) == ScanStop(y, bound, 0)
      decreases RowCount - 2 - i
    {
      if y < RowYear(i + 1) as real {
        break;
      }
      i := i + 1;
    }
  }

  /** Table years strictly increase, so no interval is empty. */
  lemma TableYearsIncrease(i: nat)
    requires i + 1 < RowCount
    ensures RowYear(i) < RowYear(i + 1)
  {
  }

  /** The cubic of row i at year y, with t the position in the interval scaled by 10. */
  function RowCubic(i: nat, y: real): (r: real)
    requires i + 1 < RowCount
    ensures y == RowYear(i) as real ==> r == Row(i).c0
  {
    TableYearsIncrease(i);
    var lo := Row(i);
    var t1 := (y - lo.year as real) / (Row(i + 1).year - lo.year) as real * 10.0;
    var t2 := t1 * t1;
    lo.c0 + lo.c1 * t1 + lo.c2 * t2 + lo.c3 * t2 * t1
  }

  /** delta T in seconds for year y when the scan stops at `bound` passes. */
  function DeltaTSeconds(y: real, bound: real): (r: real)
    ensures y < 2005.0 ==> exists i: nat :: i + 1 < RowCount && r == RowCubic(i, y)
    ensures 2005.0 <= y <= 2014.0 ==> 64.7 <= r <= 68.3
  {
    if y >= 2005.0 then DeltaTExtrapolated(y) else RowCubic(ScanStop(y, bound, 0), y)
  }

  /** The scan bound the source uses, sizeof(DELTA_TB1) / sizeof(DELTA_TB1[0]) = 20 / 5. */
  function AsWrittenBound(): (r: real)
    ensures r == 4.0
  {
    CountOf(TableShape(RowCount, DeltaColumns))
  }

  /** The bound a row count gives, which the bracketing search needs. */
  function RowBound(): real {
    RowCount as real
  }

  method DeltaTWithBound(y: real, bound: real) returns (dt: real)
    ensures dt == DeltaTSeconds(y, bound)
  {
    if y >= 2005.0 {
      var y1, sd, jsd := PivotYear, LinearRate, Acceleration;
      if y <= y1 {
        return 64.7 + (y - 2005.0) * sd;
      }
      var v := DeltatExt(y, jsd);
      var dv := DeltatExt(y1, jsd) - (64.7 + (y1 - 2005.0) * sd);
      if y < y1 + 100.0 {
        v := v - dv * (y1 + 100.0 - y) / 100.0;
      }
      return v;
    }
    var i := ScanDeltaTable(y, bound);
    dt := RowCubic(i, y);
  }

  /** TdUtcDeltatT: the scan is bounded by COUNT_OF(DELTA_TB1) = 20 / 5, so it stops after 4 passes. */
  method TdUtcDeltatT(y: real) returns (dt: real)
    ensures dt == DeltaTSeconds(y, AsWrittenBound())
  {
    dt := DeltaTWithBound(y, RowCount as real / DeltaColumns as real);
  }

  /** TdUtcDeltatT with the scan bounded by the number of rows instead. */
  method TdUtcDeltatTRowBound(y: real) returns (dt: real)
    ensures dt == DeltaTSeconds(y, RowBound())
  {
    dt := DeltaTWithBound(y, RowCount as real);
  }

  /** Rows 0 to 4 start no later than year 500. */
  lemma EarlyRowYears(j: nat)
    requires j <= 4
    ensures RowYear(j) <= 500
  {
  }

  /**
   * As written, the row chosen for y < 2005 is at most 4; below 4 it is a
   * row whose successor starts after y, and every row it passed starts
   * no later than y.
   */
  lemma AsWrittenScanRow(y: real)
    requires y < 2005.0
    ensures ScanStop(y, AsWrittenBound(), 0) <= 4
    ensures ScanStop(y, AsWrittenBound(), 0) > 0 ==> RowYear(ScanStop(y, AsWrittenBound(), 0)) as real <= y
    ensures ScanStop(y, AsWrittenBound(), 0) < 4 ==> y < RowYear(ScanStop(y, AsWrittenBound(), 0) + 1) as real
  {
    assert AsWrittenBound() == 4.0;
  }

  /** So from year 500 to 2004 the source evaluates the 500-900 cubic. */
  lemma AsWrittenUsesRowFour(y: real)
    requires 500.0 <= y < 2005.0
    ensures ScanStop(y, AsWrittenBound(), 0) == 4
    ensures DeltaTSeconds(y, AsWrittenBound()) == RowCubic(4, y)
  {
    AsWrittenScanRow(y);
    var r := ScanStop(y, AsWrittenBound(), 0);
    if r < 4 {
      EarlyRowYears(r + 1);
    }
  }

  /** For 2000 that gives about 8901 s, where the table row for 2000 says 63.87 s. */
  lemma AsWrittenDeltaTAt2000()
    ensures DeltaTSeconds(2000.0, AsWrittenBound()) == 8901.3046875
  {
    AsWrittenUsesRowFour(2000.0);
    assert (2000.0 - 500.0) / (900 - 500) as real * 10.0 == 37.5;
  }

  /** With a row-count bound the scan finds the bracketing interval year[i] <= y < year[i + 1]. */
  lemma RowBoundScanBrackets(y: real)
    requires -4000.0 <= y < 2005.0
    ensures RowYear(ScanStop(y, RowBound(), 0)) as real <= y < RowYear(ScanStop(y, RowBound(), 0) + 1) as real
  {
    var i := ScanStop(y, RowBound(), 0);
    assert i as real < RowBound();
    if i == 0 {
      assert RowYear(0) == -4000;
    }
  }

  /** With that bound the scan for 2000 stops at the row of 2000 ... */
  lemma RowBoundScanAt2000()
    ensures ScanStop(2000.0, RowBound(), 0) == 18
  {
    RowBoundScanBrackets(2000.0);
    var i := ScanStop(2000.0, RowBound(), 0);
    if i < 18 {
      RowYearsUpTo2000(i + 1);
    }
  }

  /** Rows 0 to 18 start no later than 2000. */
  lemma RowYearsUpTo2000(j: nat)
    requires j <= 18
    ensures RowYear(j) <= 2000
  {
  }

  /** ... and delta T for 2000 is that row's 63.87 s. */
  lemma RowBoundDeltaTAt2000()
    ensures DeltaTSeconds(2000.0, RowBound()) == 63.87
  {
    RowBoundScanAt2000();
    assert RowCubic(18, 2000.0) == 63.87;
  }

  /** From 2005 on the scan bound plays no part. */
  lemma BoundIrrelevantFrom2005(y: real, b1: real, b2: real)
    requires y >= 2005.0
    ensures DeltaTSeconds(y, b1) == DeltaTSeconds(y, b2)
  {
  }

  const JD2000 := 2451545.0

  /** The year of a Julian day counted from J2000, in mean Gregorian years. */
  function YearOfJ2000Day(jd2k: real): (y: real)
    ensures y >= 2000.0 <==> jd2k >= 0.0
    ensures y >= 2005.0 <==> jd2k >= 1826.2125
  {
    jd2k / 365.2425 + 2000.0
  }

  /** Every 365.2425 days from J2000 advance the year by exactly one. */
  lemma YearOfJ2000DayStep(jd2k: real, n: int)
    ensures YearOfJ2000Day(jd2k + n as real * 365.2425) == YearOfJ2000Day(jd2k) + n as real
  {
    assert (jd2k + n as real * 365.2425) / 365.2425 == jd2k / 365.2425 + n as real;
  }

  /** TT - UTC in seconds at a Terrestrial-Time Julian day, for a given scan bound. */
  function UtcOffsetSeconds(tdJD: real, bound: real): real {
    DeltaTSeconds(YearOfJ2000Day(tdJD - JD2000), bound)
  }

  /** TdUtcDeltatT2: delta T in days for a Julian day counted from J2000. */
  method TdUtcDeltatT2(jd2k: real) returns (days: real)
    ensures days * 86400.0 == DeltaTSeconds(YearOfJ2000Day(jd2k), AsWrittenBound())
    ensures 2005.0 <= YearOfJ2000Day(jd2k) <= 2014.0 ==> 64.7 <= days * 86400.0 <= 68.3
  {
    var seconds := TdUtcDeltatT(jd2k / 365.2425 + 2000.0);
    days := seconds / 86400.0;
  }

  /** TdUtcDeltatT2 on the row-bounded scan. */
  method TdUtcDeltatT2RowBound(jd2k: real) returns (days: real)
    ensures days * 86400.0 == DeltaTSeconds(YearOfJ2000Day(jd2k), RowBound())
    ensures 2005.0 <= YearOfJ2000Day(jd2k) <= 2014.0 ==> 64.7 <= days * 86400.0 <= 68.3
  {
    var seconds := TdUtcDeltatTRowBound(jd2k / 365.2425 + 2000.0);
    days := seconds / 86400.0;
  }

  /** JDTDtoUTC: a Terrestrial-Time Julian day less delta T. */
  method JDTDtoUTC(tdJD: real) returns (utcJD: real)
    ensures (tdJD - utcJD) * 86400.0 == UtcOffsetSeconds(tdJD, AsWrittenBound())
    ensures 2005.0 <= YearOfJ2000Day(tdJD - JD2000) <= 2014.0 ==> 64.7 <= (tdJD - utcJD) * 86400.0 <= 68.3
  {
    var jd2K := tdJD - JD2000;
    var tian := TdUtcDeltatT2(jd2K);
    utcJD := tdJD - tian;
  }

  /** JDTDtoUTC on the row-bounded scan. */
  method JDTDtoUTCRowBound(tdJD: real) returns (utcJD: real)
    ensures (tdJD - utcJD) * 86400.0 == UtcOffsetSeconds(tdJD, RowBound())
    ensures 2005.0 <= YearOfJ2000Day(tdJD - JD2000) <= 2014.0 ==> 64.7 <= (tdJD - utcJD) * 86400.0 <= 68.3
  {
    var jd2K := tdJD - JD2000;
    var tian := TdUtcDeltatT2RowBound(jd2K);
    utcJD := tdJD - tian;
  }

  /**
   * At J2000 itself JDTDtoUTC subtracts 8901.3046875 s (the 500-900 cubic),
   * where the row-bounded scan subtracts the table's 63.87 s.
   */
  lemma UtcOffsetAtJ2000()
    ensures UtcOffsetSeconds(JD2000, AsWrittenBound()) == 8901.3046875
    ensures UtcOffsetSeconds(JD2000, RowBound()) == 63.87
  {
    assert YearOfJ2000Day(JD2000 - JD2000) == 2000.0;
    AsWrittenDeltaTAt2000();
    RowBoundDeltaTAt2000();
  }

  /** From 2005 on both scans give the same offset. */
  lemma UtcOffsetBoundIrrelevantFrom2005(tdJD: real)
    requires YearOfJ2000Day(tdJD - JD2000) >= 2005.0
    ensures UtcOffsetSeconds(tdJD, AsWrittenBound()) == UtcOffsetSeconds(tdJD, RowBound())
  {
    BoundIrrelevantFrom2005(YearOfJ2000Day(tdJD - JD2000), AsWrittenBound(), RowBound());
  }
}
