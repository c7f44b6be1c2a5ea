/**
 * Angle normalisation and the Newton start point of the solar-term solver
 * (src/SolarTerm.php: Mod360Degree, GetInitialEstimateSolarTerms and the
 * 0-degree guard inside CalculateSolarTerms).
 */
module Angles {
  import opened Numeric
  import Calendar

  /** k whole turns, in degrees. */
  function Turns(k: int): real {
    360.0 * k as real
  }

  /** How many whole turns the two loops of Mod360Degree add (negative: remove). */
  function TurnsAdded(degrees: real): int {
    if degrees < 0.0 then -(degrees / 360.0).Floor
    else if degrees > 360.0 then 1 - Ceil(degrees / 360.0)
    else 0
  }

  /**
   * The value Mod360Degree returns: in [0, 360], never 360 for a non-positive
   * input, never 0 for a positive one, and a whole number of turns away from
   * the input.
   */
  function Normalized360(degrees: real): (r: real)
    ensures 0.0 <= r <= 360.0
    ensures degrees <= 0.0 ==> r < 360.0
    ensures degrees > 0.0 ==> r > 0.0
    ensures 0.0 <= degrees <= 360.0 ==> r == degrees
    ensures exists k :: r == degrees + Turns(k)
  {
    degrees + Turns(TurnsAdded(degrees))
  }

  /** Those properties determine the result: any other value with them is the same one. */
  lemma {:induction false} Normalized360Unique(degrees: real, r: real, k: int)
    requires r == degrees + Turns(k)
    requires 0.0 <= r <= 360.0
    requires degrees <= 0.0 ==> r < 360.0
    requires degrees > 0.0 ==> r > 0.0
    ensures r == Normalized360(degrees)
  {
    var n := Normalized360(degrees);
    var j := k - TurnsAdded(degrees);
    assert r - n == Turns(j);
  }

  /** Normalising twice is normalising once. */
  lemma Normalized360Idempotent(degrees: real)
    ensures Normalized360(Normalized360(degrees)) == Normalized360(degrees)
  {
  }

  /** The two while-loops of the source: add 360 while negative, then subtract 360 while above 360. */
  method Mod360Degree(degrees: real) returns (r: real)
    ensures r == Normalized360(degrees)
  {
    r := degrees;
    ghost var k := 0;
    while r < 0.0
      invariant r == degrees + Turns(k)
      invariant k >= 0 && (k > 0 ==> r < 360.0)
      decreases if r < 0.0 then (-r).Floor + 1 else 0
    {
      r := r + 360.0;
      k := k + 1;
    }
    while r > 360.0
      invariant r == degrees + Turns(k)
      invariant r >= 0.0
      invariant k <= 0 || r < 360.0
      invariant k < 0 ==> r > 0.0
      decreases if r > 360.0 then r.Floor else 0
    {
      r := r - 360.0;
      k := k - 1;
    }
    Normalized360Unique(degrees, r, k);
  }

  /**
   * The guard of the Newton iteration: only for the 0-degree target is a
   * longitude above 345 degrees read as the same angle less one turn.
   */
  function ZeroAngleWrap(angle: int, longitude: real): (r: real)
    ensures angle != 0 ==> r == longitude
    ensures r == longitude || r == longitude - 360.0
    ensures angle == 0 && 0.0 <= longitude <= 360.0 ==> -15.0 < r <= 345.0
  {
    if angle == 0 && longitude > 345.0 then longitude - 360.0 else longitude
  }

  /** Month of the start point: the 30-degree sector the angle belongs to, counted from March. */
  function EstimateMonth(angle: int): (m: int)
    ensures -90 < angle < 360 ==> 1 <= m <= 12
  {
    var month := Ceil((angle as real + 90.0) / 30.0);
    if month > 12 then month - 12 else month
  }

  /** Day of the start point: 6 for a first-of-month term, 20 for a second one. */
  function EstimateDay(angle: int): (d: int)
    ensures d == 6 || d == 20
    ensures d == 6 <==> angle % 30 == 15
  {
    if angle % 15 == 0 && angle % 30 != 0 then 6 else 20
  }

  /** The Newton start point: noon of the estimated civil day. */
  function GetInitialEstimateSolarTerms(year: int, angle: int): (r: real)
    ensures r == Calendar.CalculateJulianDay(year, EstimateMonth(angle), EstimateDay(angle), 0, 0, 0.0) + 0.5
  {
    Calendar.CalculateJulianDay(year, EstimateMonth(angle), EstimateDay(angle), 12, 0, 0.0)
  }

  /**
   * For the k-th term (angle 15 k) the start day is the 6th for odd k and
   * the 20th for even k, in month ceil((15 k + 90) / 30) wrapped into 1..12.
   */
  lemma {:induction false} EstimateDateOfTerm(k: int)
    requires 0 <= k < 24
    ensures 1 <= EstimateMonth(15 * k) <= 12
    ensures EstimateMonth(15 * k) == ((k + 7) / 2 + 11) % 12 + 1
    ensures EstimateDay(15 * k) == if k % 2 == 1 then 6 else 20
  {
    assert ((15 * k) as real + 90.0) / 30.0 == k as real / 2.0 + 3.0;
    if k % 2 == 0 {
      assert k as real / 2.0 + 3.0 == ((k + 7) / 2) as real;
    } else {
      assert k as real / 2.0 + 3.0 == ((k + 7) / 2) as real - 0.5;
    }
    assert Ceil(((15 * k) as real + 90.0) / 30.0) == (k + 7) / 2;
    assert (15 * k) % 30 == 15 * (k % 2);
  }

  /** The Newton start point of the k-th term is noon of that estimated day. */
  lemma InitialEstimateOfTerm(year: int, k: int)
    requires 0 <= k < 24
    ensures GetInitialEstimateSolarTerms(year, 15 * k)
         == Calendar.CalculateJulianDay(year, ((k + 7) / 2 + 11) % 12 + 1, if k % 2 == 1 then 6 else 20, 12, 0, 0.0)
  {
    EstimateDateOfTerm(k);
  }

  /**
   * Each month holds one early and one late start point: term 2m - 1 and
   * term 2m share a month, and for m = 12 that is term 23 on 6 March with
   * term 0 on 20 March.
   */
  lemma MonthPairs(m: int)
    requires 1 <= m <= 12
    ensures EstimateMonth(15 * (2 * m - 1)) == EstimateMonth(15 * ((2 * m) % 24))
    ensures EstimateDay(15 * (2 * m - 1)) == 6 && EstimateDay(15 * ((2 * m) % 24)) == 20
  {
    if m == 12 {
      EstimateDateOfTerm(23);
      EstimateDateOfTerm(0);
    } else {
      var k := 2 * m;
      assert k % 24 == k;
      EstimateDateOfTerm(k - 1);
      EstimateDateOfTerm(k);
      assert (k - 1 + 7) / 2 == m + 3 == (k + 7) / 2;
      assert (k - 1) % 2 == 1 && k % 2 == 0;
    }
  }

  /** The 24 terms start from 24 different civil days. */
  lemma InitialEstimatesDistinct(k1: int, k2: int)
    requires 0 <= k1 < 24 && 0 <= k2 < 24 && k1 != k2
    ensures (EstimateMonth(15 * k1), EstimateDay(15 * k1)) != (EstimateMonth(15 * k2), EstimateDay(15 * k2))
  {
    EstimateDateOfTerm(k1);
    EstimateDateOfTerm(k2);
    if k1 % 2 == k2 % 2 {
      SectorsDistinct(k1, k2);
    }
  }

  /**
   * Two different terms of the same parity have different sectors: the
   * indices (k + 7) / 2 lie in 3..15, and only k = 0 and k = 23 give 3 and 15.
   */
  lemma SectorsDistinct(k1: int, k2: int)
    requires 0 <= k1 < 24 && 0 <= k2 < 24 && k1 != k2 && k1 % 2 == k2 % 2
    ensures ((k1 + 7) / 2 + 11) % 12 != ((k2 + 7) / 2 + 11) % 12
  {
    var a1, a2 := (k1 + 7) / 2, (k2 + 7) / 2;
    assert a1 != a2 && 3 <= a1 <= 15 && 3 <= a2 <= 15;
    assert a1 + 12 != a2 && a2 + 12 != a1;
  }

  /** The vernal equinox starts from 20 March, the winter solstice from 20 December. */
  lemma InitialEstimateExamples(year: int)
    ensures GetInitialEstimateSolarTerms(year, 0) == Calendar.CalculateJulianDay(year, 3, 20, 12, 0, 0.0)
    ensures GetInitialEstimateSolarTerms(year, 270) == Calendar.CalculateJulianDay(year, 12, 20, 12, 0, 0.0)
  {
    assert EstimateMonth(0) == 3 && EstimateDay(0) == 20;
    assert EstimateMonth(270) == 12 && EstimateDay(270) == 20;
  }
}
