/** The solar-term and new-moon solvers, seen from the month-table assembly. The periodic
    series of the solar longitude and the refinement loops are numerical and are parameters
    here (an `Ephemeris`); what is modelled is how the solvers pick their target longitude
    and where they store their results. */
module SolarTerms {
  import opened AngleMath
  import opened EpochConverter

  /** The numerical parts the model does not interpret.
      - sunPeriodic(t): the sum of the periodic terms of longitude_sun at century offset t;
      - termRefine(tm, target): the instant the refinement loop of calc_chu and before_nibun
        settles on when started at `tm` toward the longitude `target`;
      - newMoon(tm): the instant calc_saku returns for the initial guess `tm`. */
  datatype Ephemeris = Ephemeris(
    sunPeriodic: real -> real,
    termRefine: (real, real) -> real,
    newMoon: real -> real)

  /** A solar term: the instant it was found at and the longitude it targets (chu[i]). */
  datatype Term = Term(instant: real, longitude: real)

  /** The Julian-century offset the solvers evaluate the series at: the day and the time of
      day are split, the time is moved back 9 hours, and both are measured from 2451545. */
  function CenturyOffset(tm: real): (t: real)
    ensures t == (tm - 9.0 / 24.0 + 0.5 - 2451545.0) / 36525.0
  {
    var tm1 := Trunc(tm);
    var tm2 := tm - tm1 as real - 9.0 / 24.0;
    (tm2 + 0.5) / 36525.0 + (tm1 as real - 2451545.0) / 36525.0
  }

  /** longitude_sun: the periodic terms plus the mean longitude 36000.7695 t + 280.4659,
      normalized after each addition. */
  function LongitudeSun(eph: Ephemeris, t: real): (r: real)
    ensures 0.0 <= r < 360.0
  {
    var ang := Normalized(Normalized(36000.7695 * t) + 280.4659);
    Normalized(eph.sunPeriodic(t) + ang)
  }

  /** The intermediate normalizations of longitude_sun only pick a representative. */
  lemma LongitudeSunIsNormalizedSum(eph: Ephemeris, t: real)
    ensures LongitudeSun(eph, t) == Normalized(eph.sunPeriodic(t) + 36000.7695 * t + 280.4659)
  {
    var a := 36000.7695 * t;
    var i := ((Normalized(a) - a) / 360.0).Floor;
    var b := Normalized(a) + 280.4659;
    var j := ((Normalized(b) - b) / 360.0).Floor;
    NormalizedPeriodic(eph.sunPeriodic(t) + a + 280.4659, i + j);
    assert eph.sunPeriodic(t) + Normalized(b)
      == eph.sunPeriodic(t) + a + 280.4659 + 360.0 * (i + j) as real;
  }

  /** The target of a solver: the solar longitude at `tm`, rounded down to a multiple of
      `step` (90 for before_nibun, 30 for calc_chu). */
  function TargetLongitude(eph: Ephemeris, tm: real, step: real): (r: real)
    requires step == 30.0 || step == 90.0
    ensures 0.0 <= r <= LongitudeSun(eph, CenturyOffset(tm)) < r + step
    ensures (r / step).Floor as real * step == r
  {
    var rmSun := LongitudeSun(eph, CenturyOffset(tm));
    var k := Trunc(rmSun / step);
    assert k == (rmSun / step).Floor && k as real <= rmSun / step < k as real + 1.0;
    assert step * k as real / step == k as real;
    step * k as real
  }

  /** The target is a whole number of steps. */
  lemma TargetMultiple(eph: Ephemeris, tm: real, step: real)
    requires step == 30.0 || step == 90.0
    ensures (TargetLongitude(eph, tm, step) / step).Floor as real * step == TargetLongitude(eph, tm, step)
  {
  }

  /** The term a solver stores: the refined instant and the target longitude. */
  function SolarTerm(eph: Ephemeris, tm: real, step: real): (r: Term)
    requires step == 30.0 || step == 90.0
    ensures 0.0 <= r.longitude < 360.0 && (r.longitude / step).Floor as real * step == r.longitude
    ensures r.instant == eph.termRefine(tm, r.longitude)
  {
    TargetMultiple(eph, tm, step);
    var target := TargetLongitude(eph, tm, step);
    Term(eph.termRefine(tm, target), target)
  }

  /** A quarter term targets one of the four longitudes 0, 90, 180 and 270. */
  lemma QuarterTermLongitude(eph: Ephemeris, tm: real)
    ensures var lon := SolarTerm(eph, tm, 90.0).longitude;
            lon == 0.0 || lon == 90.0 || lon == 180.0 || lon == 270.0
  {
    var lon := SolarTerm(eph, tm, 90.0).longitude;
    var k := (lon / 90.0).Floor;
    assert 0 <= k < 4;
  }

  /** before_nibun: finds the last quarter term before `tm` and writes it to nibun[0]. */
  method BeforeNibun(eph: Ephemeris, tm: real, nibun: array<Term>)
    requires nibun.Length >= 1
    modifies nibun
    ensures nibun[0] == SolarTerm(eph, tm, 90.0)
    ensures forall j :: 1 <= j < nibun.Length ==> nibun[j] == old(nibun[j])
  {
    var t := CenturyOffset(tm);
    var rmSun := LongitudeSun(eph, t);
    var rmSun0 := 90.0 * Trunc(rmSun / 90.0) as real;
    nibun[0] := Term(eph.termRefine(tm, rmSun0), rmSun0);
  }

  /** calc_chu: finds the principal term near `tm` and writes it to chu[i], and only there. */
  method CalcChu(eph: Ephemeris, tm: real, i: nat, chu: array<Term>)
    requires i < chu.Length
    modifies chu
    ensures chu[i] == SolarTerm(eph, tm, 30.0)
    ensures forall j :: 0 <= j < chu.Length && j != i ==> chu[j] == old(chu[j])
  {
    var t := CenturyOffset(tm);
    var rmSun := LongitudeSun(eph, t);
    var rmSun0 := 30.0 * Trunc(rmSun / 30.0) as real;
    chu[i] := Term(eph.termRefine(tm, rmSun0), rmSun0);
  }
}
