/** Conversion between Gregorian dates and Julian day numbers, as the calculator does it:
    floating-point formulas whose constants are written here as exact decimals, with
    Python's `int()` (truncation toward zero) made explicit. */
module EpochConverter {

  /** Python `int(x)` on a float: the integer next to `x` in the direction of zero. */
  function Trunc(x: real): int {
    if x >= 0.0 then x.Floor else -((-x).Floor)
  }

  /** Truncation moves a value toward zero by less than one. */
  lemma TruncBounds(x: real)
    ensures 0.0 <= x ==> Trunc(x) as real <= x < Trunc(x) as real + 1.0
    ensures x < 0.0 ==> Trunc(x) as real - 1.0 < x <= Trunc(x) as real
  {
  }

  datatype Date = Date(year: int, month: int, day: int)

  /** gregorian_to_jd. January and February count as months 13 and 14 of the previous year. */
  function GregorianToJd(year: int, month: int, day: int): int {
    var y := if month < 3 then year - 1 else year;
    var m := if month < 3 then month + 12 else month;
    Trunc(365.25 * y as real) + Trunc(y as real / 400.0) - Trunc(y as real / 100.0)
      + Trunc(30.59 * (m as real - 2.0)) + 1721088 + day
  }

  /** The inverse polynomial of jd_to_gregorian, before its February correction. */
  function RawDateOf(jd: real): Date {
    var x0 := Trunc(jd + 68570.0);
    var x1 := Trunc(x0 as real / 36524.25);
    var x2 := x0 - Trunc(36524.25 * x1 as real + 0.75);
    DateInCentury(x1, x2)
  }

  /** The second half of the inverse polynomial: `x1` counts centuries, `x2` days into one. */
  function DateInCentury(x1: int, x2: int): Date {
    var x3 := Trunc((x2 + 1) as real / 365.2425);
    var x4 := x2 - Trunc(365.25 * x3 as real) + 31;
    var x5 := Trunc(x4 as real / 30.59);
    var x6 := Trunc(x5 as real / 11.0);
    Date(100 * (x1 - 49) + x3 + x6, x5 - 12 * x6 + 2, x4 - Trunc(30.59 * x5 as real))
  }

  /** The "February 30" correction: a February day above 28 becomes 29 in a year divisible
      by 4 and 28 otherwise. The code has no century exception, so 1900 also gets 29. */
  function ClampFebruary(d: Date): (r: Date)
    ensures r.year == d.year && r.month == d.month
    ensures d.month == 2 && d.day > 28 ==> r.day == (if d.year % 4 == 0 then 29 else 28)
    ensures !(d.month == 2 && d.day > 28) ==> r.day == d.day
    ensures r.month == 2 ==> r.day <= 29
  {
    if d.month == 2 && d.day > 28 then
      if d.year % 100 == 0 && d.year % 400 == 0 then d.(day := 29)
      else if d.year % 4 == 0 then d.(day := 29)
      else d.(day := 28)
    else d
  }

  /** jd_to_gregorian. */
  function JdToGregorian(jd: real): Date {
    ClampFebruary(RawDateOf(jd))
  }

  // ---------------------------------------------------------------------------------------
  // The Gregorian calendar the conversions are meant to agree with.

  predicate IsLeapYear(y: int) {
    y % 4 == 0 && (y % 100 != 0 || y % 400 == 0)
  }

  function DaysInMonth(y: int, m: int): int
    requires 1 <= m <= 12
  {
    if m == 2 then (if IsLeapYear(y) then 29 else 28)
    else if m == 4 || m == 6 || m == 9 || m == 11 then 30
    else 31
  }

  /** A real calendar date from 1 January of year 1 on. */
  predicate ValidDate(d: Date) {
    d.year >= 1 && 1 <= d.month <= 12 && 1 <= d.day <= DaysInMonth(d.year, d.month)
  }

  /** Days from 1 March of year 0 to 1 March of the March-based year `y`. */
  function DaysBeforeYear(y: nat): nat {
    365 * y + y / 4 - y / 100 + y / 400
  }

  /** Days from 1 March to the first of month `m`, counting March as 3 and February as 14. */
  function DaysBeforeMonth(m: int): int
    requires 3 <= m <= 14
  {
    [0, 31, 61, 92, 122, 153, 184, 214, 245, 275, 306, 337][m - 3]
  }

  /** The second half of the inverse polynomial with each truncation an integer division. */
  function DateInCenturyInt(x1: int, x2: int): Date {
    var x3 := (400 * (x2 + 1)) / 146097;
    var x4 := x2 - (1461 * x3) / 4 + 31;
    var x5 := (100 * x4) / 3059;
    var x6 := x5 / 11;
    Date(100 * (x1 - 49) + x3 + x6, x5 - 12 * x6 + 2, x4 - (3059 * x5) / 100)
  }
}
