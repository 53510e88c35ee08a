/** Why the conversions of EpochConverter invert each other: each truncated float step is an
    integer division, the day count of gregorian_to_jd splits into century, year and day, and
    the inverse polynomial walks the same split back. */
module EpochRoundTrip {
  import opened EpochConverter

  // ---------------------------------------------------------------------------------------
  // Integer division by the constants of the formulas, from a quotient that is known.

  lemma DivBy4(a: int, q: int)
    requires 4 * q <= a < 4 * (q + 1)
    ensures a / 4 == q && a % 4 == a - 4 * q
  {
  }

  lemma DivBy100(a: int, q: int)
    requires 100 * q <= a < 100 * (q + 1)
    ensures a / 100 == q && a % 100 == a - 100 * q
  {
  }

  lemma DivBy400(a: int, q: int)
    requires 400 * q <= a < 400 * (q + 1)
    ensures a / 400 == q && a % 400 == a - 400 * q
  {
  }

  lemma DivBy1461(a: int, q: int)
    requires 1461 * q <= a < 1461 * (q + 1)
    ensures a / 1461 == q
  {
  }

  lemma DivBy3059(a: int, q: int)
    requires 3059 * q <= a < 3059 * (q + 1)
    ensures a / 3059 == q
  {
  }

  lemma DivBy146097(a: int, q: int)
    requires 146097 * q <= a < 146097 * (q + 1)
    ensures a / 146097 == q
  {
  }

  // ---------------------------------------------------------------------------------------
  // The truncated float steps as integer divisions (all operands are non-negative here).

  lemma TruncOfWhole(x: int)
    ensures Trunc(x as real) == x
  {
  }

  /** int(n / 365.2425), one Gregorian year being 146097 / 400 days. */
  lemma TruncYearQuot(n: nat)
    ensures Trunc(n as real / 365.2425) == (400 * n) / 146097
  {
    var q := (400 * n) / 146097;
    assert 146097 * q <= 400 * n < 146097 * (q + 1);
    assert q as real <= n as real / 365.2425 < (q + 1) as real;
  }

  /** int(365.25 * n), one Julian year being 1461 / 4 days. */
  lemma TruncYearSteps(n: nat)
    ensures Trunc(365.25 * n as real) == (1461 * n) / 4
  {
    var q := (1461 * n) / 4;
    assert 4 * q <= 1461 * n < 4 * (q + 1);
  }

  /** int(30.59 * (m - 2)), the month offset of gregorian_to_jd. */
  lemma TruncMonthOffset(m: int)
    requires m >= 2
    ensures Trunc(30.59 * (m as real - 2.0)) == (3059 * (m - 2)) / 100
  {
    var q := (3059 * (m - 2)) / 100;
    assert 100 * q <= 3059 * (m - 2) < 100 * (q + 1);
  }

  /** int(n / 30.59). */
  lemma TruncMonthQuot(n: nat)
    ensures Trunc(n as real / 30.59) == (100 * n) / 3059
  {
    var q := (100 * n) / 3059;
    assert 3059 * q <= 100 * n < 3059 * (q + 1);
    assert q as real <= n as real / 30.59 < (q + 1) as real;
  }

  /** int(30.59 * n). */
  lemma TruncMonthSteps(n: nat)
    ensures Trunc(30.59 * n as real) == (3059 * n) / 100
  {
    var q := (3059 * n) / 100;
    assert 100 * q <= 3059 * n < 100 * (q + 1);
  }

  lemma TruncEleven(n: nat)
    ensures Trunc(n as real / 11.0) == n / 11
  {
    var q := n / 11;
    assert 11 * q <= n < 11 * (q + 1);
  }

  /** int(n / 36524.25), one Gregorian century being 146097 / 4 days. */
  lemma TruncCenturyQuot(n: nat)
    ensures Trunc(n as real / 36524.25) == (4 * n) / 146097
  {
    var q := (4 * n) / 146097;
    assert 146097 * q <= 4 * n < 146097 * (q + 1);
    assert q as real <= n as real / 36524.25 < (q + 1) as real;
  }

  /** int(36524.25 * n + 0.75). */
  lemma TruncCenturySteps(n: nat)
    ensures Trunc(36524.25 * n as real + 0.75) == (146097 * n + 3) / 4
  {
    var q := (146097 * n + 3) / 4;
    assert 4 * q <= 146097 * n + 3 < 4 * (q + 1);
  }

  lemma TruncByHundreds(y: nat)
    ensures Trunc(y as real / 400.0) == y / 400 && Trunc(y as real / 100.0) == y / 100
  {
    var q, h := y / 400, y / 100;
    assert 400 * q <= y < 400 * (q + 1) && 100 * h <= y < 100 * (h + 1);
    assert q as real <= y as real / 400.0 < (q + 1) as real;
    assert h as real <= y as real / 100.0 < (h + 1) as real;
  }

  /** The year step of DateInCentury with its truncations as integer divisions. */
  lemma YearStepIsInt(x2: nat)
    requires x2 < 36525
    ensures Trunc((x2 + 1) as real / 365.2425) == (400 * (x2 + 1)) / 146097
    ensures x2 - Trunc(365.25 * Trunc((x2 + 1) as real / 365.2425) as real) + 31
         == x2 - (1461 * ((400 * (x2 + 1)) / 146097)) / 4 + 31 >= 0
  {
    TruncYearQuot(x2 + 1);
    var x3 := (400 * (x2 + 1)) / 146097;
    assert 0 <= x3 && 146097 * x3 <= 400 * (x2 + 1);
    TruncYearSteps(x3);
  }

  /** The month step of DateInCentury with its truncations as integer divisions. */
  lemma MonthStepIsInt(x4: nat)
    ensures Trunc(x4 as real / 30.59) == (100 * x4) / 3059
    ensures Trunc(Trunc(x4 as real / 30.59) as real / 11.0) == ((100 * x4) / 3059) / 11
    ensures Trunc(30.59 * Trunc(x4 as real / 30.59) as real) == (3059 * ((100 * x4) / 3059)) / 100
  {
    TruncMonthQuot(x4);
    var x5 := (100 * x4) / 3059;
    TruncEleven(x5);
    TruncMonthSteps(x5);
  }

  lemma DateInCenturyIsInt(x1: int, x2: nat)
    requires x2 < 36525
    ensures DateInCentury(x1, x2) == DateInCenturyInt(x1, x2)
  {
    YearStepIsInt(x2);
    MonthStepIsInt(x2 - Trunc(365.25 * Trunc((x2 + 1) as real / 365.2425) as real) + 31);
  }

  // ---------------------------------------------------------------------------------------
  // Day counts.

  /** The day count of gregorian_to_jd is a plain count of days since 1 March of year 0. */
  lemma GregorianToJdCounts(d: Date)
    requires ValidDate(d)
    ensures var y := if d.month < 3 then d.year - 1 else d.year;
            var m := if d.month < 3 then d.month + 12 else d.month;
            y >= 0 && GregorianToJd(d.year, d.month, d.day)
              == DaysBeforeYear(y) + DaysBeforeMonth(m) + d.day - 1 + 1721119
  {
    var y: nat := if d.month < 3 then d.year - 1 else d.year;
    var m := if d.month < 3 then d.month + 12 else d.month;
    TruncYearSteps(y);
    DivBy4(1461 * y, 365 * y + y / 4);
    TruncByHundreds(y);
    TruncMonthOffset(m);
    assert (3059 * (m - 2)) / 100 == DaysBeforeMonth(m) + 30;
  }

  /** Days from 1 March of year 0 to 1 March of the year 100 * c. */
  function CenturyStart(c: nat): nat {
    36524 * c + c / 4
  }

  /** Length of the March-based year 100 * c + r, whose February lies in the next year. */
  function YearLength(c: nat, r: nat): nat {
    if IsLeapYear(100 * c + r + 1) then 366 else 365
  }

  lemma DaysBeforeYearSplit(c: nat, r: nat)
    requires r < 100
    ensures DaysBeforeYear(100 * c + r) == CenturyStart(c) + 365 * r + r / 4
  {
    var y := 100 * c + r;
    DivBy4(y, 25 * c + r / 4);
    DivBy100(y, c);
    DivBy400(y, c / 4);
  }

  /** A century has one day more than 36524 exactly when its last year is a leap year. */
  lemma CenturyLength(c: nat)
    ensures CenturyStart(c + 1) - CenturyStart(c) == 36524 + YearLength(c, 99) - 365
  {
    var q, s := c / 4, c % 4;
    var y := 100 * c + 100;
    DivBy4(c + 1, if s == 3 then q + 1 else q);
    DivBy4(y, 25 * c + 25);
    DivBy100(y, c + 1);
    DivBy400(y, if s == 3 then q + 1 else q);
  }

  /** Every day of a century lies before the next century's start. */
  lemma CenturyBound(c: nat, r: nat, t: nat)
    requires r < 100 && t < YearLength(c, r)
    ensures 365 * r + r / 4 + t < CenturyStart(c + 1) - CenturyStart(c) <= 36525
  {
    CenturyLength(c);
    if r < 99 {
      assert r / 4 <= 24;
    }
  }

  /** A leap March-based year ends in a year divisible by 4; a common one ending in a year
      divisible by 4 can only be the last year of a century. */
  lemma LeapYearShape(c: nat, r: nat)
    requires r < 100
    ensures YearLength(c, r) == 366 ==> r % 4 == 3
    ensures YearLength(c, r) == 365 && r % 4 == 3 ==> r == 99
    ensures (100 * c + r + 1) % 4 == (r + 1) % 4
  {
    var y := 100 * c + r + 1;
    var q, s := r / 4, r % 4;
    if s == 3 {
      DivBy4(y, 25 * c + q + 1);
      DivBy4(r + 1, q + 1);
      if r < 99 {
        DivBy100(y, c);
      }
    } else {
      DivBy4(y, 25 * c + q);
      DivBy4(r + 1, q);
    }
  }

  /** The first half of the inverse polynomial finds the century and the day within it. */
  lemma CenturyOfCount(c: nat, n': nat, jd: int)
    requires n' < CenturyStart(c + 1) - CenturyStart(c)
    requires jd == CenturyStart(c) + n' + 1721119
    ensures Trunc(Trunc(jd as real + 68570.0) as real / 36524.25) == c + 49
    ensures Trunc(jd as real + 68570.0)
      - Trunc(36524.25 * Trunc(Trunc(jd as real + 68570.0) as real / 36524.25) as real + 0.75) == n'
  {
    var q, s := c / 4, c % 4;
    DivBy4(c + 1, if s == 3 then q + 1 else q);
    var x0 := jd + 68570;
    TruncOfWhole(x0);
    TruncCenturyQuot(x0);
    DivBy146097(4 * x0, c + 49);
    TruncCenturySteps(c + 49);
    DivBy4(146097 * (c + 49) + 3, 36524 * c + 1789689 + q);
  }

  /** The year step of the inverse polynomial. It lands on the right year, except on the last
      day of some years, where it overshoots into the next year and leaves a "February 30". */
  lemma YearOfDay(c: nat, r: nat, t: nat, x2: int) returns (overshoot: bool)
    requires r < 100 && t < YearLength(c, r) && x2 == 365 * r + r / 4 + t
    ensures var x3 := (400 * (x2 + 1)) / 146097;
            if overshoot then
              x3 == r + 1 && x2 - (1461 * x3) / 4 == -1 && t == YearLength(c, r) - 1 &&
              ((100 * c + r + 1) % 4 == 0 <==> YearLength(c, r) == 366)
            else
              x3 == r && x2 - (1461 * x3) / 4 == t
  {
    var q, s := r / 4, r % 4;
    LeapYearShape(c, r);
    DivBy4(1461 * r, 365 * r + q);
    DivBy4(r + 1, if s == 3 then q + 1 else q);
    overshoot := 400 * (x2 + 1) >= 146097 * (r + 1);
    if overshoot {
      DivBy146097(400 * (x2 + 1), r + 1);
      DivBy4(1461 * (r + 1), 365 * (r + 1) + (r + 1) / 4);
    } else {
      DivBy146097(400 * (x2 + 1), r);
    }
  }

  /** The month step of the inverse polynomial, for a day `d` of the March-based month `m`
      (February may have 29 days here). */
  lemma MonthOfDay(m: int, d: int)
    requires 3 <= m <= 14
    requires 1 <= d <= [31, 30, 31, 30, 31, 31, 30, 31, 30, 31, 31, 29][m - 3]
    ensures var x4 := DaysBeforeMonth(m) + d - 1 + 31;
            var x5 := (100 * x4) / 3059;
            x5 == m - 2 && x5 / 11 == (if m >= 13 then 1 else 0) && x4 - (3059 * x5) / 100 == d
  {
    var x4 := DaysBeforeMonth(m) + d - 1 + 31;
    DivBy3059(100 * x4, m - 2);
    DivBy100(3059 * (m - 2), DaysBeforeMonth(m) + 30);
  }

  /** The second half of the inverse polynomial when the year step lands on the right year. */
  lemma DateInCenturyRegular(c: nat, r: nat, m: int, d: int, x2: int)
    requires r < 100 && 3 <= m <= 14
    requires 1 <= d <= [31, 30, 31, 30, 31, 31, 30, 31, 30, 31, 31, 29][m - 3]
    requires (400 * (x2 + 1)) / 146097 == r && x2 - (1461 * r) / 4 == DaysBeforeMonth(m) + d - 1
    ensures DateInCenturyInt(c + 49, x2)
      == if m >= 13 then Date(100 * c + r + 1, m - 12, d) else Date(100 * c + r, m, d)
  {
    MonthOfDay(m, d);
  }

  /** The second half of the inverse polynomial when the year step overshoots. */
  lemma DateInCenturyOvershoot(c: nat, x2: int)
    requires x2 - (1461 * ((400 * (x2 + 1)) / 146097)) / 4 == -1
    ensures DateInCenturyInt(c + 49, x2) == Date(100 * c + (400 * (x2 + 1)) / 146097, 2, 30)
  {
  }

  /** Month lengths counted from March, with February at its longest. */
  lemma MonthLengthOfValid(d: Date, m: int)
    requires ValidDate(d) && m == (if d.month < 3 then d.month + 12 else d.month)
    ensures 3 <= m <= 14 && d.day <= [31, 30, 31, 30, 31, 31, 30, 31, 30, 31, 31, 29][m - 3]
    ensures m == 14 && d.day == 29 ==> d.year % 4 == 0
  {
  }

  /** The second half of the inverse polynomial on day `d` of the March-based month `m` of
      the year `r` of century `c`: the right date, or the "February 30" of the next year. */
  lemma DateInCenturyOfDay(c: nat, r: nat, m: int, d: int, x2: int) returns (overshoot: bool)
    requires r < 100 && 3 <= m <= 14
    requires 1 <= d <= [31, 30, 31, 30, 31, 31, 30, 31, 30, 31, 31, 29][m - 3]
    requires DaysBeforeMonth(m) + d - 1 < YearLength(c, r)
    requires x2 == 365 * r + r / 4 + DaysBeforeMonth(m) + d - 1
    ensures var raw := DateInCenturyInt(c + 49, x2);
            if overshoot then
              raw == Date(100 * c + r + 1, 2, 30) && m == 14 &&
              DaysBeforeMonth(m) + d - 1 == YearLength(c, r) - 1 &&
              ((100 * c + r + 1) % 4 == 0 <==> YearLength(c, r) == 366)
            else
              raw == if m >= 13 then Date(100 * c + r + 1, m - 12, d) else Date(100 * c + r, m, d)
  {
    overshoot := YearOfDay(c, r, DaysBeforeMonth(m) + d - 1, x2);
    if overshoot {
      DateInCenturyOvershoot(c, x2);
    } else {
      DateInCenturyRegular(c, r, m, d, x2);
    }
  }

  /** The day count of a valid date, split into century, year of the century and day of
      the March-based year. */
  lemma CountOfDate(d: Date) returns (c: nat, r: nat, m: int)
    requires ValidDate(d)
    ensures r < 100 && 3 <= m <= 14 && m == (if d.month < 3 then d.month + 12 else d.month)
    ensures 100 * c + r == (if d.month < 3 then d.year - 1 else d.year)
    ensures DaysBeforeMonth(m) + d.day - 1 < YearLength(c, r)
    ensures GregorianToJd(d.year, d.month, d.day)
      == CenturyStart(c) + 365 * r + r / 4 + DaysBeforeMonth(m) + d.day - 1 + 1721119
  {
    var y: nat := if d.month < 3 then d.year - 1 else d.year;
    m := if d.month < 3 then d.month + 12 else d.month;
    c, r := y / 100, y % 100;
    GregorianToJdCounts(d);
    DaysBeforeYearSplit(c, r);
    assert m == 14 ==> d.year == 100 * c + r + 1;
  }

  /** The century step of the inverse polynomial feeds the second half. */
  lemma RawDateOfHalves(jd: int)
    ensures var x0 := Trunc(jd as real + 68570.0);
            var x1 := Trunc(x0 as real / 36524.25);
            RawDateOf(jd as real) == DateInCentury(x1, x0 - Trunc(36524.25 * x1 as real + 0.75))
  {
  }

  /** The inverse polynomial, once its first half is known to give century c + 49 and day
      x2 of it. */
  lemma RawDateOfSteps(jd: int, c: nat, x2: nat)
    requires x2 < 36525
    requires Trunc(Trunc(jd as real + 68570.0) as real / 36524.25) == c + 49
    requires Trunc(jd as real + 68570.0)
      - Trunc(36524.25 * Trunc(Trunc(jd as real + 68570.0) as real / 36524.25) as real + 0.75) == x2
    ensures RawDateOf(jd as real) == DateInCenturyInt(c + 49, x2)
  {
    RawDateOfHalves(jd);
    DateInCenturyIsInt(c + 49, x2);
  }

  /** jd_to_gregorian inverts gregorian_to_jd on every date from year 1 on. The "February 30"
      that the inverse polynomial leaves on the last day of some years is exactly what the
      February correction repairs. */
  lemma RoundTrip(d: Date)
    requires ValidDate(d)
    ensures JdToGregorian(GregorianToJd(d.year, d.month, d.day) as real) == d
  {
    var c, r, m := CountOfDate(d);
    var t: nat := DaysBeforeMonth(m) + d.day - 1;
    var x2 := 365 * r + r / 4 + t;
    var jd := GregorianToJd(d.year, d.month, d.day);
    CenturyBound(c, r, t);
    CenturyOfCount(c, x2, jd);
    RawDateOfSteps(jd, c, x2);
    ClampedDateOfDay(d, c, r, m, t, x2);
  }

  /** The corrected second half of the inverse polynomial gives back the date whose day count
      was split into century `c`, year `r` and day `t` of the March-based month `m`. */
  lemma ClampedDateOfDay(d: Date, c: nat, r: nat, m: int, t: nat, x2: int)
    requires ValidDate(d)
    requires r < 100 && m == (if d.month < 3 then d.month + 12 else d.month)
    requires 100 * c + r == (if d.month < 3 then d.year - 1 else d.year)
    requires t == DaysBeforeMonth(m) + d.day - 1 && t < YearLength(c, r)
    requires x2 == 365 * r + r / 4 + t
    ensures ClampFebruary(DateInCenturyInt(c + 49, x2)) == d
  {
    MonthLengthOfValid(d, m);
    var overshoot := DateInCenturyOfDay(c, r, m, d.day, x2);
    ClampRepairs(d, c, r, m, t, DateInCenturyInt(c + 49, x2), overshoot);
  }

  /** The February correction turns either outcome of the second half back into `d`. */
  lemma ClampRepairs(d: Date, c: nat, r: nat, m: int, t: nat, raw: Date, overshoot: bool)
    requires ValidDate(d)
    requires r < 100 && m == (if d.month < 3 then d.month + 12 else d.month)
    requires 100 * c + r == (if d.month < 3 then d.year - 1 else d.year)
    requires t == DaysBeforeMonth(m) + d.day - 1
    requires if overshoot then
               raw == Date(100 * c + r + 1, 2, 30) && m == 14 && t == YearLength(c, r) - 1 &&
               ((100 * c + r + 1) % 4 == 0 <==> YearLength(c, r) == 366)
             else
               raw == if m >= 13 then Date(100 * c + r + 1, m - 12, d.day) else Date(100 * c + r, m, d.day)
    ensures ClampFebruary(raw) == d
  {
    MonthLengthOfValid(d, m);
    if overshoot {
      assert d.year == 100 * c + r + 1 && d.month == 2;
      assert d.day == YearLength(c, r) - 337;
    }
  }

  // ---------------------------------------------------------------------------------------
  // Every day number is the day number of a date.

  /** The March-based month holding day `t` of a March-based year. */
  function MonthOfYearDay(t: nat): (m: int)
    requires t < 366
    ensures 3 <= m <= 14 && DaysBeforeMonth(m) <= t
    ensures m < 14 ==> t < DaysBeforeMonth(m + 1)
  {
    if t < 31 then 3 else if t < 61 then 4 else if t < 92 then 5 else if t < 122 then 6
    else if t < 153 then 7 else if t < 184 then 8 else if t < 214 then 9
    else if t < 245 then 10 else if t < 275 then 11 else if t < 306 then 12
    else if t < 337 then 13 else 14
  }

  /** The century holding day `n` counted from 1 March of year 0. */
  lemma CenturyOfDayCount(n: nat) returns (c: nat)
    ensures CenturyStart(c) <= n < CenturyStart(c + 1)
  {
    c := (4 * n + 3) / 146097;
    var q, s := c / 4, c % 4;
    assert 146097 * c <= 4 * n + 3 < 146097 * (c + 1);
    DivBy4(c + 1, if s == 3 then q + 1 else q);
  }

  /** The year of century `c` holding day `n'` of that century, and the day of that year. */
  lemma YearOfCenturyDay(c: nat, n': nat) returns (r: nat, t: nat)
    requires n' < CenturyStart(c + 1) - CenturyStart(c)
    ensures r < 100 && t < YearLength(c, r) && n' == 365 * r + r / 4 + t
  {
    if n' >= 36159 {
      r, t := 99, n' - 36159;
      CenturyLength(c);
    } else {
      r := (4 * n' + 3) / 1461;
      t := n' - (365 * r + r / 4);
      EarlyYearOfCenturyDay(c, n', r);
    }
  }

  lemma EarlyYearOfCenturyDay(c: nat, n': nat, r: nat)
    requires n' < 36159 && r == (4 * n' + 3) / 1461
    ensures r < 99 && 365 * r + r / 4 <= n' < 365 * r + r / 4 + YearLength(c, r)
  {
    var q, s := r / 4, r % 4;
    assert 1461 * r <= 4 * n' + 3 < 1461 * (r + 1);
    assert r == 4 * q + s;
    LeapYearShape(c, r);
  }

  /** The date of day `t` of the March-based year `r` of century `c`. */
  function DateOfYearDay(c: nat, r: nat, t: nat): Date
    requires r < 100 && t < YearLength(c, r)
  {
    var m := MonthOfYearDay(t);
    var day := t - DaysBeforeMonth(m) + 1;
    if m >= 13 then Date(100 * c + r + 1, m - 12, day) else Date(100 * c + r, m, day)
  }

  lemma DateOfYearDayValid(c: nat, r: nat, t: nat)
    requires r < 100 && t < YearLength(c, r) && (c == 0 && r == 0 ==> t >= 306)
    ensures var d := DateOfYearDay(c, r, t);
            ValidDate(d) &&
            GregorianToJd(d.year, d.month, d.day) == CenturyStart(c) + 365 * r + r / 4 + t + 1721119
  {
    var d := DateOfYearDay(c, r, t);
    var m := MonthOfYearDay(t);
    assert m == 14 ==> (IsLeapYear(d.year) <==> YearLength(c, r) == 366);
    assert ValidDate(d);
    var c', r', m' := CountOfDate(d);
    assert c' == c && r' == r by {
      assert 100 * c' + r' == 100 * c + r;
    }
  }

  /** Every day number from 1 January of year 1 on is gregorian_to_jd of a valid date. */
  lemma DateOfDayNumber(jd: int) returns (d: Date)
    requires jd >= 1721425
    ensures ValidDate(d) && GregorianToJd(d.year, d.month, d.day) == jd
  {
    var n := jd - 1721119;
    var c := CenturyOfDayCount(n);
    var r, t := YearOfCenturyDay(c, n - CenturyStart(c));
    DateOfYearDayValid(c, r, t);
    d := DateOfYearDay(c, r, t);
  }

  lemma TruncShift(x: real)
    requires x >= 0.0
    ensures Trunc(x + 68570.0) == Trunc(Trunc(x) as real + 68570.0)
  {
  }

  /** jd_to_gregorian only looks at the day number of a non-negative Julian day. */
  lemma JdToGregorianOfWhole(jd: real)
    requires jd >= 0.0
    ensures JdToGregorian(jd) == JdToGregorian(Trunc(jd) as real)
  {
    TruncShift(jd);
    assert RawDateOf(jd) == RawDateOf(Trunc(jd) as real);
  }

  /** For day numbers from 1 January of year 1 on, jd_to_gregorian yields a valid date that
      gregorian_to_jd maps back to the day number; the time of day does not matter. */
  lemma DayNumberRoundTrip(jd: real)
    requires jd >= 1721425.0
    ensures ValidDate(JdToGregorian(jd))
    ensures var g := JdToGregorian(jd); GregorianToJd(g.year, g.month, g.day) == Trunc(jd)
  {
    var d := DateOfDayNumber(Trunc(jd));
    RoundTrip(d);
    JdToGregorianOfWhole(jd);
  }

  /** 1 January 2000 is day 2451544 (the Julian day that starts at its noon is 2451545), and
      back. */
  lemma Millennium()
    ensures GregorianToJd(2000, 1, 1) == 2451544
    ensures JdToGregorian(2451544.0) == Date(2000, 1, 1)
  {
    GregorianToJdCounts(Date(2000, 1, 1));
    RoundTrip(Date(2000, 1, 1));
  }
}
