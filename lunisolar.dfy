/** calc_kyureki: assembles a window of four solar terms and five new moons around a Julian
    day, numbers the five months they bound (marking at most one of them intercalary) and
    finds the month holding the day. */
module Lunisolar {
  import opened EpochConverter
  import opened EpochRoundTrip
  import opened SolarTerms

  datatype Option<T> = None | Some(value: T)

  /** One row of the month table m: month number, intercalary flag, day the month starts. */
  datatype Month = Month(number: int, intercalary: bool, start: int)

  /** The result of calc_kyureki: year, intercalary flag, month and day. */
  datatype Kyureki = Kyureki(year: int, intercalary: bool, month: int, day: int)

  // ---------------------------------------------------------------------------------------
  // The solar-term table chu and the new-moon table saku.

  /** The first n terms of chu: the quarter term before tm0, then each principal term found
      from 32 days after the previous one. */
  function ChuUpTo(eph: Ephemeris, tm0: real, n: nat): (r: seq<Term>)
    requires 1 <= n
    ensures |r| == n
    ensures r[0] == SolarTerm(eph, tm0, 90.0)
  {
    if n == 1 then [SolarTerm(eph, tm0, 90.0)]
    else
      var p := ChuUpTo(eph, tm0, n - 1);
      p + [SolarTerm(eph, p[n - 2].instant + 32.0, 30.0)]
  }

  /** Each later term of chu is the principal term searched from 32 days after the one
      before it. */
  lemma {:induction false} ChuUpToLinks(eph: Ephemeris, tm0: real, n: nat)
    requires 1 <= n
    ensures forall i :: 1 <= i < n ==>
              ChuUpTo(eph, tm0, n)[i] == SolarTerm(eph, ChuUpTo(eph, tm0, n)[i - 1].instant + 32.0, 30.0)
  {
    if n > 1 {
      ChuUpToLinks(eph, tm0, n - 1);
      var r, p := ChuUpTo(eph, tm0, n), ChuUpTo(eph, tm0, n - 1);
      assert r == p + [SolarTerm(eph, p[n - 2].instant + 32.0, 30.0)];
      forall i | 1 <= i < n
        ensures r[i] == SolarTerm(eph, r[i - 1].instant + 32.0, 30.0)
      {
        assert r[i - 1] == p[i - 1];
        if i < n - 1 {
          assert r[i] == p[i];
          assert p[i] == SolarTerm(eph, p[i - 1].instant + 32.0, 30.0);
        } else {
          assert r[i] == SolarTerm(eph, p[n - 2].instant + 32.0, 30.0);
        }
      }
    }
  }

  method FillChu(eph: Ephemeris, tm0: real) returns (chu: array<Term>)
    ensures chu.Length == 4 && chu[..] == ChuUpTo(eph, tm0, 4)
  {
    ghost var spec := ChuUpTo(eph, tm0, 4);
    ChuUpToLinks(eph, tm0, 4);
    chu := new Term[4];
    BeforeNibun(eph, tm0, chu);
    for i := 1 to 4
      invariant forall j :: 0 <= j < i ==> chu[j] == spec[j]
    {
      CalcChu(eph, chu[i - 1].instant + 32.0, i, chu);
    }
    assert forall j :: 0 <= j < 4 ==> chu[..][j] == spec[j];
  }

  function Abs(x: int): int {
    if x < 0 then -x else x
  }

  /** The new moon after `prev`: solved from 30 days later, and solved again from 35 days
      later when the first answer falls within 26 days of `prev` (the same conjunction). */
  function NextSaku(eph: Ephemeris, prev: real): (r: real)
    ensures r == eph.newMoon(prev + 30.0) || r == eph.newMoon(prev + 35.0)
    ensures Abs(Trunc(prev) - Trunc(eph.newMoon(prev + 30.0))) > 26 ==> r == eph.newMoon(prev + 30.0)
    ensures Abs(Trunc(prev) - Trunc(eph.newMoon(prev + 30.0))) <= 26 ==> r == eph.newMoon(prev + 35.0)
  {
    var s := eph.newMoon(prev + 30.0);
    if Abs(Trunc(prev) - Trunc(s)) <= 26 then eph.newMoon(prev + 35.0) else s
  }

  /** The first n new moons of saku, from the one found for chu[0]. */
  function SakuUpTo(eph: Ephemeris, start: real, n: nat): (r: seq<real>)
    requires 1 <= n
    ensures |r| == n
    ensures r[0] == eph.newMoon(start)
  {
    if n == 1 then [eph.newMoon(start)]
    else
      var p := SakuUpTo(eph, start, n - 1);
      p + [NextSaku(eph, p[n - 2])]
  }

  /** Each later new moon of saku is `NextSaku` of the one before it. */
  lemma {:induction false} SakuUpToLinks(eph: Ephemeris, start: real, n: nat)
    requires 1 <= n
    ensures forall i :: 1 <= i < n ==>
              SakuUpTo(eph, start, n)[i] == NextSaku(eph, SakuUpTo(eph, start, n)[i - 1])
  {
    if n > 1 {
      SakuUpToLinks(eph, start, n - 1);
      var r, p := SakuUpTo(eph, start, n), SakuUpTo(eph, start, n - 1);
      assert r == p + [NextSaku(eph, p[n - 2])];
      forall i | 1 <= i < n
        ensures r[i] == NextSaku(eph, r[i - 1])
      {
        assert r[i - 1] == p[i - 1];
        if i < n - 1 {
          assert r[i] == p[i];
          assert p[i] == NextSaku(eph, p[i - 1]);
        } else {
          assert r[i] == NextSaku(eph, p[n - 2]);
        }
      }
    }
  }

  method FillSaku(eph: Ephemeris, chu0: real) returns (saku: seq<real>)
    ensures saku == SakuUpTo(eph, chu0, 5)
  {
    saku := [0.0, 0.0, 0.0, 0.0, 0.0];
    saku := saku[0 := eph.newMoon(chu0)];
    for i := 1 to 5
      invariant |saku| == 5
      invariant saku[..i] == SakuUpTo(eph, chu0, i)
    {
      var tm := saku[i - 1] + 30.0;
      saku := saku[i := eph.newMoon(tm)];
      if Abs(Trunc(saku[i - 1]) - Trunc(saku[i])) <= 26 {
        saku := saku[i := eph.newMoon(saku[i - 1] + 35.0)];
      }
      assert saku[..i + 1] == saku[..i] + [saku[i]];
    }
    assert saku == saku[..5];
  }

  /** Realignment of the new-moon window so that chu[0] falls in its first month: drop the
      first new moon and solve one more at the end when saku[1] starts on or before chu[0];
      solve one more at the front and drop the last when saku[0] starts after chu[0]. The
      moon appended at the end is solved from 35 days after the window's last moon, the
      old saku[4], as the fill loop solves each new moon after the one before it. */
  function Realign(eph: Ephemeris, saku: seq<real>, chu0: real): (r: seq<real>)
    requires |saku| == 5
    ensures |r| == 5
    ensures Trunc(saku[1]) <= Trunc(chu0) ==> r[..4] == saku[1..] && r[4] == eph.newMoon(saku[4] + 35.0)
    ensures Trunc(chu0) < Trunc(saku[0]) && Trunc(chu0) < Trunc(saku[1]) ==>
              r[1..] == saku[..4] && r[0] == eph.newMoon(saku[0] - 27.0)
    ensures Trunc(saku[0]) <= Trunc(chu0) < Trunc(saku[1]) ==> r == saku
  {
    if Trunc(saku[1]) <= Trunc(chu0) then saku[1..] + [eph.newMoon(saku[4] + 35.0)]
    else if Trunc(saku[0]) > Trunc(chu0) then [eph.newMoon(saku[0] - 27.0)] + saku[..4]
    else saku
  }

  /** The realignment as the code writes it: on the forward shift the appended new moon is
      solved from 35 days after the old saku[3], which is the new window's slot 2. */
  function RealignAsWritten(eph: Ephemeris, saku: seq<real>, chu0: real): (r: seq<real>)
    requires |saku| == 5
    ensures |r| == 5
    ensures Trunc(saku[1]) <= Trunc(chu0) ==> r[..4] == saku[1..] && r[4] == eph.newMoon(saku[3] + 35.0)
    ensures Trunc(saku[1]) > Trunc(chu0) ==> r == Realign(eph, saku, chu0)
  {
    if Trunc(saku[1]) <= Trunc(chu0) then saku[1..] + [eph.newMoon(saku[3] + 35.0)]
    else if Trunc(saku[0]) > Trunc(chu0) then [eph.newMoon(saku[0] - 27.0)] + saku[..4]
    else saku
  }

  /** New-moon days that strictly increase along the window. */
  predicate IncreasingDays(saku: seq<real>) {
    forall i, j :: 0 <= i < j < |saku| ==> Trunc(saku[i]) < Trunc(saku[j])
  }

  /** After one shift chu[0]'s day lies in the first month, provided one shift is enough:
      chu[0] comes before saku[2], and on a backward shift the solved moon is not after it.
      The code shifts at most once and does not check again. */
  lemma RealignCovers(eph: Ephemeris, saku: seq<real>, chu0: real)
    requires |saku| == 5 && Trunc(chu0) < Trunc(saku[2])
    requires Trunc(chu0) < Trunc(saku[0]) ==> Trunc(eph.newMoon(saku[0] - 27.0)) <= Trunc(chu0)
    ensures var r := RealignAsWritten(eph, saku, chu0); Trunc(r[0]) <= Trunc(chu0) < Trunc(r[1])
  {
  }

  /** The realignment keeps the new-moon days increasing when each solve it adds moves past
      the moon it starts from, forward from the last one or back from the first one. */
  lemma RealignKeepsIncreasing(eph: Ephemeris, saku: seq<real>, chu0: real)
    requires |saku| == 5 && IncreasingDays(saku)
    requires Trunc(saku[4]) < Trunc(eph.newMoon(saku[4] + 35.0))
    requires Trunc(eph.newMoon(saku[0] - 27.0)) < Trunc(saku[0])
    ensures IncreasingDays(Realign(eph, saku, chu0))
  {
    var r := Realign(eph, saku, chu0);
    if Trunc(saku[1]) <= Trunc(chu0) {
      assert forall i :: 0 <= i < 4 ==> r[i] == saku[i + 1];
    } else if Trunc(saku[0]) > Trunc(chu0) {
      assert forall i :: 1 <= i < 5 ==> r[i] == saku[i - 1];
    }
  }

  /** The code's forward shift repeats the last new moon when the solve from 35 days after
      saku[3] gives back the conjunction saku[4] already holds, which is what a solve from a
      guess 35 days after a conjunction gives elsewhere. The window then ends with two months
      starting on the same day, and slot 3 counts as lacking its principal term. */
  lemma RealignAsWrittenRepeats(eph: Ephemeris, saku: seq<real>, chu0: real, chuDays: seq<int>)
    requires |saku| == 5 && |chuDays| == 4 && Trunc(saku[1]) <= Trunc(chu0)
    requires eph.newMoon(saku[3] + 35.0) == saku[4]
    ensures var r := RealignAsWritten(eph, saku, chu0);
            r[3] == r[4] && !IncreasingDays(r) && LacksTerm(chuDays, SakuDays(r), 3)
  {
    var r := RealignAsWritten(eph, saku, chu0);
    assert r[3] == saku[4] == r[4];
  }

  /** Conjunctions every 29.5 days, each solve returning the last one at or before the guess. */
  function Synodic(): Ephemeris {
    Ephemeris(t => 0.0, (tm, lon) => tm, x => 29.5 * (x / 29.5).Floor as real)
  }

  /** With chu[0] on day 29, the fill loop finds the conjunctions of days 0 to 118. */
  lemma SynodicFill()
    ensures SakuUpTo(Synodic(), 29.2, 5) == [0.0, 29.5, 59.0, 88.5, 118.0]
  {
    var eph := Synodic();
    assert (29.2 / 29.5).Floor == 0;
    assert (30.0 / 29.5).Floor == 1;
    assert (59.5 / 29.5).Floor == 2;
    assert (89.0 / 29.5).Floor == 3;
    assert (118.5 / 29.5).Floor == 4;
    assert NextSaku(eph, 0.0) == 29.5;
    assert NextSaku(eph, 29.5) == 59.0;
    assert NextSaku(eph, 59.0) == 88.5;
    assert NextSaku(eph, 88.5) == 118.0;
  }

  /** From that window the code's forward shift ends with day 118 twice; the corrected one
      ends with the next conjunction, on day 147. */
  lemma RealignAsWrittenExample()
    ensures var saku := SakuUpTo(Synodic(), 29.2, 5);
            saku == [0.0, 29.5, 59.0, 88.5, 118.0] &&
            RealignAsWritten(Synodic(), saku, 29.2) == [29.5, 59.0, 88.5, 118.0, 118.0] &&
            Realign(Synodic(), saku, 29.2) == [29.5, 59.0, 88.5, 118.0, 147.5]
  {
    SynodicFill();
    assert (123.5 / 29.5).Floor == 4;
    assert (153.0 / 29.5).Floor == 5;
  }

  function ChuDays(chu: seq<Term>): (r: seq<int>)
    requires |chu| == 4
    ensures |r| == 4 && forall i :: 0 <= i < 4 ==> r[i] == Trunc(chu[i].instant)
  {
    [Trunc(chu[0].instant), Trunc(chu[1].instant), Trunc(chu[2].instant), Trunc(chu[3].instant)]
  }

  function SakuDays(saku: seq<real>): (r: seq<int>)
    requires |saku| == 5
    ensures |r| == 5 && forall i :: 0 <= i < 5 ==> r[i] == Trunc(saku[i])
  {
    [Trunc(saku[0]), Trunc(saku[1]), Trunc(saku[2]), Trunc(saku[3]), Trunc(saku[4])]
  }

  // ---------------------------------------------------------------------------------------
  // The month table m.

  /** m[0][0]: chu[0]'s longitude sector plus 2, brought back into 1..12. */
  function FirstMonthNumber(lon: real): (n: int)
    ensures 0.0 <= lon < 360.0 ==> 1 <= n <= 12 && n == ((lon / 30.0).Floor + 1) % 12 + 1
    ensures 0.0 <= lon < 360.0 && 90.0 * (lon / 90.0).Floor as real == lon ==>
              n == 3 * (lon / 90.0).Floor + 2
  {
    var n := Trunc(lon / 30.0) + 2;
    if n > 12 then n - 12 else n
  }

  /** The month number after n: n + 1, with 12 followed by 1. */
  function Succ(n: int): (r: int)
    ensures 1 <= n <= 12 ==> 1 <= r <= 12 && r % 12 == (n + 1) % 12
  {
    if n + 1 > 12 then n + 1 - 12 else n + 1
  }

  /** chu[s] does not fall strictly inside (by day) the month of slot s. */
  predicate LacksTerm(chuDays: seq<int>, sakuDays: seq<int>, s: int)
    requires |chuDays| == 4 && |sakuDays| == 5 && 0 <= s < 4
  {
    chuDays[s] <= sakuDays[s] || chuDays[s] >= sakuDays[s + 1]
  }

  /** The slot that the first n rounds of the loop mark intercalary: while `lap` is pending,
      round i (from 2 on) marks slot i - 1 when that month lacks its term. */
  function LeapSlotUpTo(chuDays: seq<int>, sakuDays: seq<int>, lap: bool, n: nat): (r: Option<int>)
    requires |chuDays| == 4 && |sakuDays| == 5 && n <= 4
    ensures r.Some? ==> lap && 1 <= r.value < n && r.value <= 3
  {
    if n <= 1 || !lap then None
    else match LeapSlotUpTo(chuDays, sakuDays, lap, n - 1)
      case Some(s) => Some(s)
      case None => if LacksTerm(chuDays, sakuDays, n - 1) then Some(n - 1) else None
  }

  function LeapSlot(chuDays: seq<int>, sakuDays: seq<int>, lap: bool): Option<int>
    requires |chuDays| == 4 && |sakuDays| == 5
  {
    LeapSlotUpTo(chuDays, sakuDays, lap, 4)
  }

  /** The number of slot j when slot `leap` (if any) repeats the number before it. */
  function MonthAt(m0: int, leap: Option<int>, j: nat): int {
    if j == 0 then m0
    else if leap == Some(j) then MonthAt(m0, leap, j - 1)
    else Succ(MonthAt(m0, leap, j - 1))
  }

  function MonthEntry(m0: int, sakuDays: seq<int>, leap: Option<int>, j: nat): Month
    requires j < |sakuDays|
  {
    Month(MonthAt(m0, leap, j), leap == Some(j), sakuDays[j])
  }

  /** The table m as the loop leaves it, in closed form. */
  function MonthTable(m0: int, sakuDays: seq<int>, leap: Option<int>): (r: seq<Month>)
    requires |sakuDays| == 5
    ensures |r| == 5 && forall j :: 0 <= j < 5 ==> r[j] == MonthEntry(m0, sakuDays, leap, j)
  {
    seq(5, j requires 0 <= j < 5 => MonthEntry(m0, sakuDays, leap, j))
  }

  /** Before the intercalary slot the numbers do not depend on where it is. */
  lemma {:induction false} MonthAtBeforeLeap(m0: int, s: int, j: nat)
    requires j < s
    ensures MonthAt(m0, Some(s), j) == MonthAt(m0, None, j)
  {
    if j > 0 {
      MonthAtBeforeLeap(m0, s, j - 1);
    }
  }

  /** One more round of the loop marks slot i - 1 or leaves the mark as it was. */
  lemma LeapSlotStep(chuDays: seq<int>, sakuDays: seq<int>, lap: bool, i: nat)
    requires |chuDays| == 4 && |sakuDays| == 5 && 1 <= i <= 4
    ensures LeapSlotUpTo(chuDays, sakuDays, lap, i)
      == if lap && i != 1 && LeapSlotUpTo(chuDays, sakuDays, lap, i - 1).None? &&
            LacksTerm(chuDays, sakuDays, i - 1)
         then Some(i - 1) else LeapSlotUpTo(chuDays, sakuDays, lap, i - 1)
  {
  }

  /** The first n slots of ms hold the table's entries for the intercalary slot `leap`. */
  predicate Filled(ms: seq<Month>, m0: int, sakuDays: seq<int>, leap: Option<int>, n: nat)
    requires |ms| == 5 && |sakuDays| == 5 && n <= 5
  {
    forall j :: 0 <= j < n ==> ms[j] == MonthEntry(m0, sakuDays, leap, j)
  }

  /** Marking slot s intercalary after the fact: the slots before it keep their entries, and
      slot s takes the number of slot s - 1. */
  lemma MarkLeapFilled(ms: seq<Month>, m0: int, sakuDays: seq<int>, s: nat)
    requires |ms| == 5 && |sakuDays| == 5 && 1 <= s < 5
    requires Filled(ms, m0, sakuDays, None, s + 1)
    ensures Filled(ms[s := Month(ms[s - 1].number, true, sakuDays[s])], m0, sakuDays, Some(s), s + 1)
  {
    forall j | 0 <= j < s
      ensures MonthEntry(m0, sakuDays, Some(s), j) == MonthEntry(m0, sakuDays, None, j)
    {
      MonthAtBeforeLeap(m0, s, j);
    }
  }

  /** Writing slot i as the successor of slot i - 1 extends the filled prefix, unless slot i
      is the intercalary one. */
  lemma NextFilled(ms: seq<Month>, m0: int, sakuDays: seq<int>, leap: Option<int>, i: nat)
    requires |ms| == 5 && |sakuDays| == 5 && 1 <= i < 5 && leap != Some(i)
    requires Filled(ms, m0, sakuDays, leap, i)
    ensures Filled(ms[i := Month(Succ(ms[i - 1].number), false, sakuDays[i])], m0, sakuDays, leap, i + 1)
  {
  }

  /** The loop of calc_kyureki that fills m (m[0] first, then m[1..4], retroactively marking
      the previous slot intercalary at most once). */
  method BuildMonths(chu: array<Term>, saku: seq<real>, lap: bool) returns (m: array<Month>)
    requires chu.Length == 4 && |saku| == 5
    ensures m.Length == 5
    ensures m[..] == MonthTable(FirstMonthNumber(chu[0].longitude), SakuDays(saku),
                                LeapSlot(ChuDays(chu[..]), SakuDays(saku), lap))
  {
    ghost var cd, sd := ChuDays(chu[..]), SakuDays(saku);
    assert forall k :: 0 <= k < 4 ==> cd[k] == Trunc(chu[k].instant);
    var m0 := FirstMonthNumber(chu[0].longitude);
    m := new Month[5](_ => Month(0, false, 0));
    m[0] := Month(m0, false, Trunc(saku[0]));
    var pending := lap;
    for i := 1 to 5
      invariant pending == (lap && LeapSlotUpTo(cd, sd, lap, i - 1).None?)
      invariant Filled(m[..], m0, sd, LeapSlotUpTo(cd, sd, lap, i - 1), i)
    {
      ghost var before := LeapSlotUpTo(cd, sd, lap, i - 1);
      LeapSlotStep(cd, sd, lap, i);
      ghost var after := LeapSlotUpTo(cd, sd, lap, i);
      var mark := pending && i != 1 &&
        (Trunc(chu[i - 1].instant) <= Trunc(saku[i - 1]) || Trunc(chu[i - 1].instant) >= Trunc(saku[i]));
      assert mark == (lap && i != 1 && before.None? && LacksTerm(cd, sd, i - 1));
      if mark {
        ghost var ms := m[..];
        m[i - 1] := Month(m[i - 2].number, true, Trunc(saku[i - 1]));
        pending := false;
        MarkLeapFilled(ms, m0, sd, i - 1);
        assert m[..] == ms[i - 1 := Month(ms[i - 2].number, true, sd[i - 1])];
      }
      ghost var ms := m[..];
      m[i] := Month(Succ(m[i - 1].number), false, Trunc(saku[i]));
      NextFilled(ms, m0, sd, after, i);
      assert m[..] == ms[i := Month(Succ(ms[i - 1].number), false, sd[i])];
    }
  }

  // ---------------------------------------------------------------------------------------
  // What the month table promises.

  lemma {:induction false} MonthAtInRange(m0: int, leap: Option<int>, j: nat)
    requires 1 <= m0 <= 12
    ensures 1 <= MonthAt(m0, leap, j) <= 12
  {
    if j > 0 {
      MonthAtInRange(m0, leap, j - 1);
    }
  }

  /** Every month number of the table is in 1..12. */
  lemma MonthTableNumbers(m0: int, sakuDays: seq<int>, leap: Option<int>)
    requires 1 <= m0 <= 12 && |sakuDays| == 5
    ensures forall j :: 0 <= j < 5 ==> 1 <= MonthTable(m0, sakuDays, leap)[j].number <= 12
  {
    forall j | 0 <= j < 5
      ensures 1 <= MonthTable(m0, sakuDays, leap)[j].number <= 12
    {
      MonthAtInRange(m0, leap, j);
    }
  }

  /** The first slot is an ordinary month numbered m0; each later slot either follows the one
      before it or, when intercalary, repeats its number; at most one slot is intercalary;
      every slot starts on its new moon's day. */
  lemma MonthTableShape(m0: int, sakuDays: seq<int>, leap: Option<int>)
    requires |sakuDays| == 5 && (leap.Some? ==> leap.value >= 1)
    ensures var t := MonthTable(m0, sakuDays, leap);
            t[0].number == m0 && !t[0].intercalary &&
            (forall j :: 0 <= j < 5 ==> t[j].start == sakuDays[j]) &&
            (forall j :: 1 <= j < 5 && t[j].intercalary ==> t[j].number == t[j - 1].number) &&
            (forall j :: 1 <= j < 5 && !t[j].intercalary ==> t[j].number == Succ(t[j - 1].number)) &&
            (forall i, j :: 0 <= i < 5 && 0 <= j < 5 && t[i].intercalary && t[j].intercalary ==> i == j)
  {
  }

  /** The slot marked intercalary is the first of slots 1..3 whose month lacks its principal
      term, and there is one exactly when `lap` is set and such a month exists. */
  lemma {:induction false} LeapSlotIsFirstLacking(chuDays: seq<int>, sakuDays: seq<int>, lap: bool, n: nat)
    requires |chuDays| == 4 && |sakuDays| == 5 && n <= 4
    ensures LeapSlotUpTo(chuDays, sakuDays, lap, n).Some? <==>
              lap && exists s :: 1 <= s < n && LacksTerm(chuDays, sakuDays, s)
    ensures var r := LeapSlotUpTo(chuDays, sakuDays, lap, n);
            r.Some? ==> LacksTerm(chuDays, sakuDays, r.value) &&
                        forall s :: 1 <= s < r.value ==> !LacksTerm(chuDays, sakuDays, s)
  {
    if n > 1 && lap {
      LeapSlotIsFirstLacking(chuDays, sakuDays, lap, n - 1);
    }
  }

  // ---------------------------------------------------------------------------------------
  // Selecting the month of the query day.

  /** The scan of calc_kyureki from round k on: stop at the first slot starting after the
      query (take the slot before it) or on it (take that slot). Without a stop the loop
      variable is left at 4 and one is still subtracted, so slot 3 is taken; a stop in round
      0 leaves -1, which Python reads as the last slot. */
  function ScanSlot(ms: seq<Month>, q: int, k: nat): (s: int)
    requires |ms| == 5 && k <= 5
    ensures 0 <= s < 5
    decreases 5 - k
  {
    if k == 5 then 3
    else if q < ms[k].start then (if k == 0 then 4 else k - 1)
    else if q == ms[k].start then k
    else ScanSlot(ms, q, k + 1)
  }

  method SelectMonth(m: array<Month>, q: int) returns (slot: int)
    requires m.Length == 5
    ensures slot == ScanSlot(m[..], q, 0)
  {
    var state := 0;
    var i := 0;
    var k := 0;
    while k < 5
      invariant 0 <= k <= 5
      invariant i == (if k == 0 then 0 else k - 1)
      invariant ScanSlot(m[..], q, k) == ScanSlot(m[..], q, 0)
    {
      i := k;
      if q < m[k].start {
        state := 1;
        break;
      } else if q == m[k].start {
        state := 2;
        break;
      }
      k := k + 1;
    }
    if state == 0 || state == 1 {
      i := i - 1;
    }
    slot := if i < 0 then i + 5 else i;
  }

  predicate StrictlyIncreasingStarts(ms: seq<Month>) {
    forall i, j :: 0 <= i < j < |ms| ==> ms[i].start < ms[j].start
  }

  lemma {:induction false} ScanSlotFrom(ms: seq<Month>, q: int, k: nat)
    requires |ms| == 5 && k <= 5
    requires forall j :: 0 <= j < k ==> ms[j].start < q
    requires k == 0 ==> ms[0].start <= q
    ensures ms[ScanSlot(ms, q, k)].start <= q
    ensures StrictlyIncreasingStarts(ms) && q < ms[4].start ==>
              ScanSlot(ms, q, k) < 4 && q < ms[ScanSlot(ms, q, k) + 1].start
    decreases 5 - k
  {
    if k < 5 && ms[k].start < q {
      ScanSlotFrom(ms, q, k + 1);
    }
  }

  /** The selected month has started by the query day; in a window of increasing starts
      holding the query day, it is the month holding it. */
  lemma ScanSlotContains(ms: seq<Month>, q: int)
    requires |ms| == 5 && ms[0].start <= q
    ensures ms[ScanSlot(ms, q, 0)].start <= q
    ensures StrictlyIncreasingStarts(ms) && q < ms[4].start ==>
              var s := ScanSlot(ms, q, 0); s < 4 && ms[s].start <= q < ms[s + 1].start
  {
    ScanSlotFrom(ms, q, 0);
  }

  lemma {:induction false} ScanSlotPastAll(ms: seq<Month>, q: int, k: nat)
    requires |ms| == 5 && k <= 5
    requires forall j :: 0 <= j < 5 ==> ms[j].start < q
    ensures ScanSlot(ms, q, k) == 3
    decreases 5 - k
  {
    if k < 5 {
      ScanSlotPastAll(ms, q, k + 1);
    }
  }

  /** The two quirks of the scan: a query before the window selects the last slot, a query
      after every start selects slot 3 rather than slot 4. */
  lemma ScanSlotOutsideWindow(ms: seq<Month>, q: int)
    requires |ms| == 5
    ensures q < ms[0].start ==> ScanSlot(ms, q, 0) == 4
    ensures (forall j :: 0 <= j < 5 ==> ms[j].start < q) ==> ScanSlot(ms, q, 0) == 3
  {
    if forall j :: 0 <= j < 5 ==> ms[j].start < q {
      ScanSlotPastAll(ms, q, 0);
    }
  }

  /** The result for the selected month: its number, flag and day of month, and the year of
      the query's Gregorian date, one less when the month is past 9 and past the Gregorian
      month (a lunisolar year that has not yet turned over). */
  function LabelDate(month: Month, tm0: real): (k: Kyureki)
    ensures k.month == month.number && k.intercalary == month.intercalary
    ensures k.day - 1 == Trunc(tm0) - month.start
    ensures var g := JdToGregorian(tm0);
            (k.year == g.year - 1 <==> month.number > 9 && month.number > g.month) &&
            (k.year == g.year || k.year == g.year - 1)
  {
    var a := JdToGregorian(tm0);
    var year := if month.number > 9 && month.number > a.month then a.year - 1 else a.year;
    Kyureki(year, month.intercalary, month.number, Trunc(tm0) - month.start + 1)
  }

  // ---------------------------------------------------------------------------------------
  // calc_kyureki as a whole.

  function WindowChu(eph: Ephemeris, tm0: real): (r: seq<Term>)
    ensures |r| == 4
  {
    ChuUpTo(eph, tm0, 4)
  }

  function WindowSaku(eph: Ephemeris, tm0: real): (r: seq<real>)
    ensures |r| == 5
  {
    var chu0 := WindowChu(eph, tm0)[0].instant;
    RealignAsWritten(eph, SakuUpTo(eph, chu0, 5), chu0)
  }

  /** The leap flag: the fifth new moon does not come after the fourth term. */
  predicate LeapWindow(eph: Ephemeris, tm0: real) {
    Trunc(WindowSaku(eph, tm0)[4]) <= Trunc(WindowChu(eph, tm0)[3].instant)
  }

  function MonthsOf(eph: Ephemeris, tm0: real): (r: seq<Month>)
    ensures |r| == 5
  {
    var chu, saku := WindowChu(eph, tm0), WindowSaku(eph, tm0);
    MonthTable(FirstMonthNumber(chu[0].longitude), SakuDays(saku),
               LeapSlot(ChuDays(chu), SakuDays(saku), LeapWindow(eph, tm0)))
  }

  function KyurekiOf(eph: Ephemeris, tm0: real): Kyureki {
    var ms := MonthsOf(eph, tm0);
    LabelDate(ms[ScanSlot(ms, Trunc(tm0), 0)], tm0)
  }

  /** The assembled month table: it opens with a month whose chu[0] is an equinox or a
      solstice (2, 5, 8 or 11), its numbers stay in 1..12 and follow one another, and at most
      one slot, one of 1..3 and only in a leap window, repeats the number before it as the
      intercalary month; that slot is the first of 1..3 that lacks its principal term. */
  lemma MonthsOfShape(eph: Ephemeris, tm0: real)
    ensures var ms := MonthsOf(eph, tm0);
            var cd, sd := ChuDays(WindowChu(eph, tm0)), SakuDays(WindowSaku(eph, tm0));
            (ms[0].number == 2 || ms[0].number == 5 || ms[0].number == 8 || ms[0].number == 11) &&
            !ms[0].intercalary &&
            (forall j :: 0 <= j < 5 ==> 1 <= ms[j].number <= 12 && ms[j].start == sd[j]) &&
            (forall j :: 1 <= j < 5 && ms[j].intercalary ==> ms[j].number == ms[j - 1].number) &&
            (forall j :: 1 <= j < 5 && !ms[j].intercalary ==> ms[j].number == Succ(ms[j - 1].number)) &&
            (forall i, j :: 0 <= i < 5 && 0 <= j < 5 && ms[i].intercalary && ms[j].intercalary ==> i == j) &&
            (forall j :: 0 <= j < 5 && ms[j].intercalary ==>
               LeapWindow(eph, tm0) && 1 <= j <= 3 && LacksTerm(cd, sd, j) &&
               forall s :: 1 <= s < j ==> !LacksTerm(cd, sd, s))
  {
    var chu, saku := WindowChu(eph, tm0), WindowSaku(eph, tm0);
    var cd, sd := ChuDays(chu), SakuDays(saku);
    var lap := LeapWindow(eph, tm0);
    var m0 := FirstMonthNumber(chu[0].longitude);
    var leap := LeapSlot(cd, sd, lap);
    QuarterTermLongitude(eph, tm0);
    var lon := chu[0].longitude;
    assert 90.0 * (lon / 90.0).Floor as real == lon;
    MonthTableNumbers(m0, sd, leap);
    MonthTableShape(m0, sd, leap);
    LeapSlotIsFirstLacking(cd, sd, lap, 4);
  }

  /** When the window's new moons fall on increasing days, so do the months' starts. */
  lemma WindowStartsIncrease(eph: Ephemeris, tm0: real)
    requires IncreasingDays(WindowSaku(eph, tm0))
    ensures StrictlyIncreasingStarts(MonthsOf(eph, tm0))
  {
    var chu, saku := WindowChu(eph, tm0), WindowSaku(eph, tm0);
    var sd := SakuDays(saku);
    MonthTableShape(FirstMonthNumber(chu[0].longitude), sd,
                    LeapSlot(ChuDays(chu), sd, LeapWindow(eph, tm0)));
  }

  /** The date calc_kyureki returns: a month number in 1..12; once the window has started, a
      day of at least 1 counted from the selected month's first day; in a window of increasing
      month starts that holds the day, the month holding it; the intercalary flag only in a
      leap window; and from year 1 on, the Gregorian year of the day or the one before. */
  lemma KyurekiOfShape(eph: Ephemeris, tm0: real)
    ensures var k, ms, q := KyurekiOf(eph, tm0), MonthsOf(eph, tm0), Trunc(tm0);
            1 <= k.month <= 12 &&
            (k.intercalary ==> LeapWindow(eph, tm0)) &&
            (ms[0].start <= q ==> k.day >= 1) &&
            (StrictlyIncreasingStarts(ms) && ms[0].start <= q < ms[4].start ==>
               exists s :: 0 <= s < 4 && ms[s].start <= q < ms[s + 1].start &&
                 k == LabelDate(ms[s], tm0) && k.day == q - ms[s].start + 1)
    ensures tm0 >= 1721425.0 ==>
              var k, g := KyurekiOf(eph, tm0), JdToGregorian(tm0);
              ValidDate(g) && GregorianToJd(g.year, g.month, g.day) == Trunc(tm0) &&
              (k.year == g.year - 1 <==> k.month > 9 && k.month > g.month) &&
              (k.year == g.year || k.year == g.year - 1)
  {
    var ms, q := MonthsOf(eph, tm0), Trunc(tm0);
    MonthsOfShape(eph, tm0);
    var s := ScanSlot(ms, q, 0);
    if ms[0].start <= q {
      ScanSlotContains(ms, q);
    }
    if tm0 >= 1721425.0 {
      DayNumberRoundTrip(tm0);
    }
  }

  /** calc_kyureki. */
  method CalcKyureki(eph: Ephemeris, tm0: real) returns (k: Kyureki)
    ensures k == KyurekiOf(eph, tm0)
    ensures 1 <= k.month <= 12
  {
    var chu := FillChu(eph, tm0);
    var saku := FillSaku(eph, chu[0].instant);
    saku := RealignAsWritten(eph, saku, chu[0].instant);
    var lap := Trunc(saku[4]) <= Trunc(chu[3].instant);
    var m := BuildMonths(chu, saku, lap);
    var i := SelectMonth(m, Trunc(tm0));
    k := LabelDate(m[i], tm0);
    KyurekiOfShape(eph, tm0);
  }
}
