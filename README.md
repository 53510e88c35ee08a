# Kyureki: the old Japanese lunisolar calendar, modelled in Dafny

`KyurekiCalculator` turns a Julian day (Japan Standard Time, fraction = time of day) into a
date of the old lunisolar calendar, kyureki: year, intercalary-month flag, month and day.
It also derives the rokuyou, a six-day label, from the month and day. It works as follows.

* It finds the quarter term (equinox or solstice, a solar longitude that is a multiple of
  90 degrees) at or before the day (chu[0]). Then it finds three principal terms
  (multiples of 30 degrees), each searched from 32 days after the previous one.
* It finds five new moons (saku). The first is found from chu[0] and each later one from
  30 days after the previous one. A new moon within 26 days of the previous one is taken as
  the same conjunction and solved again from 35 days on.
* It realigns the new moons so that chu[0] falls in the first month. On a forward shift the
  code solves the appended moon from the old saku[3], not from the window's last moon; the
  model of calc_kyureki follows the code, and the corrected realignment is modelled beside
  it (see "## Findings").
* It sets the leap flag, `lap`: the fifth new moon comes no later than the last term.
* It numbers the five months. While `lap` is pending, the first of months 1 to 3 that
  lacks its principal term is marked intercalary and repeats the number before it.
* It scans for the month holding the day, and labels the date. The year is the Gregorian
  year of the day, one less for a month past 9 that is past the Gregorian month.

The model has six modules:

* `AngleMath` (`angle.dfy`): `normalize_angle`, a loop method proved equal to a closed form.
* `EpochConverter` (`epoch.dfy`): `gregorian_to_jd` and `jd_to_gregorian`, and the
  Gregorian calendar they are meant to agree with.
* `EpochRoundTrip` (`epoch_round_trip.dfy`): both directions of the round trip, proved
  against that calendar. Each truncated float step is shown to be an integer division.
* `SolarTerms` (`solar_terms.dfy`): the solar-longitude formula and the two term solvers.
  Their numerical parts are parameters: the cosine series, the refinement loop and the
  new-moon solver form an `Ephemeris` value. What is modelled is how a solver picks its
  target longitude and which slot of the caller's array it writes.
* `Lunisolar` (`lunisolar.dfy`): `calc_kyureki`. Each loop of the source is a method
  proved equal to a specification function, and the month table and the scan have their
  properties proved.
* `Rokuyou` (`rokuyou.dfy`): `calc_rokuyou`.

Python floats are exact reals here. Python's `int()` on a float is `Trunc`, truncation
toward zero. The constants 365.25, 30.59, 36524.25 and 365.2425 are exact decimals.

In two places the code departs from the usual rule, and the model follows the code:
* The February correction of `jd_to_gregorian` has no century exception. The code gives a
  February day above 28 the value 29 in every year divisible by 4, 1900 included
  (kyureki.py:36-43). `EpochRoundTrip.DayNumberRoundTrip` shows this never shows through:
  every day number from year 1 on still converts to a valid date.
* One would expect the month found to be the last one starting on or before the day. The
  scan differs in two cases. A day after every month start gets slot 3, not
  slot 4. A day before the first start gets slot 4, because Python reads index -1 as the
  last element (kyureki.py:261-272; `Lunisolar.ScanSlotOutsideWindow`).

## Model

| member | source | states |
|---|---|---|
| AngleMath.Normalized | kyureki.py:47-53 | the normalized angle lies in [0, 360) and differs from the input by a whole number of turns |
| AngleMath.NormalizeAngle | kyureki.py:47-53 | the two loops leave an angle in [0, 360), a whole number of turns away from the input and equal to `Normalized` |
| AngleMath.NormalizedUnique | kyureki.py:47-53 | a value in [0, 360) that is a whole number of turns from the input is the normalized angle: there is only one |
| AngleMath.NormalizedInRange | kyureki.py:49-52 | an angle already in [0, 360) is returned unchanged |
| AngleMath.NormalizedIdempotent | kyureki.py:47-53 | normalizing twice is normalizing once |
| AngleMath.NormalizedPeriodic | kyureki.py:47-53 | adding whole turns to the input does not change the result |
| EpochConverter.Trunc | kyureki.py:14-17 | Python `int()` on a float; its bounds are stated in `EpochConverter.TruncBounds` |
| EpochConverter.TruncBounds | kyureki.py:14-17 | Python `int()`: the integer next to x toward zero, below x for x >= 0 and above it for x < 0 |
| EpochConverter.ClampFebruary | kyureki.py:36-43 | a February day above 28 becomes 29 in a year divisible by 4 and 28 otherwise; year and month are kept; any other date is unchanged |
| EpochConverter.GregorianToJd | kyureki.py:8-20 | gregorian_to_jd; what it computes is stated in `EpochRoundTrip.GregorianToJdCounts` and `EpochRoundTrip.DateOfDayNumber` |
| EpochConverter.RawDateOf | kyureki.py:22-26 | the first half of jd_to_gregorian's inverse polynomial (centuries and the day within one); stated through `EpochRoundTrip.RoundTrip` |
| EpochConverter.DateInCentury | kyureki.py:27-34 | the second half (year, month and day within a century); each step is an integer division by `EpochRoundTrip.DateInCenturyIsInt` |
| EpochConverter.JdToGregorian | kyureki.py:22-45 | jd_to_gregorian; stated as the inverse of gregorian_to_jd in `EpochRoundTrip.RoundTrip` and `EpochRoundTrip.DayNumberRoundTrip` |
| EpochRoundTrip.GregorianToJdCounts | kyureki.py:8-20 | with January and February counted as months 13 and 14 of the previous year, gregorian_to_jd is 1721119 plus the plain count of days since 1 March of year 0 |
| EpochRoundTrip.DateInCenturyIsInt | kyureki.py:27-34 | on every day of a century, each truncated step of the second half is an integer division by an exact fraction: 146097/400 days a year, 1461/4, 3059/100 and 11 |
| EpochRoundTrip.ClampedDateOfDay | kyureki.py:27-43 | for the century, year and day of a valid date's count, the corrected second half gives back that date |
| EpochRoundTrip.RoundTrip | kyureki.py:8-45 | jd_to_gregorian(gregorian_to_jd(d)) == d for every valid date from year 1 on, the "February 30" case included |
| EpochRoundTrip.DateOfDayNumber | kyureki.py:8-20 | every day number from 1 January of year 1 on is gregorian_to_jd of some valid date |
| EpochRoundTrip.JdToGregorianOfWhole | kyureki.py:22-26 | for a non-negative Julian day, jd_to_gregorian depends only on the day number, not the time of day |
| EpochRoundTrip.DayNumberRoundTrip | kyureki.py:22-45 | for every Julian day from year 1 on, jd_to_gregorian gives a valid date that gregorian_to_jd maps back to the day number |
| EpochRoundTrip.Millennium | kyureki.py:8-45 | 1 January 2000 is day 2451544 and converts back to that date |
| SolarTerms.CenturyOffset | kyureki.py:110-114 | splitting the moment into day and fraction and shifting it by 9 hours gives (tm - 9/24 + 0.5 - 2451545) / 36525 |
| SolarTerms.LongitudeSun | kyureki.py:80-84 | the solar longitude lies in [0, 360) |
| SolarTerms.LongitudeSunIsNormalizedSum | kyureki.py:76-84 | the three normalizations give the normalized sum of the periodic terms and the mean longitude 36000.7695 t + 280.4659 |
| SolarTerms.TargetLongitude | kyureki.py:115-116 | the target is a non-negative multiple of the step (30 or 90) and the largest one not above the solar longitude |
| SolarTerms.SolarTerm | kyureki.py:115-116 | the stored term targets a multiple of the step in [0, 360) and holds the refined instant for that target |
| SolarTerms.QuarterTermLongitude | kyureki.py:148-149 | before_nibun targets 0, 90, 180 or 270 degrees |
| SolarTerms.BeforeNibun | kyureki.py:141-172 | nibun[0] gets the refined instant and the 90-degree target; the other slots are unchanged |
| SolarTerms.CalcChu | kyureki.py:108-139 | chu[i] gets the refined instant and the 30-degree target; no other slot changes |
| Lunisolar.ChuUpTo | kyureki.py:221-224 | n entries, of which slot 0 is the quarter term before tm0 |
| Lunisolar.ChuUpToLinks | kyureki.py:223-224 | each later slot is the principal term searched from 32 days after the one before |
| Lunisolar.FillChu | kyureki.py:218-224 | the array filled by before_nibun and the calc_chu loop is `ChuUpTo(tm0, 4)` |
| Lunisolar.NextSaku | kyureki.py:228-232 | the next new moon is solved from +30 days; it is solved again from +35 days exactly when the first answer is within 26 days of the previous one |
| Lunisolar.SakuUpTo | kyureki.py:226-232 | n entries, of which slot 0 is the new moon found from chu[0] |
| Lunisolar.SakuUpToLinks | kyureki.py:228-232 | each later slot is `NextSaku` of the one before |
| Lunisolar.FillSaku | kyureki.py:219-232 | the list filled by the loop is `SakuUpTo(chu0, 5)` |
| Lunisolar.Realign | kyureki.py:234-237 | the corrected realignment: shift forward when saku[1] starts on or before chu[0]'s day, appending the moon solved 35 days after the old saku[4]; shift back when saku[0] starts after it; otherwise unchanged; always five entries |
| Lunisolar.RealignAsWritten | kyureki.py:234-237 | the realignment as written: the forward shift appends the moon solved 35 days after the old saku[3]; the other cases agree with `Realign` |
| Lunisolar.RealignCovers | kyureki.py:234-237 | after the code's single shift chu[0]'s day lies in the first month, when chu[0] is before saku[2] and a backward solve does not pass it |
| Lunisolar.RealignKeepsIncreasing | kyureki.py:234-237 | the corrected realignment keeps the new-moon days increasing when each added solve moves past the moon it starts from |
| Lunisolar.RealignAsWrittenRepeats | kyureki.py:235 | when the solve from old saku[3] + 35 gives back saku[4], the window as written ends with the same new moon twice and slot 3 counts as lacking its term |
| Lunisolar.SynodicFill | kyureki.py:226-232 | with conjunctions every 29.5 days and chu[0] at 29.2, the fill loop gives the new moons 0, 29.5, 59, 88.5 and 118 |
| Lunisolar.RealignAsWrittenExample | kyureki.py:234-237 | from that window the code's forward shift ends on day 118 twice, the corrected one on 118 and 147.5 |
| Lunisolar.FirstMonthNumber | kyureki.py:242-244 | m[0]'s number is in 1..12 and is the 30-degree sector of the longitude plus 2, modulo 12; from a quarter term it is 3k + 2, so 2, 5, 8 or 11 |
| Lunisolar.Succ | kyureki.py:255-257 | the month after n is again in 1..12 and is n + 1 modulo 12 |
| Lunisolar.LeapSlotUpTo | kyureki.py:248-254 | a slot is marked only when `lap` is set, and it lies between 1 and 3 |
| Lunisolar.LeapSlotIsFirstLacking | kyureki.py:248-254 | a slot is marked exactly when `lap` is set and some month among 1..3 lacks its principal term; the marked slot is the first such month |
| Lunisolar.MonthTable | kyureki.py:241-259 | five entries, each the given month number, flag and new-moon day of its slot |
| Lunisolar.MarkLeapFilled | kyureki.py:249-253 | marking slot s intercalary after the fact keeps the entries before it; s takes the number of slot s - 1 |
| Lunisolar.NextFilled | kyureki.py:254-259 | writing slot i as the successor of slot i - 1 extends the prefix that agrees with the table, unless slot i is the intercalary one |
| Lunisolar.BuildMonths | kyureki.py:241-259 | the array the loop leaves, including the retroactive intercalary mark, is the closed-form table `MonthTable` |
| Lunisolar.MonthAtBeforeLeap | kyureki.py:249-255 | month numbers before the intercalary slot do not depend on where that slot is |
| Lunisolar.MonthAtInRange | kyureki.py:255-257 | every month number stays in 1..12 |
| Lunisolar.MonthTableNumbers | kyureki.py:241-259 | every number in the month table is in 1..12 |
| Lunisolar.MonthTableShape | kyureki.py:241-259 | m[0] is ordinary and numbered m0; an intercalary slot repeats the number before it; an ordinary slot follows it; at most one slot is intercalary; each slot starts on its new moon's day |
| Lunisolar.ScanSlot | kyureki.py:261-272 | the selected slot is always a valid index 0..4 |
| Lunisolar.SelectMonth | kyureki.py:261-272 | the scan loop with its break and the index fix-up selects `ScanSlot(m, q, 0)` |
| Lunisolar.ScanSlotContains | kyureki.py:261-272 | once the window has started, the selected month started on or before the day; with increasing starts and the day before the last start, the day lies between its start and the next month's start |
| Lunisolar.ScanSlotOutsideWindow | kyureki.py:261-275 | a day before the first start selects slot 4 (index -1); a day after every start selects slot 3 |
| Lunisolar.LabelDate | kyureki.py:274-284 | the month and flag are copied and the day is counted from the month's start; the year is one less than the Gregorian year exactly when the month is past 9 and past the Gregorian month |
| Lunisolar.LeapWindow | kyureki.py:239 | `lap`: the fifth new moon's day is not after the fourth term's day; its use is stated in `Lunisolar.MonthsOfShape` |
| Lunisolar.MonthsOf | kyureki.py:216-259 | the assembled month table; its properties are stated in `Lunisolar.MonthsOfShape` |
| Lunisolar.KyurekiOf | kyureki.py:216-284 | calc_kyureki as a function; its properties are stated in `Lunisolar.KyurekiOfShape` |
| Lunisolar.MonthsOfShape | kyureki.py:216-259 | the assembled table opens with month 2, 5, 8 or 11; its numbers are in 1..12 and follow one another; any intercalary slot is one of 1..3, appears only in a leap window, and is the first month lacking its term |
| Lunisolar.WindowStartsIncrease | kyureki.py:241-259 | when the realigned new moons fall on increasing days, the months' starts increase, which is the hypothesis of `Lunisolar.KyurekiOfShape` |
| Lunisolar.KyurekiOfShape | kyureki.py:216-284 | the month is in 1..12; intercalary only in a leap window; day >= 1 once the window has started; with increasing starts, the label of the month holding the day; from year 1 on, the year is the Gregorian year of the day or the one before |
| Lunisolar.CalcKyureki | kyureki.py:216-284 | the method composing the solvers, the loops and the scan returns `KyurekiOf(eph, tm0)`, with a month in 1..12; like the code it realigns with `RealignAsWritten` |
| Rokuyou.RokuyouIndex | kyureki.py:289 | the index is in 0..5 and congruent to month + day - 2 modulo 6 |
| Rokuyou.CalcRokuyou | kyureki.py:286-290 | the result is one of the six labels |
| Rokuyou.RokuyouCycle | kyureki.py:286-290 | the label repeats every six days; the next month is one step further; the next day moves the index one step around the cycle |
| Rokuyou.RokuyouFirstMonth | kyureki.py:288-290 | days 1 to 6 of month 1 go through the six labels in order, and the six labels are distinct |

## Left out

- Floating-point rounding: the model computes in exact reals. For the Julian-day formulas
  each intermediate value is either exactly representable in binary floating point (such
  as 365.25 * y for y divisible by 4) or well away from an integer boundary for the dates
  in use, so rounding would not change the result there; this is not proved.
- longitude_sun's periodic series (the cosine table, kyureki.py:55-78) and all of
  longitude_moon (kyureki.py:86-106): these are numerical approximations with cosines.
  `Ephemeris.sunPeriodic` stands for the series's sum.
- The refinement loops of calc_chu and before_nibun (kyureki.py:118-137, 151-170) and all of
  calc_saku (kyureki.py:174-214). This includes the restart after 15 rounds and the
  fall-back to the input after 30 rounds. They are root finders over floats. Their results
  are the parameters `Ephemeris.termRefine` and `Ephemeris.newMoon`, so nothing is claimed
  about convergence or about being within one second.
- The constants `PI` and `k` (kyureki.py:4-6): they are used only in the left-out cosine
  series.
- The 9/24 shift is modelled as arithmetic: the model does not capture that it converts JST
  to dynamical time.
- The 0/1 integers `lap` and the intercalary flag are modelled as `bool`.
- The chu table's two columns are a `Term` datatype, and the month table's three columns
  are a `Month` datatype.
- Lunisolar.FillSaku: works on a `seq` that it reassigns, because the source rebinds the Python list
  `saku` in the realignment step.
- SolarTerms.BeforeNibun, SolarTerms.CalcChu: state the stored term through
  `SolarTerm`, in which the refined instant is the parameter `termRefine`.
- Lunisolar.Realign: the corrected realignment is stated and proved on its own; `KyurekiOf`
  and `CalcKyureki` follow the code and use `RealignAsWritten`, so the model has no corrected
  calc_kyureki.
- Lunisolar.RealignCovers: holds only when one shift is enough. The code shifts at most
  once and never checks again, and the solvers are parameters, so the model cannot show
  that one shift always suffices.
- Lunisolar.KyurekiOfShape: states the "month holding the day" property only for windows
  whose new moons fall on increasing days. The solvers are parameters, so the model cannot
  show that real new moons have increasing days.

## Findings

| source | as written | input that shows it | evidently intended | confidence | as-written member | corrected member |
|---|---|---|---|---|---|---|
| kyureki.py:235 | the forward shift solves the appended new moon from 35 days after the old saku[3], because the list on the right is the unshifted one | conjunctions every 29.5 days, each solve returning the last one at or before its guess, and chu[0] at 29.2: the fill gives `[0, 29.5, 59, 88.5, 118]` and the shift makes it `[29.5, 59, 88.5, 118, 118]` | solve it from 35 days after the old saku[4], the window's last moon, as line 232 does for each new moon | not executed | Lunisolar.RealignAsWrittenRepeats | Lunisolar.RealignKeepsIncreasing |
