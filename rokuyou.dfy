/** The six-day rokuyou cycle, read off a lunisolar month and day. */
module Rokuyou {

  /** The labels in cycle order: senshou, tomobiki, senbu, butsumetsu, taian, shakkou. */
  const Labels: seq<string> := ["先勝", "友引", "先負", "仏滅", "大安", "赤口"]

  /** Position of a (month, day) in the cycle: the residue of month + day - 2, always one of
      0..5 as Python's % gives for a positive divisor. */
  function RokuyouIndex(month: int, day: int): (i: int)
    ensures 0 <= i < 6
    ensures (i - (month + day - 2)) % 6 == 0
  {
    (month + day - 2) % 6
  }

  /** calc_rokuyou: the label at that position, so always one of the six. */
  function CalcRokuyou(month: int, day: int): (r: string)
    ensures r in Labels
  {
    Labels[RokuyouIndex(month, day)]
  }

  /** The residue modulo 6 from a known quotient. */
  lemma ModSix(a: int, q: int, r: int)
    requires a == 6 * q + r && 0 <= r < 6
    ensures a % 6 == r
  {
  }

  /** The cycle repeats every six days, and the next month starts one step further on. */
  lemma RokuyouCycle(month: int, day: int)
    ensures CalcRokuyou(month, day + 6) == CalcRokuyou(month, day)
    ensures CalcRokuyou(month + 1, day) == CalcRokuyou(month, day + 1)
    ensures RokuyouIndex(month, day + 1) == (RokuyouIndex(month, day) + 1) % 6
  {
    var k := month + day - 2;
    var q, r := k / 6, k % 6;
    ModSix(k + 6, q + 1, r);
    if r < 5 {
      ModSix(k + 1, q, r + 1);
      ModSix(r + 1, 0, r + 1);
    } else {
      ModSix(k + 1, q + 1, 0);
      ModSix(r + 1, 1, 0);
    }
  }

  /** Days 1 to 6 of month 1 run through the six labels in order, each once. */
  lemma RokuyouFirstMonth()
    ensures forall d :: 1 <= d <= 6 ==> CalcRokuyou(1, d) == Labels[d - 1]
    ensures forall i, j :: 0 <= i < j < 6 ==> Labels[i] != Labels[j]
  {
  }
}
