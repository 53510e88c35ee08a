/** Degree arithmetic of the calculator: every longitude it handles is kept in [0, 360). */
module AngleMath {

  /** A real that is a whole number of full turns. */
  predicate WholeTurns(x: real) {
    360.0 * (x / 360.0).Floor as real == x
  }

  /** The representative of `a` in [0, 360), defined by the floor of its number of turns. */
  function Normalized(a: real): (r: real)
    ensures 0.0 <= r < 360.0
    ensures WholeTurns(r - a)
  {
    var turns := (a / 360.0).Floor;
    var r := a - 360.0 * turns as real;
    assert (r - a) / 360.0 == (-turns) as real;
    assert ((-turns) as real).Floor == -turns;
    r
  }

  /** A value in [0, 360) that differs from `a` by whole turns is the normalized `a`. */
  lemma NormalizedUnique(a: real, r: real, k: int)
    requires 0.0 <= r < 360.0
    requires r == a + 360.0 * k as real
    ensures r == Normalized(a)
  {
    assert (a / 360.0).Floor == -k by {
      assert a / 360.0 == r / 360.0 - k as real;
    }
  }

  /** normalize_angle: add full turns while negative, then subtract them while 360 or more. */
  method NormalizeAngle(angle: real) returns (r: real)
    ensures 0.0 <= r < 360.0
    ensures WholeTurns(r - angle)
    ensures r == Normalized(angle)
  {
    ghost var k: int := 0;
    r := angle;
    while r < 0.0
      invariant r == angle + 360.0 * k as real
      decreases (-r).Floor
    {
      r := r + 360.0;
      k := k + 1;
    }
    while r >= 360.0
      invariant 0.0 <= r
      invariant r == angle + 360.0 * k as real
      decreases r.Floor
    {
      r := r - 360.0;
      k := k - 1;
    }
    NormalizedUnique(angle, r, k);
  }

  /** An angle already in [0, 360) is returned unchanged. */
  lemma NormalizedInRange(a: real)
    requires 0.0 <= a < 360.0
    ensures Normalized(a) == a
  {
    NormalizedUnique(a, a, 0);
  }

  /** Normalizing twice is normalizing once. */
  lemma NormalizedIdempotent(a: real)
    ensures Normalized(Normalized(a)) == Normalized(a)
  {
    NormalizedInRange(Normalized(a));
  }

  /** Adding whole turns does not change the normalized angle. */
  lemma NormalizedPeriodic(a: real, k: int)
    ensures Normalized(a + 360.0 * k as real) == Normalized(a)
  {
    var r := Normalized(a);
    var j := ((r - a) / 360.0).Floor;
    NormalizedUnique(a + 360.0 * k as real, r, j - k);
  }
}
