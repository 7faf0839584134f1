/** Angle utilities of the EKM controller: the heading unwrap `ang_continuos`
    and the unused piecewise difference `GetAngleDifferenceOld`. */
module Angles {
  import opened Numerics

  /** A jump of more than this between two headings is treated as a wrap artifact. */
  const WRAP_LIMIT: real := 1.8 * PI

  /** (int)M_PI: the double-to-int cast truncates, and M_PI is positive. */
  lemma PiTruncatesToThree()
    ensures PI.Floor == 3
  {
  }

  /** The correction count n = (int)|1.1 * delta| / (int)M_PI.
      The cast truncates a non-negative value, so it is Floor; both operands of
      the integer division are non-negative, so C's and Dafny's division agree. */
  function CorrectionCount(delta: real): (n: int)
    ensures n >= 0
  {
    Abs(1.1 * delta).Floor / PI.Floor
  }

  /** ang_continuos(past, now). The source's second test `a < 1.8*M_PI` is
      reached only when |a| > 1.8*PI and not a > 1.8*PI, so it always holds
      there and is written as the else branch. */
  function AngContinuous(past: real, now: real): (r: real)
    ensures Abs(now - past) <= WRAP_LIMIT ==> r == now
  {
    var a := now - past;
    if Abs(a) > WRAP_LIMIT then
      var n := CorrectionCount(a) as real;
      if a > WRAP_LIMIT then now - n * PI else now + n * PI
    else
      now
  }

  /** A step of at most the limit is passed through unchanged; a larger one is
      replaced by a value strictly closer to the previous heading. In
      particular a heading is its own continuation. */
  lemma AngContinuousNarrows(past: real, now: real)
    ensures AngContinuous(now, now) == now
    ensures Abs(now - past) <= WRAP_LIMIT ==> AngContinuous(past, now) == now
    ensures Abs(now - past) > WRAP_LIMIT ==>
      Abs(AngContinuous(past, now) - past) < Abs(now - past)
  {
    var a := now - past;
    if Abs(a) > WRAP_LIMIT {
      JumpShrinks(a, CorrectionCount(a));
    }
  }

  /** The shift n*PI applied to a jump `a` leaves a strictly smaller jump. */
  lemma JumpShrinks(a: real, n: int)
    requires Abs(a) > WRAP_LIMIT && n == CorrectionCount(a)
    ensures a > WRAP_LIMIT ==> Abs(a - n as real * PI) < Abs(a)
    ensures a <= WRAP_LIMIT ==> Abs(a + n as real * PI) < Abs(a)
  {
    CountAtLeastTwo(a);
  }

  /** Once the jump exceeds the limit, at least two half-turns are applied. */
  lemma CountAtLeastTwo(a: real)
    requires Abs(a) > WRAP_LIMIT
    ensures CorrectionCount(a) >= 2
  {
    assert 1.1 * Abs(a) > 6.0;
    assert Abs(1.1 * a) == 1.1 * Abs(a);
    assert Abs(1.1 * a).Floor >= 6;
  }

  /** A jump larger than the limit is corrected by n*PI with n >= 2, against the
      direction of the jump: down for a jump up, up for a jump down. */
  lemma WrapCorrection(past: real, now: real)
    requires Abs(now - past) > WRAP_LIMIT
    ensures CorrectionCount(now - past) >= 2
    ensures now - past > 0.0 ==>
      AngContinuous(past, now) == now - CorrectionCount(now - past) as real * PI < now
    ensures now - past < 0.0 ==>
      AngContinuous(past, now) == now + CorrectionCount(now - past) as real * PI > now
  {
    CountAtLeastTwo(now - past);
  }

  /** A jump between the limit and 2.6*PI (one wrap of the atan2 branch cut)
      is undone by exactly one full turn. */
  lemma SingleTurnCorrection(past: real, now: real)
    requires WRAP_LIMIT < Abs(now - past) <= 2.6 * PI
    ensures now - past > 0.0 ==> AngContinuous(past, now) == now - 2.0 * PI
    ensures now - past < 0.0 ==> AngContinuous(past, now) == now + 2.0 * PI
  {
    var a := now - past;
    CountBetween(a, 6.0, 9.0);
    assert CorrectionCount(a) == 2;
    if a > 0.0 {
      assert a > WRAP_LIMIT;
    }
  }

  /** A jump between 2.61*PI and 3.4*PI is shifted by three half-turns, so the
      result points the opposite way to `now` (an odd multiple of PI). */
  lemma HalfTurnCorrection(past: real, now: real)
    requires 2.61 * PI <= Abs(now - past) <= 3.4 * PI
    ensures Abs(AngContinuous(past, now) - now) == 3.0 * PI
  {
    var a := now - past;
    CountBetween(a, 9.0, 12.0);
    assert CorrectionCount(a) == 3;
    assert Abs(a) > WRAP_LIMIT;
    if a > 0.0 {
      assert a > WRAP_LIMIT;
      assert AngContinuous(past, now) - now == -3.0 * PI;
    } else {
      assert AngContinuous(past, now) - now == 3.0 * PI;
    }
  }

  /** Bounds on 1.1*|a| between two whole numbers lo <= . < hi fix the
      truncated value, and with it the correction count. */
  lemma CountBetween(a: real, lo: real, hi: real)
    requires lo == lo.Floor as real && hi == hi.Floor as real
    requires lo <= 1.1 * Abs(a) < hi
    ensures lo.Floor <= Abs(1.1 * a).Floor < hi.Floor
    ensures CorrectionCount(a) == Abs(1.1 * a).Floor / 3
  {
    assert Abs(1.1 * a) == 1.1 * Abs(a);
    PiTruncatesToThree();
  }

  /** GetAngleDifferenceOld(a, b), as written (defined but never called).
      Away from its first branch it agrees with the corrected AngleDifference;
      in the first branch it yields the corrected difference of the swapped
      arguments. */
  function GetAngleDifferenceOld(a: real, b: real): (r: real)
    ensures a > 3.0 && b < -3.0 ==> r == AngleDifference(b, a)
    ensures !(a > 3.0 && b < -3.0) ==> r == AngleDifference(a, b)
  {
    if a > 3.0 && b < -3.0 then (b + PI * 2.0) - a
    else if a < -3.0 && b > 3.0 then (a + PI * 2.0) - b
    else a - b
  }

  /** The first branch returns (b + 2*PI) - a, the wrapped value of b - a rather
      than of a - b: swapping the arguments does not negate the result, and the
      result is not a - b shifted by -1, 0 or +1 turns (OldNotAWholeTurnShift
      rules out every whole number of turns). */
  lemma GetAngleDifferenceOldSignError()
    ensures GetAngleDifferenceOld(3.1, -3.1) == GetAngleDifferenceOld(-3.1, 3.1) > 0.0
    ensures GetAngleDifferenceOld(3.1, -3.1) !in {6.2 - 2.0 * PI, 6.2, 6.2 + 2.0 * PI}
  {
  }

  /** No whole number k of turns turns 3.1 - (-3.1) into the value the first
      branch returns for (3.1, -3.1). */
  lemma OldNotAWholeTurnShift(k: int)
    ensures GetAngleDifferenceOld(3.1, -3.1) != 6.2 + (k as real) * 2.0 * PI
  {
    if k >= 1 {
      assert (k as real) * 2.0 * PI >= 2.0 * PI;
    } else if k <= -2 {
      assert (k as real) * 2.0 * PI <= -4.0 * PI;
    }
  }

  /** The evidently intended difference: a - b, moved by one turn when the two
      angles sit on opposite sides of the branch cut. */
  function AngleDifference(a: real, b: real): (r: real)
    ensures r == a - b || r == a - b - 2.0 * PI || r == a - b + 2.0 * PI
  {
    if a > 3.0 && b < -3.0 then a - (b + PI * 2.0)
    else if a < -3.0 && b > 3.0 then (a + PI * 2.0) - b
    else a - b
  }

  /** Swapping the arguments negates the corrected difference. */
  lemma AngleDifferenceAntisymmetric(a: real, b: real)
    ensures AngleDifference(b, a) == -AngleDifference(a, b)
  {
  }

  /** Across the branch cut the corrected difference is small: for angles in
      (-PI, PI] that straddle it, the result lies within (-2*PI + 6, 2*PI - 6). */
  lemma AngleDifferenceAcrossCut(a: real, b: real)
    requires -PI < a <= PI && -PI < b <= PI
    requires (a > 3.0 && b < -3.0) || (a < -3.0 && b > 3.0)
    ensures Abs(AngleDifference(a, b)) < 2.0 * PI - 6.0
  {
  }
}
