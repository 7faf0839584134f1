/** The per-path caches of the EKM controller: for every sample of the
    interpolated path, a continuity-corrected tangent heading (phi_p_) and a
    curvature-radius proxy (rho_), as `DerivePathInterp` builds them. */
module PathCurvature {
  import opened Numerics
  import opened Angles
  import opened DiffArray

  /** One sample of the interpolated path, at coordinates p(i), q(i). */
  datatype PathPoint = PathPoint(p: real, q: real)

  /** Guard added to the curvature denominator, so that it is never zero. */
  const ZERO_OFF: real := 0.0001
  /** Fixed inverse sampling step, 1/0.01. */
  const IDS: real := 1.0 / 0.01

  function Xs(path: seq<PathPoint>): (xs: seq<real>)
    ensures |xs| == |path| && forall i :: 0 <= i < |path| ==> xs[i] == path[i].p
  {
    seq(|path|, i requires 0 <= i < |path| => path[i].p)
  }

  function Ys(path: seq<PathPoint>): (ys: seq<real>)
    ensures |ys| == |path| && forall i :: 0 <= i < |path| ==> ys[i] == path[i].q
  {
    seq(|path|, i requires 0 <= i < |path| => path[i].q)
  }

  /** The first loop of DerivePathInterp: the step from each sample to the
      next, along p and along q, with a 0 pushed after the last sample. */
  method PathSteps(path: seq<PathPoint>) returns (dx: seq<real>, dy: seq<real>)
    requires |path| >= 1
    ensures dx == Diff(Xs(path)) && dy == Diff(Ys(path))
  {
    dx, dy := [], [];
    var i := 0;
    while i < |path| - 1
      invariant 0 <= i <= |path| - 1
      invariant |dx| == i && |dy| == i
      invariant forall k :: 0 <= k < i ==> dx[k] == path[k + 1].p - path[k].p
      invariant forall k :: 0 <= k < i ==> dy[k] == path[k + 1].q - path[k].q
    {
      dx := dx + [path[i + 1].p - path[i].p];
      dy := dy + [path[i + 1].q - path[i].q];
      i := i + 1;
    }
    dx := dx + [0.0];
    dy := dy + [0.0];
    DiffUnique(Xs(path), dx);
    DiffUnique(Ys(path), dy);
  }

  /** The bound of that loop, path_interpol.n() - 1, computed in an unsigned
      type with `modulus` values (its width is not part of this model). */
  function UnsignedStepBound(n: nat, modulus: nat): (b: nat)
    requires 2 <= modulus && n < modulus
    ensures b < modulus
    ensures n >= 1 ==> b == n - 1
  {
    (n - 1) % modulus
  }

  /** As written, an empty path does not skip the step loop: its bound wraps
      to modulus - 1, so the first iteration runs and reads sample 1 of a path
      that has none. PathSteps and DerivePathInterp model the intended
      behaviour instead: no steps, and empty caches. */
  lemma EmptyPathStepLoopRuns(modulus: nat)
    requires modulus >= 2
    ensures UnsignedStepBound(0, modulus) == modulus - 1
    ensures 0 < UnsignedStepBound(0, modulus)
  {
  }

  /** tphi: the heading atan2(dy * fact, dx * fact) of a step scaled by fact. */
  function StepHeading(lib: MathLib, dy: real, dx: real, fact: real): (t: real)
    ensures dy == 0.0 && dx == 0.0 ==> t == lib.Atan2(0.0, 0.0)
    ensures lib.Sound() && dy == 0.0 && dx >= 0.0 && fact > 0.0 ==> t == 0.0
  {
    lib.Atan2(dy * fact, dx * fact)
  }

  /** The first k headings: each is the atan2 of the scaled first difference,
      passed through AngContinuous against the heading before it (0 for the first). */
  function Headings(lib: MathLib, dx: seq<real>, dy: seq<real>, fact: real, k: nat): (h: seq<real>)
    requires |dx| == |dy| && k <= |dx|
    ensures |h| == k
  {
    if k == 0 then []
    else
      var prev := Headings(lib, dx, dy, fact, k - 1);
      var pphi := if |prev| > 0 then prev[|prev| - 1] else 0.0;
      prev + [AngContinuous(pphi, StepHeading(lib, dy[k - 1], dx[k - 1], fact))]
  }

  /** One more heading appends the next chained value. */
  lemma HeadingsSucc(lib: MathLib, dx: seq<real>, dy: seq<real>, fact: real, k: nat)
    requires |dx| == |dy| && k < |dx|
    ensures Headings(lib, dx, dy, fact, k + 1)
         == Headings(lib, dx, dy, fact, k)
            + [AngContinuous(if k == 0 then 0.0 else Headings(lib, dx, dy, fact, k)[k - 1],
                             StepHeading(lib, dy[k], dx[k], fact))]
  {
  }

  /** Computing more headings leaves the earlier ones as they were. */
  lemma {:induction false} HeadingsPrefix(lib: MathLib, dx: seq<real>, dy: seq<real>, fact: real, k: nat, m: nat)
    requires |dx| == |dy| && k <= m <= |dx|
    ensures Headings(lib, dx, dy, fact, k) == Headings(lib, dx, dy, fact, m)[..k]
    decreases m
  {
    if k < m {
      HeadingsPrefix(lib, dx, dy, fact, k, m - 1);
    }
  }

  /** Heading i is chained from heading i - 1 (from 0 for i == 0). */
  lemma HeadingsAt(lib: MathLib, dx: seq<real>, dy: seq<real>, fact: real, k: nat, i: nat)
    requires |dx| == |dy| && i < k <= |dx|
    ensures Headings(lib, dx, dy, fact, k)[i]
         == AngContinuous(if i == 0 then 0.0 else Headings(lib, dx, dy, fact, k)[i - 1],
                          StepHeading(lib, dy[i], dx[i], fact))
  {
    HeadingsSucc(lib, dx, dy, fact, i);
    HeadingsPrefix(lib, dx, dy, fact, i + 1, k);
    if i > 0 {
      HeadingsPrefix(lib, dx, dy, fact, i, k);
    }
  }

  /** The curvature-radius proxy at one sample:
      ((dx*IDS)^2 + (dy*IDS)^2)^1.5 / (|dx*IDS * ddy*IDS*IDS - dy*IDS * ddx*IDS*IDS| + ZERO_OFF). */
  function RadiusAt(lib: MathLib, tdx: real, tdy: real, tddx: real, tddy: real): (r: real)
    ensures lib.Sound() ==> r >= 0.0
    ensures tdx == 0.0 && tdy == 0.0 && lib.Sound() ==> r == 0.0
  {
    var num := lib.Pow15(Sq(tdx * IDS) + Sq(tdy * IDS));
    var den := Abs((tdx * IDS) * ((tddy * IDS) * IDS) - (tdy * IDS) * ((tddx * IDS) * IDS));
    assert den + ZERO_OFF > 0.0;
    NonNegativeQuotient(num, den + ZERO_OFF);
    num / (den + ZERO_OFF)
  }

  lemma NonNegativeQuotient(x: real, y: real)
    requires y > 0.0
    ensures x >= 0.0 ==> x / y >= 0.0
  {
  }

  /** The radius proxy of every sample. */
  function Radii(lib: MathLib, dx: seq<real>, dy: seq<real>, ddx: seq<real>, ddy: seq<real>): (r: seq<real>)
    requires |dx| == |dy| == |ddx| == |ddy|
    ensures |r| == |dx|
  {
    seq(|dx|, i requires 0 <= i < |dx| => RadiusAt(lib, dx[i], dy[i], ddx[i], ddy[i]))
  }

  /** Extending a prefix of the radii by one entry appends that sample's radius. */
  lemma RadiiStep(lib: MathLib, dx: seq<real>, dy: seq<real>, ddx: seq<real>, ddy: seq<real>, i: nat)
    requires |dx| == |dy| == |ddx| == |ddy| && i < |dx|
    ensures Radii(lib, dx, dy, ddx, ddy)[..i + 1]
         == Radii(lib, dx, dy, ddx, ddy)[..i] + [RadiusAt(lib, dx[i], dy[i], ddx[i], ddy[i])]
  {
  }

  /** phi_p_ after DerivePathInterp(fact) on `path`. */
  function HeadingsOf(lib: MathLib, path: seq<PathPoint>, fact: real): (h: seq<real>)
    requires |path| >= 1
    ensures |h| == |path|
  {
    Headings(lib, Diff(Xs(path)), Diff(Ys(path)), fact, |path|)
  }

  /** rho_ after DerivePathInterp on `path` (independent of the scale factor). */
  function RadiiOf(lib: MathLib, path: seq<PathPoint>): (r: seq<real>)
    requires |path| >= 1
    ensures |r| == |path|
  {
    var dx := Diff(Xs(path));
    var dy := Diff(Ys(path));
    Radii(lib, dx, dy, Diff(dx), Diff(dy))
  }

  /** phi_p_[0] = ang_continuos(0, tphi(0)) and
      phi_p_[i] = ang_continuos(phi_p_[i-1], tphi(i)), where tphi(i) is the
      StepHeading of the step to sample i + 1, or atan2(0, 0) at the last sample. */
  lemma HeadingsOfChain(lib: MathLib, path: seq<PathPoint>, fact: real, i: nat)
    requires i < |path|
    ensures |HeadingsOf(lib, path, fact)| == |path|
    ensures i + 1 < |path| ==>
      HeadingsOf(lib, path, fact)[i]
      == AngContinuous(if i == 0 then 0.0 else HeadingsOf(lib, path, fact)[i - 1],
                       StepHeading(lib, path[i + 1].q - path[i].q, path[i + 1].p - path[i].p, fact))
    ensures i + 1 == |path| ==>
      HeadingsOf(lib, path, fact)[i]
      == AngContinuous(if i == 0 then 0.0 else HeadingsOf(lib, path, fact)[i - 1], lib.Atan2(0.0, 0.0))
  {
    HeadingsAt(lib, Diff(Xs(path)), Diff(Ys(path)), fact, |path|, i);
    if i + 1 < |path| {
      StepAt(path, i);
    }
  }

  /** The padded first differences at an interior sample are the steps to the next one. */
  lemma StepAt(path: seq<PathPoint>, i: nat)
    requires i + 1 < |path|
    ensures Diff(Xs(path))[i] == path[i + 1].p - path[i].p
    ensures Diff(Ys(path))[i] == path[i + 1].q - path[i].q
  {
  }

  /** Every curvature-radius proxy is non-negative, and the last one is 0
      because the padded differences vanish there. */
  lemma RadiiNonNegative(lib: MathLib, path: seq<PathPoint>)
    requires lib.Sound() && |path| >= 1
    ensures |RadiiOf(lib, path)| == |path|
    ensures forall i :: 0 <= i < |path| ==> RadiiOf(lib, path)[i] >= 0.0
    ensures RadiiOf(lib, path)[|path| - 1] == 0.0
  {
  }

  /** A path along the +x axis (constant q, non-decreasing p): every heading is 0. */
  lemma StraightPathHeadings(lib: MathLib, path: seq<PathPoint>, fact: real)
    requires lib.Sound() && |path| >= 1 && fact > 0.0
    requires forall i :: 0 <= i < |path| ==> path[i].q == path[0].q
    requires forall i :: 0 <= i < |path| - 1 ==> path[i].p <= path[i + 1].p
    ensures forall i :: 0 <= i < |path| ==> HeadingsOf(lib, path, fact)[i] == 0.0
  {
    var dx, dy := Diff(Xs(path)), Diff(Ys(path));
    assert forall k :: 0 <= k < |path| ==> dy[k] == 0.0 && dx[k] >= 0.0;
    forall i | 0 <= i < |path|
      ensures HeadingsOf(lib, path, fact)[i] == 0.0
    {
      StraightHeadings(lib, dx, dy, fact, i);
    }
  }

  /** On a path with constant q, every curvature denominator reduces to the
      guard ZERO_OFF: the radius is the largest the segment length allows. */
  lemma StraightPathRadii(lib: MathLib, path: seq<PathPoint>)
    requires |path| >= 1
    requires forall i :: 0 <= i < |path| ==> path[i].q == path[0].q
    ensures forall i :: 0 <= i < |path| - 1 ==>
      RadiiOf(lib, path)[i] == lib.Pow15(Sq((path[i + 1].p - path[i].p) * IDS)) / ZERO_OFF
  {
    forall i | 0 <= i < |path| - 1
      ensures RadiiOf(lib, path)[i] == lib.Pow15(Sq((path[i + 1].p - path[i].p) * IDS)) / ZERO_OFF
    {
      StraightRadiusAt(lib, path, i);
    }
  }

  /** One index of StraightPathRadii: no lateral step at i and at i + 1. */
  lemma StraightRadiusAt(lib: MathLib, path: seq<PathPoint>, i: nat)
    requires i < |path| - 1 && path[i + 1].q == path[i].q
    requires i + 2 < |path| ==> path[i + 2].q == path[i + 1].q
    ensures RadiiOf(lib, path)[i] == lib.Pow15(Sq((path[i + 1].p - path[i].p) * IDS)) / ZERO_OFF
  {
    var dx, dy := Diff(Xs(path)), Diff(Ys(path));
    LevelDiffs(Ys(path), i);
    RadiiEntry(lib, dx, dy, Diff(dx), Diff(dy), i, path[i + 1].p - path[i].p);
  }

  /** Level at i, i + 1 (and i + 2 when present): zero first and second differences at i. */
  lemma LevelDiffs(s: seq<real>, i: nat)
    requires i < |s| - 1 && s[i + 1] == s[i]
    requires i + 2 < |s| ==> s[i + 2] == s[i + 1]
    ensures Diff(s)[i] == 0.0 && Diff(Diff(s))[i] == 0.0
  {
  }

  lemma RadiiEntry(lib: MathLib, dx: seq<real>, dy: seq<real>, ddx: seq<real>, ddy: seq<real>, i: nat, step: real)
    requires |dx| == |dy| == |ddx| == |ddy| && i < |dx|
    requires dy[i] == 0.0 && ddy[i] == 0.0 && dx[i] == step
    ensures Radii(lib, dx, dy, ddx, ddy)[i] == lib.Pow15(Sq(step * IDS)) / ZERO_OFF
  {
    NoLateralStep(lib, dx[i], dy[i], ddx[i], ddy[i], step);
  }

  /** Without lateral first and second differences, the curvature denominator
      is the guard alone. */
  lemma NoLateralStep(lib: MathLib, tdx: real, tdy: real, tddx: real, tddy: real, step: real)
    requires tdy == 0.0 && tddy == 0.0 && tdx == step
    ensures RadiusAt(lib, tdx, tdy, tddx, tddy) == lib.Pow15(Sq(step * IDS)) / ZERO_OFF
  {
    assert Sq(tdy * IDS) == 0.0;
    assert (tdx * IDS) * ((tddy * IDS) * IDS) == 0.0;
    assert (tdy * IDS) * ((tddx * IDS) * IDS) == 0.0;
    assert Sq(tdx * IDS) == Sq(step * IDS);
  }

  /** With no lateral steps and forward steps along +x, headings stay at 0. */
  lemma {:induction false} StraightHeadings(lib: MathLib, dx: seq<real>, dy: seq<real>, fact: real, i: nat)
    requires lib.Sound() && fact > 0.0 && |dx| == |dy| && i < |dx|
    requires forall k :: 0 <= k < |dx| ==> dy[k] == 0.0 && dx[k] >= 0.0
    ensures Headings(lib, dx, dy, fact, |dx|)[i] == 0.0
  {
    HeadingsAt(lib, dx, dy, fact, |dx|, i);
    if i > 0 {
      StraightHeadings(lib, dx, dy, fact, i - 1);
    }
    assert StepHeading(lib, dy[i], dx[i], fact) == 0.0;
  }
}
