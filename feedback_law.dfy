/** One control cycle of the EKM feedback law, as a function of the cycle's
    inputs and the heading remembered from the previous cycle. */
module FeedbackLaw {
  import opened Numerics
  import opened PathCurvature

  /** Robot pose (x, y, theta) from the pose tracker. */
  datatype Pose = Pose(x: real, y: real, theta: real)

  /** The controller options read in this file: sample time ts, nominal speed u_d,
      saturation limits lx, ly, lw, gains kx, ky, kw, lookahead n, and the
      geometry offsets a and alpha. */
  datatype Options = Options(
    ts: real, uD: real,
    lx: real, ly: real, lw: real,
    kx: real, ky: real, kw: real,
    n: int, a: real, alpha: real)
  {
    /** The options the law divides by are non-zero. */
    predicate Valid() {
      ts != 0.0 && lx != 0.0 && ly != 0.0 && lw != 0.0
    }
  }

  /** The command fields the controller sets: speed, direction_angle, rotation. */
  datatype MoveCommand = MoveCommand(speed: real, directionAngle: real, rotation: real)

  /** The command stopMotion leaves in cmd_. */
  const STOP: MoveCommand := MoveCommand(0.0, 0.0, 0.0)

  /** Curvature gain kv, fixed in the cycle rather than read from the options. */
  const KV: real := 0.6

  /** What one cycle yields: the command, the desired heading phi_d (remembered
      for the next cycle) and the heading rate phip_d. */
  datatype CycleOutcome = CycleOutcome(command: MoveCommand, phiD: real, headingRate: real)

  /** Saturated proportional correction limit * tanh(gain * error / limit):
      never larger in magnitude than the limit. */
  function Saturate(lib: MathLib, limit: real, gain: real, error: real): (r: real)
    requires limit != 0.0
    ensures lib.Sound() ==> -Abs(limit) <= r <= Abs(limit)
  {
    var t := lib.Tanh(gain * error / limit);
    ScaledUnitBound(limit, t);
    limit * t
  }

  lemma ScaledUnitBound(limit: real, t: real)
    ensures -1.0 <= t <= 1.0 ==> -Abs(limit) <= limit * t <= Abs(limit)
  {
    if limit < 0.0 {
      assert limit * t == -((-limit) * t);
    }
  }

  /** phip_d: on a cycle without a remembered heading, the previous heading is
      taken to be phi_d itself; otherwise the remembered one. */
  function HeadingRate(hasPrev: bool, prevPhiD: real, phiD: real, ts: real): (rate: real)
    requires ts != 0.0
    ensures !hasPrev ==> rate == 0.0
    ensures hasPrev && prevPhiD == phiD ==> rate == 0.0
  {
    var prev := if hasPrev then prevPhiD else phiD;
    (phiD - prev) / ts
  }

  /** The rate computed from whichever heading was taken as the previous one. */
  lemma HeadingRateFrom(hasPrev: bool, prevPhiD: real, phiD: real, ts: real, used: real)
    requires ts != 0.0 && used == (if hasPrev then prevPhiD else phiD)
    ensures (phiD - used) / ts == HeadingRate(hasPrev, prevPhiD, phiD, ts)
  {
  }

  /** Commanded velocity (nu_x, nu_y) of one cycle. */
  datatype Velocity = Velocity(nuX: real, nuY: real)

  /** The tracking velocity towards the target sample, whose heading is phiP and
      whose curvature-radius proxy is rho: the path tangent scaled by u_d and by
      tanh(kv * rho), plus a saturated correction of the position error per axis. */
  function TrackingVelocity(lib: MathLib, opt: Options, pose: Pose, target: PathPoint,
                            phiP: real, rho: real): (v: Velocity)
    requires opt.Valid()
    ensures lib.Sound() ==>
      && Abs(v.nuX - opt.uD * lib.Cos(phiP) * lib.Tanh(KV * rho)) <= Abs(opt.lx)
      && Abs(v.nuY - opt.uD * lib.Sin(phiP) * lib.Tanh(KV * rho)) <= Abs(opt.ly)
  {
    var rc := lib.Tanh(KV * rho);
    var xpD := opt.uD * lib.Cos(phiP) * rc;
    var ypD := opt.uD * lib.Sin(phiP) * rc;
    var xT := target.p - pose.x;
    var yT := target.q - pose.y;
    Velocity(xpD + Saturate(lib, opt.lx, opt.kx, xT), ypD + Saturate(lib, opt.ly, opt.ky, yT))
  }

  /** The command for velocity v, desired heading phiD and heading rate phipD:
      rotation nu_p = phipD plus a saturated correction of the heading error,
      speed u = nu_x cos(theta) + nu_y sin(theta) + nu_p a sin(alpha), no direction angle. */
  function CommandFor(lib: MathLib, opt: Options, pose: Pose, v: Velocity, phiD: real, phipD: real): (c: MoveCommand)
    requires opt.Valid()
    ensures c.directionAngle == 0.0
    ensures lib.Sound() ==> Abs(c.rotation - phipD) <= Abs(opt.lw)
  {
    var phiT := phiD - pose.theta;
    var nuP := phipD + Saturate(lib, opt.lw, opt.kw, phiT);
    var u := v.nuX * lib.Cos(pose.theta) + v.nuY * lib.Sin(pose.theta) + nuP * opt.a * lib.Sin(opt.alpha);
    MoveCommand(u, 0.0, nuP)
  }

  /** The feedback law of one cycle, towards the target sample with heading
      phiP and curvature-radius proxy rho, given the remembered heading. */
  function EvaluateCycle(lib: MathLib, opt: Options, pose: Pose, target: PathPoint,
                         phiP: real, rho: real, hasPrev: bool, prevPhiD: real): (o: CycleOutcome)
    requires opt.Valid()
    ensures o.command.directionAngle == 0.0
    ensures !hasPrev ==> o.headingRate == 0.0
    ensures o.command.rotation == o.headingRate + Saturate(lib, opt.lw, opt.kw, o.phiD - pose.theta)
  {
    var v := TrackingVelocity(lib, opt, pose, target, phiP, rho);
    var phiD := lib.Atan2(v.nuY, v.nuX);
    var phipD := HeadingRate(hasPrev, prevPhiD, phiD, opt.ts);
    CycleOutcome(CommandFor(lib, opt, pose, v, phiD, phipD), phiD, phipD)
  }

  /** Bootstrap: without a remembered heading the heading rate is exactly 0, so
      the rotation is the saturated heading correction alone, within [-|lw|, |lw|]. */
  lemma FirstCycleHasNoHeadingRate(lib: MathLib, opt: Options, pose: Pose, target: PathPoint,
                                   phiP: real, rho: real, prevPhiD: real)
    requires opt.Valid() && lib.Sound()
    ensures var c := EvaluateCycle(lib, opt, pose, target, phiP, rho, false, prevPhiD);
      && c.headingRate == 0.0
      && c.command.rotation == Saturate(lib, opt.lw, opt.kw, c.phiD - pose.theta)
      && -Abs(opt.lw) <= c.command.rotation <= Abs(opt.lw)
  {
  }

  /** Every cycle: direction_angle is 0, and the rotation differs from the heading
      rate by at most |lw| (the saturated heading correction). */
  lemma CommandShape(lib: MathLib, opt: Options, pose: Pose, target: PathPoint,
                     phiP: real, rho: real, hasPrev: bool, prevPhiD: real)
    requires opt.Valid() && lib.Sound()
    ensures var c := EvaluateCycle(lib, opt, pose, target, phiP, rho, hasPrev, prevPhiD);
      && c.command.directionAngle == 0.0
      && -Abs(opt.lw) <= c.command.rotation - c.headingRate <= Abs(opt.lw)
  {
  }

  /** The desired heading a cycle remembers depends on the cycle's inputs only,
      not on what was remembered before; the remembered heading enters the
      command only through the heading rate. */
  lemma DesiredHeadingIgnoresHistory(lib: MathLib, opt: Options, pose: Pose, target: PathPoint,
                                     phiP: real, rho: real,
                                     hasPrev1: bool, prev1: real, hasPrev2: bool, prev2: real)
    requires opt.Valid()
    ensures var c1 := EvaluateCycle(lib, opt, pose, target, phiP, rho, hasPrev1, prev1);
            var c2 := EvaluateCycle(lib, opt, pose, target, phiP, rho, hasPrev2, prev2);
      && c1.phiD == c2.phiD
      && (c1.headingRate == c2.headingRate ==> c1.command == c2.command)
  {
  }

  /** Two cycles in a row with the same inputs: the second sees no heading change,
      so its heading rate is 0 whatever the first one remembered. */
  lemma RepeatedCycleHasNoHeadingRate(lib: MathLib, opt: Options, pose: Pose, target: PathPoint,
                                      phiP: real, rho: real, hasPrev: bool, prevPhiD: real)
    requires opt.Valid()
    ensures var c1 := EvaluateCycle(lib, opt, pose, target, phiP, rho, hasPrev, prevPhiD);
            var c2 := EvaluateCycle(lib, opt, pose, target, phiP, rho, true, c1.phiD);
      c2.headingRate == 0.0 && c2.command == EvaluateCycle(lib, opt, pose, target, phiP, rho, false, 0.0).command
  {
  }
}
