/** RobotController_EKM: the path caches, the feedback state carried from one
    control cycle to the next, and the command it produces. */
module Controller {
  import opened Numerics
  import opened Angles
  import opened DiffArray
  import opened PathCurvature
  import opened FeedbackLaw

  datatype Option<T> = None | Some(value: T)

  /** The statuses computeMoveCommand returns. */
  datatype MoveCommandStatus = Okay | ReachedGoal

  class RobotControllerEkm {
    /** opt_: the controller options, fixed for the session. */
    const opt: Options
    /** The math library the controller's code calls. */
    const lib: MathLib

    /** path_interpol: the interpolated path, one (p, q) sample per index. */
    var path: seq<PathPoint>
    /** phi_p_ and rho_: per-sample heading and curvature-radius proxy. */
    var phiP: seq<real>
    var rho: seq<real>
    /** prev_phi_d_ and has_prev_phi_d_: the desired heading of the last cycle. */
    var prevPhiD: real
    var hasPrevPhiD: bool
    /** cmd_: the last command set. */
    var cmd: MoveCommand

    /** The options are usable, and the caches are those of the current path
        (empty for an empty path). */
    ghost predicate Valid()
      reads this`path, this`phiP, this`rho
    {
      && opt.Valid()
      && (|path| == 0 ==> phiP == [] && rho == [])
      && (|path| >= 1 ==> phiP == HeadingsOf(lib, path, 1.0 / opt.ts) && rho == RadiiOf(lib, path))
    }

    /** What a control cycle needs: usable options and, once there is a path
        to follow, one cache entry per path sample. Valid() implies it. */
    ghost predicate Ready()
      reads this`path, this`phiP, this`rho
    {
      && opt.Valid()
      && (|path| >= 2 ==> |phiP| == |path| && |rho| == |path|)
    }

    /** The constructor zeroes prev_phi_d_. cmd_ is built by a constructor
        that is not part of this model, and has_prev_phi_d_ is not assigned;
        both are left arbitrary. */
    constructor(opt: Options, lib: MathLib)
      requires opt.Valid()
      ensures Valid() && this.opt == opt && this.lib == lib
      ensures path == [] && phiP == [] && rho == [] && prevPhiD == 0.0
    {
      this.opt := opt;
      this.lib := lib;
      path, phiP, rho := [], [], [];
      prevPhiD := 0.0;
      hasPrevPhiD := *;
      cmd := *;
    }

    /** stopMotion: zero speed, direction and rotation. */
    method StopMotion()
      modifies this`cmd
      ensures cmd == STOP
    {
      cmd := cmd.(speed := 0.0, directionAngle := 0.0, rotation := 0.0);
    }

    /** initialize: forget the previous desired heading. */
    method Initialize()
      modifies this`prevPhiD, this`hasPrevPhiD
      ensures prevPhiD == 0.0 && !hasPrevPhiD
    {
      prevPhiD := 0.0;
      hasPrevPhiD := false;
    }

    /** setPath: take the interpolated path and rebuild both caches with
        fact = 1/ts; the feedback state and the command are left alone. */
    method SetPath(newPath: seq<PathPoint>)
      requires Valid()
      modifies this`path, this`phiP, this`rho
      ensures Valid() && path == newPath
      ensures |newPath| == 0 ==> phiP == [] && rho == []
      ensures |newPath| >= 1 ==>
        phiP == HeadingsOf(lib, newPath, 1.0 / opt.ts) && rho == RadiiOf(lib, newPath)
      ensures prevPhiD == old(prevPhiD) && hasPrevPhiD == old(hasPrevPhiD) && cmd == old(cmd)
    {
      path := newPath;
      DerivePathInterp(1.0 / opt.ts);
    }

    /** DerivePathInterp(fact): clear phi_p_ and rho_ and refill them, one entry
        per path sample, from the first and second differences of the path.
        An empty path leaves both caches empty (see EmptyPathStepLoopRuns for
        what the unsigned loop bound does instead). */
    method DerivePathInterp(fact: real)
      modifies this`phiP, this`rho
      ensures |path| == 0 ==> phiP == [] && rho == []
      ensures |path| >= 1 ==> phiP == HeadingsOf(lib, path, fact) && rho == RadiiOf(lib, path)
    {
      phiP := [];
      rho := [];
      if |path| == 0 {
        return;
      }
      var dx, dy := PathSteps(path);
      var ddx := DiffArr(dx);
      var ddy := DiffArr(dy);

      ghost var radii := Radii(lib, dx, dy, ddx, ddy);
      var i := 0;
      while i < |path|
        invariant 0 <= i <= |path|
        invariant phiP == Headings(lib, dx, dy, fact, i)
        invariant rho == radii[..i]
      {
        var xP := dx[i] * fact;
        var yP := dy[i] * fact;
        var tphi := lib.Atan2(yP, xP);
        var pphi := 0.0;
        if |phiP| > 0 {
          pphi := phiP[|phiP| - 1];
        }
        HeadingsSucc(lib, dx, dy, fact, i);
        phiP := phiP + [AngContinuous(pphi, tphi)];
        RadiiStep(lib, dx, dy, ddx, ddy, i);
        rho := rho + [RadiusAt(lib, dx[i], dy[i], ddx[i], ddy[i])];
        i := i + 1;
      }
      assert rho == radii;
    }

    /** computeMoveCommand for the pose, the projection index and the
        goal-reached answer of this cycle. A path of fewer than two samples stops
        the robot and reports the goal as reached; a reached goal is reported
        as it is; otherwise the feedback law runs towards sample projInd + n,
        and the desired heading is remembered for the next cycle. `out` is the
        command handed back on success. */
    method ComputeMoveCommand(pose: Pose, projInd: int, goalReached: bool)
      returns (status: MoveCommandStatus, out: Option<MoveCommand>)
      requires Ready()
      requires |path| >= 2 && !goalReached ==> 0 <= projInd + opt.n < |path|
      modifies this`prevPhiD, this`hasPrevPhiD, this`cmd
      ensures |path| < 2 ==>
        && status == ReachedGoal && out == None && cmd == STOP
        && prevPhiD == old(prevPhiD) && hasPrevPhiD == old(hasPrevPhiD)
      ensures |path| >= 2 && goalReached ==>
        && status == ReachedGoal && out == None && cmd == old(cmd)
        && prevPhiD == old(prevPhiD) && hasPrevPhiD == old(hasPrevPhiD)
      ensures |path| >= 2 && !goalReached ==>
        var k := projInd + opt.n;
        var c := EvaluateCycle(lib, opt, pose, path[k], phiP[k], rho[k], old(hasPrevPhiD), old(prevPhiD));
        && status == Okay && out == Some(c.command) && cmd == c.command
        && hasPrevPhiD && prevPhiD == c.phiD
    {
      if |path| < 2 {
        StopMotion();
        return ReachedGoal, None;
      }
      if goalReached {
        return ReachedGoal, None;
      }
      var kP := projInd + opt.n;
      var v := TrackingVelocity(lib, opt, pose, path[kP], phiP[kP], rho[kP]);

      var phiD := lib.Atan2(v.nuY, v.nuX);
      if !hasPrevPhiD {
        prevPhiD := phiD;
        hasPrevPhiD := true;
      }
      var phipD := (phiD - prevPhiD) / opt.ts;
      HeadingRateFrom(old(hasPrevPhiD), old(prevPhiD), phiD, opt.ts, prevPhiD);
      prevPhiD := phiD;

      cmd := CommandFor(lib, opt, pose, v, phiD, phipD);
      return Okay, Some(cmd);
    }
  }

  /** A cycle with no remembered heading and a long enough path succeeds: it
      remembers its own desired heading, its heading rate is 0, and so the
      rotation is the saturated heading correction alone, bounded by |lw|. */
  method FirstCycle(c: RobotControllerEkm, pose: Pose, projInd: int) returns (status: MoveCommandStatus)
    requires c.Ready() && c.lib.Sound() && !c.hasPrevPhiD
    requires |c.path| >= 2 && 0 <= projInd + c.opt.n < |c.path|
    modifies c`prevPhiD, c`hasPrevPhiD, c`cmd
    ensures status == Okay && c.hasPrevPhiD
    ensures var k := projInd + c.opt.n;
      var o := EvaluateCycle(c.lib, c.opt, pose, c.path[k], c.phiP[k], c.rho[k], false, old(c.prevPhiD));
      && o.headingRate == 0.0 && c.prevPhiD == o.phiD && c.cmd == o.command
    ensures c.cmd.rotation == Saturate(c.lib, c.opt.lw, c.opt.kw, c.prevPhiD - pose.theta)
    ensures -Abs(c.opt.lw) <= c.cmd.rotation <= Abs(c.opt.lw)
  {
    var k := projInd + c.opt.n;
    var out;
    status, out := c.ComputeMoveCommand(pose, projInd, false);
    FirstCycleHasNoHeadingRate(c.lib, c.opt, pose, c.path[k], c.phiP[k], c.rho[k], old(c.prevPhiD));
  }

  /** initialize, then setPath, then the first cycle (see FirstCycle). */
  method FirstCycleAfterInitialize(c: RobotControllerEkm, newPath: seq<PathPoint>, pose: Pose, projInd: int)
    returns (status: MoveCommandStatus)
    requires c.Valid() && c.lib.Sound()
    requires |newPath| >= 2 && 0 <= projInd + c.opt.n < |newPath|
    modifies c
    ensures status == Okay
    ensures c.Valid() && c.path == newPath && c.hasPrevPhiD
    ensures var k := projInd + c.opt.n;
      var o := EvaluateCycle(c.lib, c.opt, pose, newPath[k], c.phiP[k], c.rho[k], false, 0.0);
      && o.headingRate == 0.0 && c.prevPhiD == o.phiD && c.cmd == o.command
    ensures c.cmd.rotation == Saturate(c.lib, c.opt.lw, c.opt.kw, c.prevPhiD - pose.theta)
    ensures -Abs(c.opt.lw) <= c.cmd.rotation <= Abs(c.opt.lw)
  {
    c.Initialize();
    c.SetPath(newPath);
    status := FirstCycle(c, pose, projInd);
  }
}
