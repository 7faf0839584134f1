# EKM path-following controller — a Dafny model

This project models the discrete core of the EKM trajectory controller of the
`path_follower` package (`RobotController_EKM`). The controller tracks a
discretised reference path with an omnidirectional robot. For every sample
of the interpolated path it caches a continuity-corrected tangent heading
(`phi_p_`) and a curvature-radius proxy (`rho_`). On every control cycle it
evaluates a saturated feedback law towards the sample `proj_ind_ + n` ahead
of the robot. It remembers the desired heading `phi_d` of the last cycle so
that it can form the heading rate `phip_d` on the next one.

The files:

- `numerics.dfy` (module `Numerics`): `PI`, `Abs` and `Sq`, and `MathLib`.
  `MathLib` carries the library functions `atan2`, `tanh`, `sin`, `cos` and
  `pow(., 1.5)` as uninterpreted function values. `MathLib.Sound()` lists the
  only facts about them that the proofs use:
  - `pow(0, 1.5) = 0`, and `pow(x, 1.5) >= 0` for `x >= 0`;
  - `tanh` lies in [-1, 1];
  - `atan2(0, x) = 0` for `x >= 0`.
- `angles.dfy` (module `Angles`): the heading unwrap `ang_continuos` and the
  unused `GetAngleDifferenceOld`, each with the properties proved about it.
- `diff_arr.dfy` (module `DiffArray`): `diffArr`, a loop specified by the
  padded first-difference function `Diff`.
- `path_curvature.dfy` (module `PathCurvature`): the path samples, the
  specification functions `HeadingsOf` and `RadiiOf` for what
  `DerivePathInterp` leaves in `phi_p_` and `rho_`, and the lemmas about them.
  It also holds `PathSteps`, the loop that builds the step arrays `dx` and `dy`,
  and `StepHeading`, the scaled atan2 `tphi` of one step.
- `feedback_law.dfy` (module `FeedbackLaw`): one control cycle as a function
  (`EvaluateCycle`) of the pose, the target sample, its cached heading and
  radius, and the remembered heading. Lemmas cover the bootstrap, the shape
  of the command and how the heading state is used.
- `controller.dfy` (module `Controller`): the class `RobotControllerEkm`. Its
  fields `path`, `phiP`, `rho`, `prevPhiD`, `hasPrevPhiD` and `cmd` stand for
  `path_interpol`, `phi_p_`, `rho_`, `prev_phi_d_`, `has_prev_phi_d_` and
  `cmd_`. Its methods `Initialize`, `SetPath`, `StopMotion`,
  `DerivePathInterp` and `ComputeMoveCommand` change those fields as the
  source does. Each method is proved against the functions above.

Two facts about the code that the model keeps as they are:

- A path of fewer than two samples makes `computeMoveCommand` stop the robot
  and return `REACHED_GOAL` (lines 185-190). There is no separate status for
  a path that is too short.
- The curvature gain `kv` is the literal 0.6 at line 206. It is not one of
  the options.

The heading error is the plain difference `phi_d - theta`, as the code
computes it. The unwrapped variant is commented out in the code.

## Model

| member | source | states |
|---|---|---|
| DiffArray.DiffArr | path_follower/src/controller/robotcontroller_ekm.cpp:81-90 | On a non-empty input the output has the input's length. Entry i is in[i+1] - in[i] for every i below the last. The last entry is 0. The output equals the specification `Diff`. |
| DiffArray.Diff | path_follower/src/controller/robotcontroller_ekm.cpp:81-90 | The padded first differences of a non-empty sequence have its length and end with 0. |
| DiffArray.DiffRecovers | path_follower/src/controller/robotcontroller_ekm.cpp:81-90 | The first input entry plus the sum of the first k differences is entry k, so the differences keep everything but the starting value. |
| Angles.PiTruncatesToThree | path_follower/src/controller/robotcontroller_ekm.cpp:101 | The truncating cast (int)M_PI is 3. |
| Angles.CorrectionCount | path_follower/src/controller/robotcontroller_ekm.cpp:101 | The correction count (int)abs(1.1*a) / (int)M_PI is never negative. |
| Angles.AngContinuous | path_follower/src/controller/robotcontroller_ekm.cpp:93-109 | A step of at most 1.8*PI from past to now returns now unchanged. |
| Angles.AngContinuousNarrows | path_follower/src/controller/robotcontroller_ekm.cpp:93-109 | ang_continuos(a, a) = a. A step of at most 1.8*PI is returned unchanged. A larger step is replaced by a value strictly closer to the previous angle. |
| Angles.JumpShrinks | path_follower/src/controller/robotcontroller_ekm.cpp:98-105 | For a jump beyond 1.8*PI, the shift by n*PI applied by the matching branch leaves a strictly smaller jump. |
| Angles.CountAtLeastTwo | path_follower/src/controller/robotcontroller_ekm.cpp:98-101 | Once the jump exceeds 1.8*PI, the correction count is at least 2. |
| Angles.WrapCorrection | path_follower/src/controller/robotcontroller_ekm.cpp:98-105 | For a jump beyond the limit, n >= 2. A jump up gives now - n*PI, which is below now. A jump down gives now + n*PI, which is above now. The shift always opposes the jump. |
| Angles.SingleTurnCorrection | path_follower/src/controller/robotcontroller_ekm.cpp:98-105 | A jump with magnitude in (1.8*PI, 2.6*PI] is undone by exactly one full turn, 2*PI, against the jump. |
| Angles.HalfTurnCorrection | path_follower/src/controller/robotcontroller_ekm.cpp:98-105 | A jump with magnitude in [2.61*PI, 3.4*PI] is shifted by exactly 3*PI. |
| Angles.CountBetween | path_follower/src/controller/robotcontroller_ekm.cpp:101 | Whole-number bounds on 1.1*abs(a) bound its truncation, and the count is that truncation divided by 3. |
| Angles.GetAngleDifferenceOldSignError | path_follower/src/controller/robotcontroller_ekm.cpp:164-176 | As written, the function gives the same positive value for (3.1, -3.1) and (-3.1, 3.1). That value is not 3.1 - (-3.1) shifted by -1, 0 or +1 turns. |
| Angles.OldNotAWholeTurnShift | path_follower/src/controller/robotcontroller_ekm.cpp:166-169 | For every whole number k, the result for (3.1, -3.1) differs from 3.1 - (-3.1) + 2*k*PI. The first branch is not a - b up to whole turns. |
| Angles.GetAngleDifferenceOld | path_follower/src/controller/robotcontroller_ekm.cpp:164-176 | As written, the function equals the corrected AngleDifference(a, b), except when a > 3 and b < -3. There it equals AngleDifference(b, a), the difference of the swapped arguments. |
| Angles.AngleDifference | path_follower/src/controller/robotcontroller_ekm.cpp:164-176 | Corrected difference: the result is a - b, a - b - 2*PI or a - b + 2*PI. |
| Angles.AngleDifferenceAntisymmetric | path_follower/src/controller/robotcontroller_ekm.cpp:164-176 | Swapping the arguments of the corrected difference negates it. |
| Angles.AngleDifferenceAcrossCut | path_follower/src/controller/robotcontroller_ekm.cpp:166-173 | For angles in (-PI, PI] on opposite sides of the branch cut, the corrected difference is smaller in magnitude than 2*PI - 6. |
| PathCurvature.PathSteps | path_follower/src/controller/robotcontroller_ekm.cpp:119-127 | The step loop yields dx and dy equal to the padded first differences of the sample coordinates p and q. |
| PathCurvature.UnsignedStepBound | path_follower/src/controller/robotcontroller_ekm.cpp:121 | The step loop's bound n()-1, taken modulo the unsigned range, is n - 1 for every non-empty path and stays inside that range. |
| PathCurvature.EmptyPathStepLoopRuns | path_follower/src/controller/robotcontroller_ekm.cpp:121-125 | As written, on an empty path the bound wraps to the largest unsigned value, which is above 0, so the loop body runs and reads sample 1. |
| PathCurvature.StepHeading | path_follower/src/controller/robotcontroller_ekm.cpp:141-144 | tphi = atan2(dy*fact, dx*fact) is atan2(0, 0) for a zero step. It is 0 for a step with no lateral part and a non-negative forward part when fact > 0 and the math library is sound. |
| PathCurvature.Headings | path_follower/src/controller/robotcontroller_ekm.cpp:135-147 | The first k chained headings number exactly k. |
| PathCurvature.HeadingsPrefix | path_follower/src/controller/robotcontroller_ekm.cpp:135-147 | Later iterations never change headings already pushed. |
| PathCurvature.HeadingsAt | path_follower/src/controller/robotcontroller_ekm.cpp:141-147 | Heading i is ang_continuos of heading i-1 (of 0 when i = 0) and the atan2 of step i. |
| PathCurvature.RadiusAt | path_follower/src/controller/robotcontroller_ekm.cpp:149-155 | With a sound math library the radius proxy is non-negative. It is 0 when both first differences are 0. |
| PathCurvature.HeadingsOf | path_follower/src/controller/robotcontroller_ekm.cpp:116-147 | phi_p_ after a rebuild has exactly one entry per path sample, so no stale entries remain. |
| PathCurvature.RadiiOf | path_follower/src/controller/robotcontroller_ekm.cpp:116-155 | rho_ after a rebuild has exactly one entry per path sample. |
| PathCurvature.HeadingsOfChain | path_follower/src/controller/robotcontroller_ekm.cpp:121-147 | phi_p_[0] = ang_continuos(0, tphi(0)). For i > 0, phi_p_[i] = ang_continuos(phi_p_[i-1], tphi(i)). Here tphi(i) is atan2(dy[i]*fact, dx[i]*fact) with dy[i] = q(i+1) - q(i) and dx[i] = p(i+1) - p(i). The last sample uses atan2(0, 0). |
| PathCurvature.RadiiNonNegative | path_follower/src/controller/robotcontroller_ekm.cpp:112-155 | Every rho_ entry is >= 0. The last entry is 0 because the padded differences vanish there. |
| PathCurvature.StraightPathHeadings | path_follower/src/controller/robotcontroller_ekm.cpp:121-147 | On a path along +x (constant q, non-decreasing p) with fact > 0, every cached heading is 0. |
| PathCurvature.StraightPathRadii | path_follower/src/controller/robotcontroller_ekm.cpp:112-155 | On a path with constant q the curvature denominator reduces to the zeroOff guard. Each radius is ((step*ids)^2)^1.5 / 0.0001. |
| PathCurvature.NoLateralStep | path_follower/src/controller/robotcontroller_ekm.cpp:149-155 | With no lateral first or second difference, the radius is the 1.5-power of the squared scaled step, divided by zeroOff. |
| FeedbackLaw.Saturate | path_follower/src/controller/robotcontroller_ekm.cpp:223-224 | Each saturated correction limit*tanh(gain*error/limit) lies within [-abs(limit), abs(limit)]. |
| FeedbackLaw.TrackingVelocity | path_follower/src/controller/robotcontroller_ekm.cpp:215-224 | With a sound math library, nu_x differs from the feed-forward u_d*cos(phi_p)*tanh(kv*rho) by at most abs(lx). nu_y differs from u_d*sin(phi_p)*tanh(kv*rho) by at most abs(ly). |
| FeedbackLaw.HeadingRate | path_follower/src/controller/robotcontroller_ekm.cpp:229-234 | phip_d is 0 on a cycle without a remembered heading. It is also 0 when the remembered heading equals the new one. |
| FeedbackLaw.CommandFor | path_follower/src/controller/robotcontroller_ekm.cpp:239-253 | direction_angle is 0. With a sound math library, the rotation differs from phip_d by at most abs(lw). |
| FeedbackLaw.EvaluateCycle | path_follower/src/controller/robotcontroller_ekm.cpp:206-253 | On every cycle direction_angle is 0 and the rotation is phip_d plus the saturated correction of phi_d - theta. Without a remembered heading phip_d is 0. |
| FeedbackLaw.FirstCycleHasNoHeadingRate | path_follower/src/controller/robotcontroller_ekm.cpp:229-241 | Without a remembered heading, phip_d = 0. The rotation is then the saturated heading correction alone, within [-abs(lw), abs(lw)]. |
| FeedbackLaw.CommandShape | path_follower/src/controller/robotcontroller_ekm.cpp:239-253 | direction_angle is 0 on every cycle. The rotation nu_p differs from the heading rate by at most abs(lw). |
| FeedbackLaw.DesiredHeadingIgnoresHistory | path_follower/src/controller/robotcontroller_ekm.cpp:215-236 | The phi_d a cycle remembers depends on that cycle's inputs only. The remembered heading reaches the command only through phip_d. |
| FeedbackLaw.RepeatedCycleHasNoHeadingRate | path_follower/src/controller/robotcontroller_ekm.cpp:227-236 | A second cycle with the same inputs sees phip_d = 0. It yields the command of a first cycle. |
| Controller.RobotControllerEkm.constructor | path_follower/src/controller/robotcontroller_ekm.cpp:21-28 | A new controller has prev_phi_d_ = 0, empty caches and usable options. |
| Controller.RobotControllerEkm.StopMotion | path_follower/src/controller/robotcontroller_ekm.cpp:30-36 | cmd_ becomes speed 0, direction 0, rotation 0. Nothing else changes. |
| Controller.RobotControllerEkm.Initialize | path_follower/src/controller/robotcontroller_ekm.cpp:41-51 | Sets prev_phi_d_ = 0 and has_prev_phi_d_ = false. Nothing else changes. |
| Controller.RobotControllerEkm.SetPath | path_follower/src/controller/robotcontroller_ekm.cpp:66-71 | Takes the new path and rebuilds both caches for fact = 1/ts, so the class invariant holds again. An empty path leaves both caches empty. prev_phi_d_, has_prev_phi_d_ and cmd_ are untouched. |
| Controller.RobotControllerEkm.DerivePathInterp | path_follower/src/controller/robotcontroller_ekm.cpp:112-161 | After clearing and refilling, phi_p_ equals HeadingsOf(path, fact) and rho_ equals RadiiOf(path). An empty path leaves both caches empty. |
| Controller.RobotControllerEkm.ComputeMoveCommand | path_follower/src/controller/robotcontroller_ekm.cpp:180-255 | Fewer than 2 samples: cmd_ is zeroed, the status is REACHED_GOAL and the heading state is unchanged. Goal reached: REACHED_GOAL with cmd_ and the heading state unchanged. Otherwise: OKAY, with cmd_ and the returned command equal to the feedback law's command at sample proj_ind_ + n. has_prev_phi_d_ becomes true and prev_phi_d_ becomes phi_d. |
| Controller.FirstCycle | path_follower/src/controller/robotcontroller_ekm.cpp:227-253 | A cycle without a remembered heading on a path of at least two samples returns OKAY. prev_phi_d_ becomes that cycle's phi_d, phip_d is 0, and cmd_ is exactly the feedback law's command. Its rotation is the saturated correction of prev_phi_d_ - theta, within [-abs(lw), abs(lw)]. |
| Controller.FirstCycleAfterInitialize | path_follower/src/controller/robotcontroller_ekm.cpp:41-71 | initialize, then setPath, then one cycle. The status is OKAY and the invariant holds. prev_phi_d_ becomes the phi_d that the feedback law computes from the reset state (prev_phi_d_ = 0, no remembered heading), phip_d is 0, and cmd_ is that cycle's command. The rotation is the saturated correction of prev_phi_d_ - theta, within [-abs(lw), abs(lw)]. |

## Left out

- The numeric values and rounding of `atan2`, `tanh`, `sin`, `cos` and `pow`, and every double-precision rounding. The model computes on exact reals. The library functions are uninterpreted, with only the facts in `MathLib.Sound()`. Tracking accuracy and convergence are not modelled.
- Infinities and NaN from a zero divisor. `Options.Valid()` requires `ts`, `lx`, `ly` and `lw` to be non-zero; the source would divide by them regardless.
- The overflow of the `(int)` cast for angle jumps beyond the `int` range. The model truncates with `Floor` on unbounded integers.
- ROS publishing and logging: `publishMoveCommand` (lines 282-290), the publish inside `stopMotion` (lines 37-38), and `ROS_ERROR_STREAM` / `ROS_ERROR` (lines 157, 186). These are I/O.
- The plugin registration (line 16). Also left out are the base-class calls `RobotController::initialize/start/reset/setPath` (lines 43, 55-64, 68) and the base constructor; `RobotController` is not part of this model. The model's `SetPath` stores the interpolated path directly, since path interpolation belongs to the base class.
- The pose tracker, `findOrthogonalProjection()` and `isGoalReached()` (lines 193-200). These are foreign collaborators, so the pose, the projection index and the goal-reached answer are inputs of `ComputeMoveCommand`.
- Controller.RobotControllerEkm.ComputeMoveCommand: the source does not check the lookahead index `proj_ind_ + n` (line 202), so the model requires it to be in range. On the two early exits `out` is `None`. The source leaves in `*cmd` the default `MoveCommand(true)` (line 183) or whatever `isGoalReached` wrote into it, and both are foreign.
- DiffArray.DiffArr: requires a non-empty input, since `in.size()-1` would wrap around on an empty one. Its only callers pass the step arrays, which always hold at least the padding 0.
- PathCurvature.PathSteps: requires a non-empty path. `DerivePathInterp` returns before the step loop on an empty path (see Findings).
- The width of the unsigned type of the loop bound `n()-1`. `UnsignedStepBound` takes the size of that type as a parameter.
- Controller.RobotControllerEkm.constructor: `cmd_` is built by `cmd_(this)` (line 23), whose constructor is not part of this model, and the constructor at lines 21-28 does not assign `has_prev_phi_d_`. The model leaves both arbitrary, and its contract says nothing about them.
- The other fields of the command (those `MoveCommand` has beyond speed, direction angle and rotation), which this class never sets.
- The commented-out code (lines 73-78, 153, 204, 238, 244-245, 256-273).

## Findings

| source | as written | input that shows it | evidently intended | confidence | as-written member | corrected member |
|---|---|---|---|---|---|---|
| path_follower/src/controller/robotcontroller_ekm.cpp:166-169 | When a > 3 and b < -3 the function returns (b + 2*PI) - a. That is the wrapped value of b - a, the opposite sign to the other branches. | a = 3.1, b = -3.1 gives 2*PI - 6.2 ≈ +0.083. a = -3.1, b = 3.1 gives the same +0.083. The difference changes sign when the arguments swap, so one of the two results must be negative. | a - (b + 2*PI), the wrapped value of a - b, so that the difference is antisymmetric and always a - b plus a whole number of turns | not executed; high (the second branch has the intended form) | Angles.GetAngleDifferenceOldSignError | Angles.AngleDifferenceAntisymmetric |
| path_follower/src/controller/robotcontroller_ekm.cpp:121-125 | The bound `path_interpol.n()-1` of the step loop is unsigned. On an empty path it wraps to the largest value of its type, so the loop runs and reads `p(1)` and `q(1)` of a path with no samples. `setPath` (line 69) rebuilds the caches for every path, and the guard at line 185 shows that paths this short reach the controller. | an interpolated path with n() = 0 passed to setPath | skip the loop and leave both caches empty | not executed; medium (the width of `n()` is not part of this model) | PathCurvature.EmptyPathStepLoopRuns | Controller.RobotControllerEkm.DerivePathInterp |
