/** One cycle of position control: plan, integrate, then slip, bounds and stop position. */
module PositionCommand {
  import opened Common
  import opened TrajectoryPlanner

  /** What one cycle sees.  Positions are relative, the bounds already shifted by the
      absolute-to-relative delta. */
  datatype Env = Env(
    position: real, velocity: real, velocityFilt: real, zeroCapture: real, motorMaxVelocity: real,
    maxPositionSlip: Option<real>, maxVelocitySlip: Option<real>,
    positionMin: Option<real>, positionMax: Option<real>, ignoreBounds: bool,
    stopPosition: Option<real>, syntheticTheta: bool)

  // ---------------------------------------------------------------------
  // Specification
  // ---------------------------------------------------------------------

  predicate Free(limits: Limits) { limits.velocity.None? && limits.accel.None? }

  /** Without limits jump to the command; otherwise start from where the motor is. */
  function Begin(m: Motion, limits: Limits, env: Env, velocity: real): (r: Motion)
    ensures r.position.Some?
  {
    var m1 := if Free(limits) then m.(done := true, acceleration := 0.0, velocity := velocity) else m.(done := false);
    if m.target.Some? && Free(limits) then
      m1.(position := m.target, target := None, acceleration := 0.0, velocity := velocity)
    else if m.position.None? then
      m1.(position := Some(env.position), acceleration := 0.0,
          velocity := if Abs(env.velocityFilt) < env.zeroCapture then 0.0 else env.velocityFilt)
    else m1
  }

  function Plan(m: Motion, limits: Limits, dt: real, velocity: real): Motion
    requires limits.Valid() && m.position.Some? && (Free(limits) ==> m.done)
  {
    if m.done then m else UpdateTrajectory(m, limits, dt, velocity)
  }

  function ClampToMotor(m: Motion, max: real): Motion {
    if m.velocity > max then m.(acceleration := 0.0, velocity := max)
    else if m.velocity < -max then m.(acceleration := 0.0, velocity := -max)
    else m
  }

  /** v0 is the velocity before planning, v1 after it and before the motor clamp. */
  function Integrate(m: Motion, v0: real, v1: real, dt: real, velocity: real): Motion
    requires m.position.Some?
  {
    var step := if m.acceleration != 0.0 then (v0 + v1) * 0.5 * dt else m.velocity * dt;
    m.(position := Some(m.position.value + step),
       target := if m.target.Some? then Some(m.target.value + velocity * dt) else None)
  }

  function LimitSlip(m: Motion, env: Env): Motion
    requires m.position.Some?
  {
    var m1 :=
      if env.maxPositionSlip.Some? && !env.syntheticTheta then
        var slip, error := env.maxPositionSlip.value, env.position - m.position.value;
        var p := if error < -slip then env.position + slip else m.position.value;
        m.(position := Some(if error > slip then env.position - slip else p))
      else m;
    if env.maxVelocitySlip.Some? && !env.syntheticTheta then
      var slip, error := env.maxVelocitySlip.value, env.velocity - m1.velocity;
      var m2 := if error < -slip then m1.(acceleration := 0.0, velocity := env.velocity + slip) else m1;
      if error > slip then m2.(acceleration := 0.0, velocity := env.velocity - slip) else m2
    else m1
  }

  /** The position after the bounds, and whether one was hit. */
  function Saturate(p: real, env: Env): (real, bool) {
    if env.ignoreBounds then (p, false)
    else
      var low := env.positionMin.Some? && p < env.positionMin.value;
      var p1 := if low then env.positionMin.value else p;
      var high := env.positionMax.Some? && p1 > env.positionMax.value;
      (if high then env.positionMax.value else p1, low || high)
  }

  predicate MovesAway(p: real, stop: real, command: real) {
    (p > stop && command > 0.0) || (p < stop && command < 0.0)
  }

  /** `halted` says that the velocity of the command itself has been replaced by zero. */
  datatype Outcome = Outcome(motion: Motion, command: real, halted: bool)

  function Finish(m: Motion, env: Env, command: real): Outcome
    requires m.position.Some?
  {
    var (p, hit) := Saturate(m.position.value, env);
    var stopped := env.stopPosition.Some? && MovesAway(p, env.stopPosition.value, command);
    var m1 := m.(position := Some(p));
    var m2 := if stopped then m1.(position := env.stopPosition, done := true, target := None) else m1;
    if hit || stopped then Outcome(m2.(acceleration := 0.0, velocity := 0.0), 0.0, stopped) else Outcome(m2, command, false)
  }

  function UpdateCommand(m: Motion, limits: Limits, env: Env, dt: real, commanded: Option<real>): Outcome
    requires limits.Valid()
  {
    var velocity := if commanded.None? then 0.0 else commanded.value;
    var started := Begin(m, limits, env, velocity);
    Complete(started, Plan(started, limits, dt, velocity), env, dt, velocity)
  }

  /** Everything after planning. */
  function Complete(started: Motion, planned: Motion, env: Env, dt: real, velocity: real): Outcome
    requires planned.position.Some?
  {
    var clamped := ClampToMotor(planned, env.motorMaxVelocity);
    var moved := Integrate(clamped, started.velocity, planned.velocity, dt, velocity);
    Finish(LimitSlip(moved, env), env, clamped.velocity)
  }

  // ---------------------------------------------------------------------
  // Properties
  // ---------------------------------------------------------------------

  predicate InBounds(p: real, env: Env) {
    (env.positionMin.Some? ==> env.positionMin.value <= p) && (env.positionMax.Some? ==> p <= env.positionMax.value)
  }

  predicate BoundedOutcome(r: Outcome, env: Env) {
    r.motion.position.Some? &&
    (env.ignoreBounds || InBounds(r.motion.position.value, env) || r.motion.position == env.stopPosition) &&
    (env.stopPosition.Some? ==> !MovesAway(r.motion.position.value, env.stopPosition.value, r.command)) &&
    (0.0 <= env.motorMaxVelocity ==> Within(r.command, env.motorMaxVelocity))
  }

  /** Whatever was commanded, the control position ends in bounds or on the stop position,
      and never keeps moving away from the stop position. */
  lemma CommandIsBounded(m: Motion, limits: Limits, env: Env, dt: real, commanded: Option<real>)
    requires limits.Valid()
    requires env.positionMin.Some? && env.positionMax.Some? ==> env.positionMin.value <= env.positionMax.value
    ensures BoundedOutcome(UpdateCommand(m, limits, env, dt, commanded), env)
  {
    var velocity := if commanded.None? then 0.0 else commanded.value;
    var started := Begin(m, limits, env, velocity);
    CompleteIsBounded(started, Plan(started, limits, dt, velocity), env, dt, velocity);
  }

  lemma CompleteIsBounded(started: Motion, planned: Motion, env: Env, dt: real, velocity: real)
    requires planned.position.Some?
    requires env.positionMin.Some? && env.positionMax.Some? ==> env.positionMin.value <= env.positionMax.value
    ensures BoundedOutcome(Complete(started, planned, env, dt, velocity), env)
  {
  }

  /** The control position never runs further from the motor than the slip limit, unless a
      bound or the stop position holds it there. */
  lemma SlipIsBounded(m: Motion, limits: Limits, env: Env, dt: real, commanded: Option<real>)
    requires limits.Valid() && env.maxPositionSlip.Some? && !env.syntheticTheta && 0.0 <= env.maxPositionSlip.value
    ensures var p := UpdateCommand(m, limits, env, dt, commanded).motion.position;
            p.Some? && (Within(env.position - p.value, env.maxPositionSlip.value)
                        || p == env.positionMin || p == env.positionMax || p == env.stopPosition)
  {
  }

  /** A velocity limit holds over every cycle, from any state that respects it. */
  lemma VelocityLimitHolds(m: Motion, limits: Limits, env: Env, dt: real, commanded: Option<real>)
    requires limits.Valid() && limits.velocity.Some? && 0.0 < dt && 0.0 <= env.motorMaxVelocity
    requires m.position.Some? && Within(m.velocity, limits.velocity.value)
    requires env.maxVelocitySlip.None? || env.syntheticTheta
    requires limits.accel.Some? && m.target.Some? ==> StepFits(limits.velocity.value, limits.accel.value, dt)
    ensures var r := UpdateCommand(m, limits, env, dt, commanded);
            Within(r.motion.velocity, limits.velocity.value) && Within(r.command, limits.velocity.value)
  {
    var velocity := if commanded.None? then 0.0 else commanded.value;
    var started := Begin(m, limits, env, velocity);
    assert started == m.(done := false);
    VelocityStaysWithin(started, limits, dt, velocity);
    var planned := Plan(started, limits, dt, velocity);
    assert Within(planned.velocity, limits.velocity.value);
    var clamped := ClampToMotor(planned, env.motorMaxVelocity);
    assert Within(clamped.velocity, limits.velocity.value);
    var moved := Integrate(clamped, started.velocity, planned.velocity, dt, velocity);
    SlipKeepsVelocity(moved, env);
    FinishVelocity(LimitSlip(moved, env), env, clamped.velocity, limits.velocity.value);
  }

  lemma SlipKeepsVelocity(m: Motion, env: Env)
    requires m.position.Some? && (env.maxVelocitySlip.None? || env.syntheticTheta)
    ensures LimitSlip(m, env).velocity == m.velocity
  {
  }

  lemma FinishVelocity(m: Motion, env: Env, command: real, limit: real)
    requires m.position.Some? && Within(m.velocity, limit) && Within(command, limit)
    ensures var r := Finish(m, env, command);
            Within(r.motion.velocity, limit) && Within(r.command, limit)
  {
  }

  /** Still on its side of a moving target, still able to stop there. */
  predicate Approaches(a: real, vf: real, negative: bool, m: Motion) {
    m.target.Some? && m.position.Some? && Safe(a, m.velocity - vf, m.target.value - m.position.value, negative)
  }

  /** No overshoot through a whole cycle: closing on a reachable target, with nothing but the
      planner acting, the remaining displacement keeps its side and stays reachable. */
  lemma CycleDoesNotOvershoot(m: Motion, limits: Limits, env: Env, dt: real, vf: real, dx: real)
    requires limits.Valid() && limits.accel.Some? && 0.0 < dt && m.position.Some? && m.target.Some?
    requires ClampVelocity(limits.velocity, vf) == vf && (limits.velocity.Some? ==> Abs(m.velocity) <= limits.velocity.value)
    requires dx == m.target.value - m.position.value && dx != 0.0
    requires (m.velocity - vf) * dx >= 0.0 && CanStop(limits.accel.value, m.velocity - vf, Abs(dx))
    requires Undisturbed(m, limits, env, dt, vf, dx,
               Acceleration(limits.velocity, limits.accel.value, m.velocity, vf, dx, dt))
    ensures Approaches(limits.accel.value, vf, dx < 0.0, UpdateCommand(m, limits, env, dt, Some(vf)).motion)
  {
    NoOvershoot(limits.velocity, limits.accel.value, m.velocity, vf, dx, dt);
    SafeCycle(m, limits, env, dt, vf, dx,
      Acceleration(limits.velocity, limits.accel.value, m.velocity, vf, dx, dt));
  }

  /** Neither the velocity-limit snap, arrival, the motor clamp, slip, a bound nor the stop
      position interferes with the planned step. */
  predicate Undisturbed(m: Motion, limits: Limits, env: Env, dt: real, vf: real, dx: real, acc: real)
    requires limits.accel.Some?
  {
    var v1 := m.velocity + acc * dt;
    !PassesLimit(limits.velocity, m.velocity, v1) && !Arrived(limits.accel.value, m.velocity, v1, vf, dx, dt) &&
    Within(v1, env.motorMaxVelocity) && env.maxPositionSlip.None? && env.maxVelocitySlip.None? &&
    env.ignoreBounds && env.stopPosition.None?
  }

  lemma SafeCycle(m: Motion, limits: Limits, env: Env, dt: real, vf: real, dx: real, acc: real)
    requires limits.Valid() && limits.accel.Some? && m.position.Some? && m.target.Some?
    requires ClampVelocity(limits.velocity, vf) == vf && dx == m.target.value - m.position.value
    requires acc == Acceleration(limits.velocity, limits.accel.value, m.velocity, vf, dx, dt)
    requires Undisturbed(m, limits, env, dt, vf, dx, acc)
    requires SafeStep(limits.accel.value, m.velocity, vf, dx, dt, acc)
    ensures Approaches(limits.accel.value, vf, dx < 0.0, UpdateCommand(m, limits, env, dt, Some(vf)).motion)
  {
    var started := m.(done := false);
    UndisturbedMotion(started, limits, env, dt, vf, dx, acc);
    CompleteIsSafe(started, Accelerate(started, limits.velocity, limits.accel.value, acc, vf, dx, dt),
      env, dt, vf, dx, acc, limits.accel.value);
  }

  lemma UndisturbedMotion(m: Motion, limits: Limits, env: Env, dt: real, vf: real, dx: real, acc: real)
    requires limits.accel.Some? && Undisturbed(m, limits, env, dt, vf, dx, acc)
    ensures Accelerate(m, limits.velocity, limits.accel.value, acc, vf, dx, dt) ==
            m.(acceleration := acc, velocity := m.velocity + acc * dt)
  {
  }

  /** The rest of the cycle, for any acceleration the planner might have chosen. */
  lemma CompleteIsSafe(m: Motion, planned: Motion, env: Env, dt: real, vf: real, dx: real, acc: real, a: real)
    requires m.position.Some? && m.target.Some? && dx == m.target.value - m.position.value
    requires planned == m.(acceleration := acc, velocity := m.velocity + acc * dt)
    requires Within(planned.velocity, env.motorMaxVelocity) && env.maxPositionSlip.None? && env.maxVelocitySlip.None?
    requires env.ignoreBounds && env.stopPosition.None?
    requires SafeStep(a, m.velocity, vf, dx, dt, acc)
    ensures Approaches(a, vf, dx < 0.0, Complete(m, planned, env, dt, vf).motion)
  {
    var v1 := planned.velocity;
    StepTaken(m.velocity, v1, acc, dt);
    var moved := Integrate(planned, m.velocity, v1, dt, vf);
    assert moved.target.value - moved.position.value == PlannedDx(m.velocity, v1, vf, dx, dt);
  }

  /** With zero acceleration the average velocity is the velocity. */
  lemma StepTaken(v0: real, v1: real, acc: real, dt: real)
    requires v1 == v0 + acc * dt
    ensures acc == 0.0 ==> v1 * dt == (v0 + v1) * 0.5 * dt
  {
  }
}
