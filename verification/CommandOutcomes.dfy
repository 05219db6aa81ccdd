/** What one cycle of the position command leaves: where it starts, how far it moves, and what
    the motor's limits, slip, the bounds and the stop position make of that. */
module CommandOutcomes {
  import opened Common
  import opened TrajectoryPlanner
  import opened PositionCommand

  /** The value in the band that is nearest to `x`. */
  function Clamped(x: real, low: real, high: real): real { if x < low then low else if x > high then high else x }

  // ---------------------------------------------------------------------
  // Where a cycle starts
  // ---------------------------------------------------------------------

  /** The velocity that a motor is taken over with: its own, or rest when it is slower than the
      threshold. */
  function Captured(env: Env): real {
    if -env.zeroCapture < env.velocityFilt < env.zeroCapture then 0.0 else env.velocityFilt
  }

  /** The motion of a motor that has just been taken over. */
  function TakenOver(m: Motion, env: Env): Motion {
    m.(position := Some(env.position), velocity := Captured(env), acceleration := 0.0)
  }

  /** With some limit set, a cycle from an unset position is the cycle from the motor's own
      position and velocity. */
  lemma StartsAtMotor(m: Motion, limits: Limits, env: Env, dt: real, commanded: Option<real>)
    requires limits.Valid() && m.position.None? && !Free(limits)
    ensures UpdateCommand(m, limits, env, dt, commanded) == UpdateCommand(TakenOver(m, env), limits, env, dt, commanded)
  {
  }

  /** Nothing but the plan acts on the motion: no slip, no bound and no stop position. */
  predicate Alone(env: Env) {
    && (env.syntheticTheta || (env.maxPositionSlip.None? && env.maxVelocitySlip.None?))
    && (env.ignoreBounds || (env.positionMin.None? && env.positionMax.None?)) && env.stopPosition.None?
  }

  function Goal(commanded: Option<real>): real { if commanded.Some? then commanded.value else 0.0 }

  /** A motion that is done, at `position` and going on with `velocity`. */
  predicate GoesOn(r: Outcome, position: real, velocity: real) {
    && r.motion.position.Some? && r.motion.position.value == position && r.motion.velocity == velocity == r.command
    && r.motion.acceleration == 0.0 && r.motion.done && r.motion.target.None? && !r.halted
  }

  /** Without limits a target is taken at once, with the commanded velocity. */
  lemma JumpsToTarget(m: Motion, limits: Limits, env: Env, dt: real, commanded: Option<real>)
    requires Free(limits) && m.target.Some? && Alone(env) && Within(Goal(commanded), env.motorMaxVelocity)
    ensures GoesOn(UpdateCommand(m, limits, env, dt, commanded), m.target.value + Goal(commanded) * dt, Goal(commanded))
  {
  }

  /** Without limits and a target the position goes on with the commanded velocity. */
  lemma GoesOnFreely(m: Motion, limits: Limits, env: Env, dt: real, commanded: Option<real>)
    requires Free(limits) && m.target.None? && m.position.Some? && Alone(env)
    requires Within(Goal(commanded), env.motorMaxVelocity)
    ensures GoesOn(UpdateCommand(m, limits, env, dt, commanded), m.position.value + Goal(commanded) * dt, Goal(commanded))
  {
  }

  /** But from an unset position the first such cycle goes on with the motor's velocity, whatever
      is commanded; the commanded velocity counts from the second on. */
  lemma FirstFreeCycleIsTheMotors(m: Motion, limits: Limits, env: Env, dt: real, commanded: Option<real>)
    requires Free(limits) && m.target.None? && m.position.None? && Alone(env)
    requires Within(Captured(env), env.motorMaxVelocity) && Within(Goal(commanded), env.motorMaxVelocity)
    ensures var first := UpdateCommand(m, limits, env, dt, commanded); var next := env.position + Captured(env) * dt;
      && GoesOn(first, next, Captured(env))
      && GoesOn(UpdateCommand(first.motion, limits, env, dt, commanded), next + Goal(commanded) * dt, Goal(commanded))
  {
    FirstFreeCycle(m, limits, env, dt, commanded);
    GoesOnFreely(UpdateCommand(m, limits, env, dt, commanded).motion, limits, env, dt, commanded);
  }

  lemma FirstFreeCycle(m: Motion, limits: Limits, env: Env, dt: real, commanded: Option<real>)
    requires Free(limits) && m.target.None? && m.position.None? && Alone(env) && Within(Captured(env), env.motorMaxVelocity)
    ensures GoesOn(UpdateCommand(m, limits, env, dt, commanded), env.position + Captured(env) * dt, Captured(env))
  {
  }

  // ---------------------------------------------------------------------
  // The whole cycle, for every motion, limit and surrounding
  // ---------------------------------------------------------------------

  /** The motion that the plan starts from. */
  function Started(m: Motion, limits: Limits, env: Env, goal: real): (s: Motion)
    ensures s.position.Some?
  {
    if !Free(limits) then (if m.position.Some? then m else TakenOver(m, env)).(done := false)
    else if m.target.Some? then Motion(m.target, goal, 0.0, true, None)
    else if m.position.Some? then Motion(m.position, goal, 0.0, true, None)
    else Motion(Some(env.position), Captured(env), 0.0, true, None)
  }

  /** The plan says how the velocity changes; the position moves by the mean of the velocities
      before and after while it does, and by the new velocity once it does not; the target goes
      on with its own velocity, and the motor's velocity limit overrides the plan. */
  function Pace(m: Motion, p: Motion, max: real): real {
    if p.velocity > max then max
    else if p.velocity < -max then -max
    else if p.acceleration == 0.0 then p.velocity
    else (m.velocity + p.velocity) / 2.0
  }

  predicate Moves(r: Motion, m: Motion, p: Motion, max: real, dt: real, goal: real) {
    && r.position.Some? && p.position.Some? && r.position.value == p.position.value + Pace(m, p, max) * dt
    && r.velocity == Clamped(p.velocity, -max, max)
    && r.acceleration == (if r.velocity == p.velocity then p.acceleration else 0.0)
    && r.done == p.done && r.target.Some? == p.target.Some?
    && (p.target.Some? ==> r.target.value == p.target.value + goal * dt)
  }

  function Slipped(x: real, motor: real, slip: Option<real>, env: Env): real {
    if slip.None? || env.syntheticTheta then x else Clamped(x, motor - slip.value, motor + slip.value)
  }

  /** Position and velocity follow the motor's own as the values nearest to them within the
      slip; a velocity that had to follow is not accelerating. */
  predicate Slips(r: Motion, m: Motion, env: Env) {
    && r.position.Some? && m.position.Some?
    && r.position.value == Slipped(m.position.value, env.position, env.maxPositionSlip, env)
    && r.velocity == Slipped(m.velocity, env.velocity, env.maxVelocitySlip, env)
    && r.acceleration == (if r.velocity == m.velocity then m.acceleration else 0.0)
    && r.done == m.done && r.target == m.target
  }

  /** Within the bounds that are there; the upper one wins. */
  function Bounded(x: real, env: Env): real {
    if env.ignoreBounds then x
    else
      var y := if env.positionMin.Some? then Max(x, env.positionMin.value) else x;
      if env.positionMax.Some? then Min(y, env.positionMax.value) else y
  }

  /** The command leads further away from the stop position. */
  predicate Leaves(x: real, env: Env, command: real) {
    env.stopPosition.Some? && (x - env.stopPosition.value) * command > 0.0
  }

  /** The cycle ends within the bounds, or on the stop position when the command leads away from
      it; when one of them had to act, and in no other case, at rest. */
  predicate Ends(r: Outcome, m: Motion, env: Env, command: real) {
    && r.motion.position.Some? && m.position.Some?
    && var x := Bounded(m.position.value, env);
    && r.halted == Leaves(x, env, command)
    && r.motion.position.value == (if r.halted then env.stopPosition.value else x)
    && (if r.halted || !(env.ignoreBounds || InBounds(m.position.value, env)) then r.motion.velocity == r.motion.acceleration == r.command == 0.0
        else r.command == command && r.motion.velocity == m.velocity && r.motion.acceleration == m.acceleration)
    && (if r.halted then r.motion.done && r.motion.target.None?
        else r.motion.done == m.done && r.motion.target == m.target)
  }

  predicate Sensible(env: Env) {
    && 0.0 <= env.motorMaxVelocity && (env.maxPositionSlip.Some? ==> 0.0 <= env.maxPositionSlip.value)
    && (env.maxVelocitySlip.Some? ==> 0.0 <= env.maxVelocitySlip.value)
  }

  /** Every cycle takes the start, the plan, the motor's limit, the slip and the bounds in this
      order, and its outcome is exactly what they say. */
  lemma CycleIs(m: Motion, limits: Limits, env: Env, dt: real, commanded: Option<real>)
    returns (start: Motion, plan: Motion, moved: Motion, slipped: Motion)
    requires limits.Valid() && Sensible(env)
    ensures start == Started(m, limits, env, Goal(commanded))
    ensures plan == if Free(limits) then start else UpdateTrajectory(start, limits, dt, Goal(commanded))
    ensures Moves(moved, start, plan, env.motorMaxVelocity, dt, Goal(commanded)) && Slips(slipped, moved, env)
    ensures Ends(UpdateCommand(m, limits, env, dt, commanded), slipped, env,
                 Clamped(plan.velocity, -env.motorMaxVelocity, env.motorMaxVelocity))
  {
    start := Begin(m, limits, env, Goal(commanded));
    plan := Plan(start, limits, dt, Goal(commanded));
    moved, slipped := CompletesAs(start, plan, env, dt, Goal(commanded));
  }

  lemma CompletesAs(m: Motion, p: Motion, env: Env, dt: real, goal: real) returns (moved: Motion, slipped: Motion)
    requires p.position.Some? && Sensible(env)
    ensures Moves(moved, m, p, env.motorMaxVelocity, dt, goal) && Slips(slipped, moved, env)
    ensures Ends(Complete(m, p, env, dt, goal), slipped, env, Clamped(p.velocity, -env.motorMaxVelocity, env.motorMaxVelocity))
  {
    var clamped := ClampToMotor(p, env.motorMaxVelocity);
    moved := Integrate(clamped, m.velocity, p.velocity, dt, goal);
    slipped := LimitSlip(moved, env);
    IntegrateMoves(m, p, env.motorMaxVelocity, dt, goal);
    SlipIsNearest(moved, env);
    FinishEnds(slipped, env, clamped.velocity);
  }

  lemma IntegrateMoves(m: Motion, p: Motion, max: real, dt: real, goal: real)
    requires p.position.Some? && 0.0 <= max
    ensures Moves(Integrate(ClampToMotor(p, max), m.velocity, p.velocity, dt, goal), m, p, max, dt, goal)
  {
  }

  lemma SlipIsNearest(m: Motion, env: Env)
    requires m.position.Some? && Sensible(env)
    ensures Slips(LimitSlip(m, env), m, env)
  {
  }

  lemma FinishEnds(m: Motion, env: Env, command: real)
    requires m.position.Some?
    ensures Ends(Finish(m, env, command), m, env, command)
  {
    if env.stopPosition.Some? {
      SignOfProduct(Bounded(m.position.value, env) - env.stopPosition.value, command);
    }
  }

  lemma SignOfProduct(x: real, y: real)
    ensures x * y > 0.0 <==> (x > 0.0 && y > 0.0) || (x < 0.0 && y < 0.0)
  {
  }

  /** So a cycle from an unset position ends near the motor: no further than the larger of the
      captured and the planned velocity takes it. */
  lemma StaysNearMotor(m: Motion, limits: Limits, env: Env, dt: real, commanded: Option<real>)
    requires limits.Valid() && Sensible(env) && m.position.None? && !Free(limits) && Alone(env) && 0.0 < dt
    ensures var s := TakenOver(m, env).(done := false);
      var r := UpdateCommand(m, limits, env, dt, commanded).motion;
      var top := Max(Abs(Captured(env)), Abs(UpdateTrajectory(s, limits, dt, Goal(commanded)).velocity));
      r.position.Some? && Abs(r.position.value - env.position) <= top * dt
  {
    var start, plan, moved, slipped := CycleIs(m, limits, env, dt, commanded);
    PlanKeepsPosition(start, limits, dt, Goal(commanded));
    EndsNear(UpdateCommand(m, limits, env, dt, commanded), start, plan, moved, slipped, env, dt, Goal(commanded),
      Clamped(plan.velocity, -env.motorMaxVelocity, env.motorMaxVelocity));
  }

  lemma EndsNear(r: Outcome, m: Motion, p: Motion, moved: Motion, slipped: Motion, env: Env, dt: real, goal: real, command: real)
    requires Alone(env) && 0.0 <= env.motorMaxVelocity && 0.0 < dt && p.position == m.position == Some(env.position)
    requires Moves(moved, m, p, env.motorMaxVelocity, dt, goal) && Slips(slipped, moved, env) && Ends(r, slipped, env, command)
    ensures r.motion.position.Some? && Abs(r.motion.position.value - env.position) <= Max(Abs(m.velocity), Abs(p.velocity)) * dt
  {
    var pace := Pace(m, p, env.motorMaxVelocity);
    assert r.motion.position.value == env.position + pace * dt;
    ProductBounded(pace, dt, Max(Abs(m.velocity), Abs(p.velocity)));
  }

  lemma PlanKeepsPosition(m: Motion, limits: Limits, dt: real, v: real)
    requires limits.Valid() && m.position.Some? && !Free(limits)
    ensures UpdateTrajectory(m, limits, dt, v).position == m.position
  {
  }

  lemma ProductBounded(v: real, dt: real, top: real)
    requires 0.0 < dt && -top <= v <= top
    ensures -(top * dt) <= v * dt <= top * dt
  {
    assert 0.0 <= (top - v) * dt && 0.0 <= (v + top) * dt;
  }
}
