/** The trapezoid trajectory planner, over exact reals.

    Positions are turns relative to power-on, without the 64-bit wrap; an unset
    limit, target or bound is the firmware's NaN or empty optional. */
module TrajectoryPlanner {
  import opened Common

  function Signed(magnitude: real, negative: bool): real { if negative then -magnitude else magnitude }

  /** What the planner reads and writes in BldcServoStatus and BldcServoCommandData. */
  datatype Motion = Motion(
    position: Option<real>,      // control_position_raw
    velocity: real,              // control_velocity
    acceleration: real,          // control_acceleration
    done: bool,                  // trajectory_done
    target: Option<real>)        // position_relative_raw of the command

  datatype Limits = Limits(velocity: Option<real>, accel: Option<real>) {
    predicate Valid() {
      (velocity.Some? ==> 0.0 <= velocity.value) && (accel.Some? ==> 0.0 < accel.value)
    }
  }

  // ---------------------------------------------------------------------
  // Specification of the sub-planners
  // ---------------------------------------------------------------------

  function ClampVelocity(limit: Option<real>, v: real): real {
    if limit.None? then v
    else if v > limit.value then limit.value
    else if v < -limit.value then -limit.value
    else v
  }

  function VelocityMode(m: Motion, limits: Limits, dt: real, velocity: real): Motion {
    var v := ClampVelocity(limits.velocity, velocity);
    match limits.accel
    case None => m.(acceleration := 0.0, velocity := v, done := true)
    case Some(a) =>
      var rising := v - m.velocity > 0.0;
      var acceleration := if rising then a else -a;
      var v1 := m.velocity + acceleration * dt;
      if (v > v1) != rising then m.(acceleration := 0.0, velocity := v, done := true)
      else m.(acceleration := acceleration, velocity := v1)
  }

  function VelocityOnly(m: Motion, dx: real, limit: real, velocity: real, dt: real): Motion {
    var v1 := if dx < 0.0 then -limit else limit;
    if (dx - v1 * dt < 0.0) != (dx < 0.0)
    then m.(acceleration := 0.0, velocity := velocity, done := true, target := None)
    else m.(acceleration := 0.0, velocity := v1)
  }

  /** Deceleration that stops exactly at the target, capped at a. */
  function Brake(a: real, w: real, distance: real): real
    requires distance != 0.0
  {
    var required := w * w * (1.0 / (2.0 * distance));
    Signed(if required > a then a else required, w >= 0.0)
  }

  /** Switching to braking after one more accelerating step would be too late. */
  predicate MustSwitch(a: real, w: real, distance: real, dt: real)
    requires 0.0 < a
  {
    var next := Abs(w) + a * dt;
    distance - (Abs(w) + next) * 0.5 * dt < next * next * (1.0 / (2.0 * a))
  }

  function Acceleration(limit: Option<real>, a: real, v0: real, vf: real, dx: real, dt: real): real
    requires 0.0 < a
  {
    var w := v0 - vf;
    if limit.Some? && Abs(v0) > limit.value then Signed(a, v0 >= 0.0)
    else if w * dx >= 0.0 && dx != 0.0 then
      if Abs(dx) > w * w * (1.0 / (2.0 * a)) then
        if MustSwitch(a, w, Abs(dx), dt) then Brake(a, w, Abs(dx))
        else if limit.None? || Abs(v0) < limit.value then Signed(a, dx < 0.0)
        else 0.0
      else Brake(a, w, Abs(dx))
    else Signed(a, w >= 0.0)
  }

  /** One step passes through the velocity limit without stopping there. */
  predicate PassesLimit(limit: Option<real>, v0: real, v1: real) {
    limit.Some? && Min(Abs(v0), Abs(v1)) < limit.value < Max(Abs(v0), Abs(v1))
  }

  predicate Arrived(a: real, v0: real, v1: real, vf: real, dx: real, dt: real) {
    var w := Abs(v1 - vf);
    ((Min(v0, v1) <= vf && vf <= Max(v0, v1)) || w < a * 0.5 * dt) &&
    Abs(dx) <= Max(w, Abs(vf)) * 10.0 * dt
  }

  function VelocityAndAccel(m: Motion, limits: Limits, dt: real, vf: real): Motion
    requires limits.Valid() && m.position.Some? && m.target.Some?
    requires limits.velocity.Some? || limits.accel.Some?
  {
    var dx := m.target.value - m.position.value;
    match limits.accel
    case None => VelocityOnly(m, dx, limits.velocity.value, vf, dt)
    case Some(a) =>
      Accelerate(m, limits.velocity, a, Acceleration(limits.velocity, a, m.velocity, vf, dx, dt), vf, dx, dt)
  }

  function Accelerate(m: Motion, limit: Option<real>, a: real, acceleration: real, vf: real, dx: real, dt: real): Motion {
    Advance(m, limit, a, acceleration, m.velocity + acceleration * dt, vf, dx, dt)
  }

  /** Take on velocity v1: one cycle exactly at the limit when passing it, and arrival. */
  function Advance(m: Motion, limit: Option<real>, a: real, acceleration: real, v1: real, vf: real, dx: real, dt: real): Motion {
    var snapped := PassesLimit(limit, m.velocity, v1);
    var v2 := if snapped then Signed(limit.value, v1 < 0.0) else v1;
    if Arrived(a, m.velocity, v2, vf, dx, dt)
    then m.(acceleration := 0.0, velocity := vf, done := true, target := None)
    else m.(acceleration := if snapped then 0.0 else acceleration, velocity := v2)
  }

  function UpdateTrajectory(m: Motion, limits: Limits, dt: real, velocity: real): Motion
    requires limits.Valid() && m.position.Some?
    requires limits.velocity.Some? || limits.accel.Some?
  {
    var v := ClampVelocity(limits.velocity, velocity);
    if m.target.None? then VelocityMode(m, limits, dt, v) else VelocityAndAccel(m, limits, dt, v)
  }

  // ---------------------------------------------------------------------
  // Velocity bounds
  // ---------------------------------------------------------------------

  predicate Within(v: real, limit: real) { -limit <= v <= limit }

  lemma BrakeOpposes(a: real, w: real, distance: real)
    requires 0.0 < a && 0.0 < distance
    ensures w >= 0.0 ==> -a <= Brake(a, w, distance) <= 0.0
    ensures w < 0.0 ==> 0.0 <= Brake(a, w, distance) <= a
  {
    assert 0.0 <= w * w * (1.0 / (2.0 * distance)) by {
      assert 0.0 <= w * w;
      assert 0.0 < 1.0 / (2.0 * distance);
    }
  }

  /** Below the limit any acceleration is possible; at the limit it points inwards,
      unless the target velocity is that limit and the target is reached. */
  lemma AccelerationAtLimit(limit: real, a: real, v0: real, vf: real, dx: real, dt: real)
    requires 0.0 < a && Within(v0, limit) && Within(vf, limit)
    ensures var acc := Acceleration(Some(limit), a, v0, vf, dx, dt);
            -a <= acc <= a &&
            (v0 == limit ==> acc <= 0.0) && (v0 == -limit ==> acc >= 0.0 || (dx == 0.0 && vf == v0))
  {
    if dx != 0.0 {
      BrakeOpposes(a, v0 - vf, Abs(dx));
      var w := v0 - vf;
      if v0 == -limit && w == 0.0 {
        assert Brake(a, w, Abs(dx)) == 0.0;
      }
    }
  }

  /** How coarse the steps may be. */
  predicate StepFits(limit: real, a: real, dt: real) {
    limit == 0.0 || a * dt <= 2.0 * limit
  }

  /** One accelerated step keeps the bound when it cannot cross the whole band. */
  lemma AccelStepWithin(m: Motion, limits: Limits, dt: real, vf: real)
    requires limits.Valid() && m.position.Some? && m.target.Some? && limits.velocity.Some? && limits.accel.Some?
    requires Within(m.velocity, limits.velocity.value) && Within(vf, limits.velocity.value)
    requires 0.0 < dt && StepFits(limits.velocity.value, limits.accel.value, dt)
    ensures Within(VelocityAndAccel(m, limits, dt, vf).velocity, limits.velocity.value)
  {
    var limit, a := limits.velocity.value, limits.accel.value;
    var dx := m.target.value - m.position.value;
    AccelerationAtLimit(limit, a, m.velocity, vf, dx, dt);
    AccelerateWithin(m, limits.velocity, a, Acceleration(limits.velocity, a, m.velocity, vf, dx, dt), vf, dx, dt);
  }

  lemma AccelerateWithin(m: Motion, limit: Option<real>, a: real, acc: real, vf: real, dx: real, dt: real)
    requires 0.0 < dt && limit.Some? && 0.0 <= limit.value && Within(m.velocity, limit.value) && Within(vf, limit.value)
    requires -a <= acc <= a && StepFits(limit.value, a, dt)
    requires m.velocity == limit.value ==> acc <= 0.0
    requires m.velocity == -limit.value ==> acc >= 0.0 || (dx == 0.0 && vf == m.velocity)
    ensures Within(Accelerate(m, limit, a, acc, vf, dx, dt).velocity, limit.value)
  {
    StepSize(acc, a, dt);
    SteppedWithin(m, limit, a, acc, acc * dt, vf, dx, dt);
  }

  lemma SteppedWithin(m: Motion, limit: Option<real>, a: real, acc: real, step: real, vf: real, dx: real, dt: real)
    requires 0.0 < dt && limit.Some? && 0.0 <= limit.value && Within(m.velocity, limit.value) && Within(vf, limit.value)
    requires StepBounded(step, a * dt) && StepFits(limit.value, a, dt)
    requires m.velocity == limit.value ==> step <= 0.0
    requires m.velocity == -limit.value ==> step >= 0.0 || (dx == 0.0 && vf == m.velocity)
    ensures Within(Advance(m, limit, a, acc, m.velocity + step, vf, dx, dt).velocity, limit.value)
  {
    AdvanceWithin(m, limit, a, acc, m.velocity + step, vf, dx, dt);
  }

  lemma AdvanceWithin(m: Motion, limit: Option<real>, a: real, acc: real, v1: real, vf: real, dx: real, dt: real)
    requires 0.0 < dt && limit.Some? && 0.0 <= limit.value && Within(m.velocity, limit.value) && Within(vf, limit.value)
    requires -(a * dt) <= v1 - m.velocity <= a * dt && StepFits(limit.value, a, dt)
    requires m.velocity == limit.value ==> v1 <= m.velocity
    requires m.velocity == -limit.value ==> v1 >= m.velocity || (dx == 0.0 && vf == m.velocity)
    ensures Within(Advance(m, limit, a, acc, v1, vf, dx, dt).velocity, limit.value)
  {
    var v0 := m.velocity;
    if !PassesLimit(limit, v0, v1) && !Within(v1, limit.value) {
      assert dx == 0.0 && vf == v0;
      assert Abs(dx) <= Max(Abs(v1 - vf), Abs(vf)) * 10.0 * dt;
    }
  }

  predicate StepBounded(step: real, full: real) { -full <= step <= full }

  lemma StepSize(acc: real, a: real, dt: real)
    requires -a <= acc <= a && 0.0 < dt
    ensures StepBounded(acc * dt, a * dt)
    ensures acc <= 0.0 ==> acc * dt <= 0.0
    ensures acc >= 0.0 ==> acc * dt >= 0.0
  {
  }

  /** Once within the velocity limit, every sub-planner stays within it. */
  lemma VelocityStaysWithin(m: Motion, limits: Limits, dt: real, velocity: real)
    requires limits.Valid() && m.position.Some? && limits.velocity.Some? && 0.0 < dt
    requires Within(m.velocity, limits.velocity.value)
    requires limits.accel.Some? && m.target.Some? ==> StepFits(limits.velocity.value, limits.accel.value, dt)
    ensures Within(UpdateTrajectory(m, limits, dt, velocity).velocity, limits.velocity.value)
  {
    var v := ClampVelocity(limits.velocity, velocity);
    if m.target.Some? {
      if limits.accel.Some? {
        AccelStepWithin(m, limits, dt, v);
      }
    } else if limits.accel.Some? {
      RampBetween(m, limits, dt, v);
    }
  }

  /** The velocity ramp moves towards its goal and never past it. */
  lemma RampBetween(m: Motion, limits: Limits, dt: real, velocity: real)
    requires limits.Valid() && limits.accel.Some? && 0.0 < dt
    ensures var v := ClampVelocity(limits.velocity, velocity);
            var r := VelocityMode(m, limits, dt, velocity);
            Min(m.velocity, v) <= r.velocity <= Max(m.velocity, v) && (r.done && !m.done ==> r.velocity == v)
  {
    assert 0.0 < limits.accel.value * dt;
  }

  /** The bound on a * dt is necessary: a coarser step leaves the band. */
  lemma CoarseStepLeavesBand(limit: real, a: real, dt: real)
    requires 0.0 <= limit && 0.0 < a && 0.0 < dt && !StepFits(limit, a, dt)
    ensures var far := -(2.0 * limit + a * dt) * 10.0 * dt - 1.0;
            var m := Motion(Some(0.0), limit, 0.0, false, Some(far));
            !Within(VelocityAndAccel(m, Limits(Some(limit), Some(a)), dt, -limit).velocity, limit)
  {
    var far := -(2.0 * limit + a * dt) * 10.0 * dt - 1.0;
    var m := Motion(Some(0.0), limit, 0.0, false, Some(far));
    assert 0.0 < (2.0 * limit + a * dt) * dt;
    MovingAway(limit, a, far, dt);
    FarAway(m, limit, a, far, dt);
  }

  lemma MovingAway(limit: real, a: real, far: real, dt: real)
    requires 0.0 < limit && 0.0 < a && far < 0.0
    ensures Acceleration(Some(limit), a, limit, -limit, far, dt) == -a
  {
    Negative(limit + limit, far);
  }

  lemma FarAway(m: Motion, limit: real, a: real, far: real, dt: real)
    requires 0.0 < limit && 0.0 < a && 0.0 < dt && m.velocity == limit && a * dt > 2.0 * limit
    requires far < -(2.0 * limit + a * dt) * 10.0 * dt
    ensures Accelerate(m, Some(limit), a, -a, -limit, far, dt).velocity == limit - a * dt
  {
    var v1 := limit - a * dt;
    MaxScaled(Max(Abs(v1 + limit), limit), 2.0 * limit + a * dt, dt);
  }

  lemma Negative(x: real, y: real)
    requires 0.0 < x && y < 0.0
    ensures x * y < 0.0
  {
  }

  lemma MaxScaled(x: real, y: real, dt: real)
    requires x <= y && 0.0 < dt
    ensures x * 10.0 * dt <= y * 10.0 * dt
  {
  }

  // ---------------------------------------------------------------------
  // The velocity ramp finishes
  // ---------------------------------------------------------------------

  /** n cycles of velocity mode, or fewer if it is done earlier. */
  function Ramp(m: Motion, limits: Limits, dt: real, velocity: real, n: nat): Motion
    decreases n
  {
    if n == 0 || m.done then m else Ramp(VelocityMode(m, limits, dt, velocity), limits, dt, velocity, n - 1)
  }

  /** Within ceil(|dv| / (a * dt)) + 1 cycles the goal is reached exactly. */
  lemma {:induction false} RampFinishes(m: Motion, limits: Limits, dt: real, velocity: real, n: nat)
    requires limits.Valid() && limits.accel.Some? && 0.0 < dt && !m.done
    requires Abs(ClampVelocity(limits.velocity, velocity) - m.velocity) <= (n as real) * (limits.accel.value * dt)
    ensures var r := Ramp(m, limits, dt, velocity, n + 1);
            r.done && r.velocity == ClampVelocity(limits.velocity, velocity)
    decreases n
  {
    var v, s := ClampVelocity(limits.velocity, velocity), limits.accel.value * dt;
    assert 0.0 < s;
    var m1 := VelocityMode(m, limits, dt, velocity);
    assert (-limits.accel.value) * dt == -s;
    if m1.done {
      assert Ramp(m1, limits, dt, velocity, n) == m1;
    } else {
      assert Abs(v - m1.velocity) == Abs(v - m.velocity) - s;
      assert n > 0 by {
        assert 0.0 < Abs(v - m.velocity);
        assert (n as real) * s != 0.0;
      }
      assert ((n - 1) as real) * s == (n as real) * s - s;
      RampFinishes(m1, limits, dt, velocity, n - 1);
    }
  }

  // ---------------------------------------------------------------------
  // Closing on the target without overshoot
  // ---------------------------------------------------------------------

  /** Distance and closing speed in the frame of the target after one step at a
      constant acceleration towards it. */
  function NextSpeed(u: real, alpha: real, dt: real): real { u + alpha * dt }

  function NextDistance(distance: real, u: real, alpha: real, dt: real): real {
    distance - (u + NextSpeed(u, alpha, dt)) * 0.5 * dt
  }

  /** Stopping within the remaining distance is possible at deceleration a. */
  predicate CanStop(a: real, u: real, distance: real) {
    u * u <= 2.0 * a * distance
  }

  lemma Reciprocal(x: real, y: real, a: real)
    requires 0.0 < a
    ensures x <= y * (1.0 / (2.0 * a)) <==> 2.0 * a * x <= y
    ensures y * (1.0 / (2.0 * a)) <= x <==> y <= 2.0 * a * x
  {
    var z := y * (1.0 / (2.0 * a));
    assert z * (2.0 * a) == y;
    Scaled(x, z, 2.0 * a);
  }

  lemma Scaled(x: real, y: real, c: real)
    requires 0.0 < c
    ensures x <= y <==> x * c <= y * c
  {
    if x < y { assert 0.0 < (y - x) * c; }
    if y < x { assert 0.0 < (x - y) * c; }
  }

  /** Accelerating or cruising is chosen only while stopping stays possible. */
  lemma LateEnough(a: real, u: real, distance: real, dt: real, alpha: real)
    requires 0.0 < a && 0.0 <= u && 0.0 < dt && !MustSwitch(a, u, distance, dt)
    requires alpha == a || alpha == 0.0
    ensures CanStop(a, NextSpeed(u, alpha, dt), NextDistance(distance, u, alpha, dt))
    ensures 0.0 < NextDistance(distance, u, alpha, dt)
  {
    var next := u + a * dt;
    var after := distance - (u + next) * 0.5 * dt;
    assert 0.0 < a * dt;
    assert 0.0 < next * next;
    Reciprocal(after, next * next, a);
    assert next * next <= 2.0 * a * after;
    if alpha == 0.0 {
      var d1 := distance - (u + u) * 0.5 * dt;
      assert d1 == after + a * dt * 0.5 * dt;
      assert 0.0 < a * dt * 0.5 * dt;
      Scaled(after, d1, 2.0 * a);
      assert u * u <= next * next;
    }
  }

  /** Braking at the required deceleration r = u^2 / 2D conserves u^2 / D exactly. */
  lemma BrakingConserves(u: real, distance: real, dt: real, r: real)
    requires 0.0 < distance && r * (2.0 * distance) == u * u
    ensures var u1, d1 := NextSpeed(u, -r, dt), NextDistance(distance, u, -r, dt);
            u1 * u1 * distance == u * u * d1 && 0.0 <= d1 && u1 * u1 == 2.0 * r * d1
  {
    var u1, d1 := NextSpeed(u, -r, dt), NextDistance(distance, u, -r, dt);
    assert u1 == u - r * dt;
    assert d1 == distance - u * dt + r * dt * dt * 0.5;
    assert u1 * u1 == u * u - 2.0 * r * (u * dt) + r * r * (dt * dt);
    assert 2.0 * r * d1 == 2.0 * r * distance - 2.0 * r * (u * dt) + r * r * (dt * dt);
    assert u1 * u1 == 2.0 * r * d1;
    assert u1 * u1 * distance == (2.0 * r * distance) * d1;
    BrakedSide(u, distance, dt, r, d1);
  }

  lemma BrakedSide(u: real, distance: real, dt: real, r: real, d1: real)
    requires 0.0 < distance && r * (2.0 * distance) == u * u
    requires d1 == distance - u * dt + r * dt * dt * 0.5
    ensures 0.0 <= d1
  {
    var y := 2.0 * distance - u * dt;
    assert 0.0 <= y * y;
    assert y * y == 4.0 * distance * distance - 4.0 * distance * (u * dt) + (u * u) * (dt * dt);
    assert (u * u) * (dt * dt) == r * (2.0 * distance) * (dt * dt);
    assert y * y == (4.0 * distance) * d1;
  }

  /** Along the direction of the target the planner uses a, zero, or the required braking. */
  ghost predicate Choice(a: real, u: real, distance: real, dt: real, alpha: real)
    requires 0.0 < a
  {
    ((alpha == a || alpha == 0.0) && !MustSwitch(a, u, distance, dt)) ||
    (0.0 <= -alpha <= a && (-alpha) * (2.0 * distance) == u * u)
  }

  lemma RequiredBraking(a: real, w: real, distance: real)
    requires 0.0 < a && 0.0 < distance && CanStop(a, w, distance)
    ensures var r := w * w * (1.0 / (2.0 * distance));
            0.0 <= r <= a && r * (2.0 * distance) == w * w && Brake(a, w, distance) == Signed(r, w >= 0.0)
  {
    var r := w * w * (1.0 / (2.0 * distance));
    assert r * (2.0 * distance) == w * w;
    assert 0.0 <= w * w;
    assert 0.0 < 1.0 / (2.0 * distance);
    Scaled(r, a, 2.0 * distance);
  }

  lemma ClosingBranches(limit: Option<real>, a: real, v0: real, vf: real, dx: real, dt: real)
    requires 0.0 < a && dx != 0.0 && (limit.Some? ==> Abs(v0) <= limit.value) && (v0 - vf) * dx >= 0.0
    ensures var acc, w := Acceleration(limit, a, v0, vf, dx, dt), v0 - vf;
            acc == Brake(a, w, Abs(dx)) ||
            (!MustSwitch(a, w, Abs(dx), dt) && (acc == Signed(a, dx < 0.0) || acc == 0.0))
  {
  }

  lemma BrakingChoice(a: real, w: real, dx: real, dt: real)
    requires 0.0 < a && dx != 0.0 && CanStop(a, w, Abs(dx))
    requires (dx > 0.0 ==> w >= 0.0) && (dx < 0.0 ==> w <= 0.0)
    ensures Choice(a, Abs(w), Abs(dx), dt, Signed(Brake(a, w, Abs(dx)), dx < 0.0))
  {
    RequiredBraking(a, w, Abs(dx));
    assert Abs(w) * Abs(w) == w * w;
    if w == 0.0 {
      assert Brake(a, w, Abs(dx)) == 0.0;
    }
  }

  lemma ClosingChoice(limit: Option<real>, a: real, v0: real, vf: real, dx: real, dt: real)
    requires 0.0 < a && 0.0 < dt && dx != 0.0 && (limit.Some? ==> Abs(v0) <= limit.value)
    requires (v0 - vf) * dx >= 0.0 && CanStop(a, v0 - vf, Abs(dx))
    ensures Choice(a, Abs(v0 - vf), Abs(dx), dt, Signed(Acceleration(limit, a, v0, vf, dx, dt), dx < 0.0))
  {
    var w := v0 - vf;
    SameSign(w, dx);
    ClosingBranches(limit, a, v0, vf, dx, dt);
    BrakingChoice(a, w, dx, dt);
    AbsSwitches(a, w, Abs(dx), dt);
  }

  lemma AbsSwitches(a: real, w: real, distance: real, dt: real)
    requires 0.0 < a
    ensures MustSwitch(a, Abs(w), distance, dt) == MustSwitch(a, w, distance, dt)
  {
    assert Abs(Abs(w)) == Abs(w);
  }

  lemma SameSign(w: real, dx: real)
    requires w * dx >= 0.0 && dx != 0.0
    ensures dx > 0.0 ==> w >= 0.0
    ensures dx < 0.0 ==> w <= 0.0
  {
    if dx > 0.0 && w < 0.0 { Negative(dx, w); }
    if dx < 0.0 && w > 0.0 { Negative(w, dx); }
  }

  lemma ChoiceIsSafe(a: real, u: real, distance: real, dt: real, alpha: real)
    requires 0.0 < a && 0.0 < dt && 0.0 <= u && 0.0 < distance && CanStop(a, u, distance)
    requires Choice(a, u, distance, dt, alpha)
    ensures 0.0 <= NextDistance(distance, u, alpha, dt)
    ensures CanStop(a, NextSpeed(u, alpha, dt), NextDistance(distance, u, alpha, dt))
  {
    if (alpha == a || alpha == 0.0) && !MustSwitch(a, u, distance, dt) {
      LateEnough(a, u, distance, dt, alpha);
    } else {
      BrakingConserves(u, distance, dt, -alpha);
      var d1 := NextDistance(distance, u, alpha, dt);
      assert 2.0 * (-alpha) * d1 <= 2.0 * a * d1 by { Scaled2(-alpha, a, d1); }
    }
  }

  lemma Scaled2(x: real, y: real, c: real)
    requires x <= y && 0.0 <= c
    ensures 2.0 * x * c <= 2.0 * y * c
  {
    assert 0.0 <= (y - x) * c;
  }

  /** Remaining displacement after one step from v0 to v1, the target moving at vf. */
  function PlannedDx(v0: real, v1: real, vf: real, dx: real, dt: real): real {
    dx + vf * dt - (v0 + v1) * 0.5 * dt
  }

  /** On the side it started from, and still able to stop at the target. */
  predicate Safe(a: real, w: real, dx: real, negative: bool) {
    (if negative then dx <= 0.0 else 0.0 <= dx) && CanStop(a, w, Abs(dx))
  }

  predicate SafeStep(a: real, v0: real, vf: real, dx: real, dt: real, acc: real) {
    var v1 := v0 + acc * dt;
    Safe(a, v1 - vf, PlannedDx(v0, v1, vf, dx, dt), dx < 0.0)
  }

  /** No overshoot: a step that starts closing on a target it can stop at ends on the same
      side of it, still able to stop there. */
  lemma NoOvershoot(limit: Option<real>, a: real, v0: real, vf: real, dx: real, dt: real)
    requires 0.0 < a && 0.0 < dt && dx != 0.0 && (limit.Some? ==> Abs(v0) <= limit.value)
    requires (v0 - vf) * dx >= 0.0 && CanStop(a, v0 - vf, Abs(dx))
    ensures SafeStep(a, v0, vf, dx, dt, Acceleration(limit, a, v0, vf, dx, dt))
  {
    ClosingChoice(limit, a, v0, vf, dx, dt);
    AbsSquare(a, v0 - vf, Abs(dx));
    SameSign(v0 - vf, dx);
    SafeInFrame(a, v0, vf, dx, dt, Acceleration(limit, a, v0, vf, dx, dt));
  }

  lemma AbsSquare(a: real, w: real, distance: real)
    requires CanStop(a, w, distance)
    ensures CanStop(a, Abs(w), distance)
  {
    assert Abs(w) * Abs(w) == w * w;
  }

  lemma SafeInFrame(a: real, v0: real, vf: real, dx: real, dt: real, acc: real)
    requires 0.0 < a && 0.0 < dt && dx != 0.0 && CanStop(a, Abs(v0 - vf), Abs(dx))
    requires (dx > 0.0 ==> v0 - vf >= 0.0) && (dx < 0.0 ==> v0 - vf <= 0.0)
    requires Choice(a, Abs(v0 - vf), Abs(dx), dt, Signed(acc, dx < 0.0))
    ensures SafeStep(a, v0, vf, dx, dt, acc)
  {
    var alpha := Signed(acc, dx < 0.0);
    InTargetFrame(v0, vf, dx, dt, acc, alpha);
    FrameSafe(a, Abs(v0 - vf), Abs(dx), dt, alpha, dx < 0.0,
      v0 + acc * dt - vf, PlannedDx(v0, v0 + acc * dt, vf, dx, dt));
  }

  lemma FrameSafe(a: real, u: real, distance: real, dt: real, alpha: real, negative: bool, w1: real, dx1: real)
    requires 0.0 < a && 0.0 < dt && 0.0 <= u && 0.0 < distance && CanStop(a, u, distance)
    requires Choice(a, u, distance, dt, alpha)
    requires w1 == Signed(NextSpeed(u, alpha, dt), negative)
    requires dx1 == Signed(NextDistance(distance, u, alpha, dt), negative)
    ensures Safe(a, w1, dx1, negative)
  {
    ChoiceIsSafe(a, u, distance, dt, alpha);
    Mirror(a, NextSpeed(u, alpha, dt), NextDistance(distance, u, alpha, dt), negative, w1, dx1);
  }

  lemma Mirror(a: real, u1: real, d1: real, negative: bool, w1: real, dx1: real)
    requires 0.0 <= d1 && CanStop(a, u1, d1) && w1 == Signed(u1, negative) && dx1 == Signed(d1, negative)
    ensures Safe(a, w1, dx1, negative)
  {
    assert w1 * w1 == u1 * u1;
  }

  /** The same step seen from the target. */
  lemma InTargetFrame(v0: real, vf: real, dx: real, dt: real, acc: real, alpha: real)
    requires dx != 0.0 && alpha == Signed(acc, dx < 0.0)
    requires dx > 0.0 ==> v0 - vf >= 0.0
    requires dx < 0.0 ==> v0 - vf <= 0.0
    ensures var u, v1 := Abs(v0 - vf), v0 + acc * dt;
            v1 - vf == Signed(NextSpeed(u, alpha, dt), dx < 0.0) &&
            PlannedDx(v0, v1, vf, dx, dt) == Signed(NextDistance(Abs(dx), u, alpha, dt), dx < 0.0)
  {
    var u, step, seen := Abs(v0 - vf), acc * dt, alpha * dt;
    Negated(acc, dt);
    PlannedIs(v0, vf, dx, dt, step);
    NextIs(Abs(dx), u, alpha, dt, seen);
    NegatedHalf(2.0 * u + seen, dt);
  }

  lemma Negated(x: real, dt: real)
    ensures (-x) * dt == -(x * dt)
  {
  }

  lemma NegatedHalf(x: real, dt: real)
    ensures -x * 0.5 * dt == -(x * 0.5 * dt)
  {
  }

  lemma PlannedIs(v0: real, vf: real, dx: real, dt: real, step: real)
    ensures PlannedDx(v0, v0 + step, vf, dx, dt) == dx - (2.0 * (v0 - vf) + step) * 0.5 * dt
  {
  }

  lemma NextIs(distance: real, u: real, alpha: real, dt: real, step: real)
    requires step == alpha * dt
    ensures NextSpeed(u, alpha, dt) == u + step
    ensures NextDistance(distance, u, alpha, dt) == distance - (2.0 * u + step) * 0.5 * dt
  {
  }

  // ---------------------------------------------------------------------
  // The braking run
  // ---------------------------------------------------------------------

  datatype Approach = Approach(distance: real, speed: real)

  /** One braking step towards the target, the deceleration recomputed from scratch. */
  function BrakeStep(s: Approach, dt: real): Approach
    requires s.distance != 0.0
  {
    var r := s.speed * s.speed * (1.0 / (2.0 * s.distance));
    Approach(NextDistance(s.distance, s.speed, -r, dt), NextSpeed(s.speed, -r, dt))
  }

  /** On the parabola of constant deceleration r. */
  predicate OnParabola(s: Approach, r: real) {
    s.speed * s.speed == 2.0 * r * s.distance
  }

  /** Recomputing the deceleration every cycle leaves it constant. */
  lemma BrakeStepStays(s: Approach, r: real, dt: real)
    requires 0.0 < s.distance && OnParabola(s, r)
    ensures var next := BrakeStep(s, dt);
            next.speed == s.speed - r * dt && OnParabola(next, r) && 0.0 <= next.distance
  {
    var q := s.speed * s.speed * (1.0 / (2.0 * s.distance));
    assert q * (2.0 * s.distance) == s.speed * s.speed;
    assert (q - r) * s.distance == 0.0;
    assert q == r;
    BrakingConserves(s.speed, s.distance, dt, r);
  }

  function BrakeRun(s: Approach, dt: real, n: nat): Approach
  {
    if n == 0 then s
    else
      var before := BrakeRun(s, dt, n - 1);
      if before.distance == 0.0 then before else BrakeStep(before, dt)
  }

  /** Speed used up in n cycles. */
  function Used(step: real, n: nat): real { if n == 0 then 0.0 else Used(step, n - 1) + step }

  lemma {:induction false} UsedIsProduct(step: real, n: nat)
    ensures Used(step, n) == (n as real) * step
  {
    if n > 0 {
      UsedIsProduct(step, n - 1);
      assert (n - 1) as real == n as real - 1.0;
    }
  }

  lemma {:induction false} UsedIsNotNegative(step: real, n: nat)
    requires 0.0 < step
    ensures 0.0 <= Used(step, n) && (n > 0 ==> 0.0 < Used(step, n))
  {
    if n > 0 {
      UsedIsNotNegative(step, n - 1);
    }
  }

  /** What is left of a braking run after its speed has fallen by `used`. */
  predicate Braked(s: Approach, r: real, used: real, e: Approach) {
    e.speed == s.speed - used && OnParabola(e, r) && 0.0 <= e.distance && (e.distance == 0.0 <==> e.speed == 0.0)
  }

  lemma {:induction false} BrakeRunUses(s: Approach, r: real, dt: real, step: real, n: nat)
    requires 0.0 < r && 0.0 < dt && 0.0 < s.distance && OnParabola(s, r) && step == r * dt && 0.0 < step
    requires Used(step, n) <= s.speed
    ensures Braked(s, r, Used(step, n), BrakeRun(s, dt, n))
  {
    if n > 0 {
      BrakeRunUses(s, r, dt, step, n - 1);
      BrakeStepStays(BrakeRun(s, dt, n - 1), r, dt);
    }
    StopsTogether(BrakeRun(s, dt, n), r);
  }

  /** n braking cycles: speed falls linearly, distance along the parabola, ending at rest
      on the target exactly when the speed is used up. */
  lemma BrakeRunIsParabola(s: Approach, r: real, dt: real, n: nat)
    requires 0.0 < r && 0.0 < dt && 0.0 < s.distance && OnParabola(s, r)
    requires (n as real) * (r * dt) <= s.speed
    ensures Braked(s, r, (n as real) * (r * dt), BrakeRun(s, dt, n))
  {
    var step := r * dt;
    Positive(r, dt, step);
    UsedIsProduct(step, n);
    BrakeRunUses(s, r, dt, step, n);
  }

  lemma StopsTogether(e: Approach, r: real)
    requires 0.0 < r && OnParabola(e, r)
    ensures e.distance == 0.0 <==> e.speed == 0.0
  {
    ZeroProduct(2.0 * r, e.distance);
    ZeroProduct(e.speed, e.speed);
  }

  lemma ZeroProduct(x: real, y: real)
    ensures x * y == 0.0 <==> x == 0.0 || y == 0.0
  {
  }

  // ---------------------------------------------------------------------
  // Once it brakes, the planner goes on braking
  // ---------------------------------------------------------------------

  /** Velocity and remaining displacement. */
  datatype Leg = Leg(velocity: real, dx: real)

  /** One cycle of the planner, the target moving at vf. */
  function PlannerStep(limit: Option<real>, a: real, vf: real, dt: real, s: Leg): Leg
    requires 0.0 < a
  {
    Moved(s, Acceleration(limit, a, s.velocity, vf, s.dx, dt), vf, dt)
  }

  function Moved(s: Leg, acc: real, vf: real, dt: real): Leg {
    var v1 := s.velocity + acc * dt;
    Leg(v1, PlannedDx(s.velocity, v1, vf, s.dx, dt))
  }

  function PlannerRun(limit: Option<real>, a: real, vf: real, dt: real, s: Leg, n: nat): Leg
    requires 0.0 < a
  {
    if n == 0 then s else PlannerStep(limit, a, vf, dt, PlannerRun(limit, a, vf, dt, s, n - 1))
  }

  /** An approach as the planner sees it, from either side of a moving target. */
  function Seen(s: Approach, vf: real, negative: bool): Leg {
    Leg(vf + Signed(s.speed, negative), Signed(s.distance, negative))
  }

  /** The switching condition without its divisions. */
  lemma MustSwitchIff(a: real, u: real, distance: real, dt: real)
    requires 0.0 < a && 0.0 <= u
    ensures MustSwitch(a, u, distance, dt) <==> Due(a, u, distance, a * dt)
  {
    var s := a * dt;
    var next, after := u + s, distance - (u + (u + s)) * 0.5 * dt;
    Reciprocal(after, next * next, a);
    Expanded(a, u, distance, dt, s);
  }

  lemma Expanded(a: real, u: real, distance: real, dt: real, s: real)
    requires s == a * dt
    ensures 2.0 * a * (distance - (u + (u + s)) * 0.5 * dt) == 2.0 * a * distance - 2.0 * u * s - s * s
    ensures (u + s) * (u + s) == u * u + 2.0 * u * s + s * s
  {
    assert 2.0 * a * ((u + (u + s)) * 0.5 * dt) == (u + (u + s)) * (a * dt);
  }

  lemma MustSwitchIsDue(a: real, u: real, distance: real, dt: real, step: real)
    requires 0.0 < a && 0.0 <= u && step == a * dt
    ensures MustSwitch(a, u, distance, dt) <==> Due(a, u, distance, step)
  {
    MustSwitchIff(a, u, distance, dt);
  }

  /** At the stopping distance itself it is time to brake. */
  lemma StoppingDistanceSwitches(a: real, u: real, distance: real, dt: real)
    requires 0.0 < a && 0.0 < dt && 0.0 <= u && u * u == 2.0 * a * distance
    ensures MustSwitch(a, u, distance, dt)
  {
    MustSwitchIff(a, u, distance, dt);
    PositiveMargin(u, a * dt);
  }

  lemma PositiveMargin(u: real, s: real)
    requires 0.0 <= u && 0.0 < s
    ensures 0.0 < 4.0 * u * s + 2.0 * s * s
  {
    assert 0.0 <= u * s;
    assert 0.0 < s * s;
  }

  /** On the parabola of r the margin that is left is u^2 (a - r) / r. */
  lemma ParabolaMargin(a: real, r: real, u: real, distance: real)
    requires u * u == 2.0 * r * distance
    ensures r * (2.0 * a * distance - u * u) == u * u * (a - r)
  {
    assert r * (2.0 * a * distance) == a * (2.0 * r * distance);
  }

  lemma Smaller(u: real, u1: real, s: real)
    requires 0.0 < u1 <= u && 0.0 < s
    ensures u1 * u1 * (4.0 * u * s + 2.0 * s * s) <= u * u * (4.0 * u1 * s + 2.0 * s * s)
  {
    var both, x, y := u * u1, u1 * u1, u * u;
    Scaled(u1, u, u1);
    Scaled(u1, u, u);
    assert 0.0 < both && x <= both <= y;
    Scaled(u1, u, both);
    var lower, upper := u1 * both, u * both;
    assert x * u == lower && y * u1 == upper;
    Spread(x, y, u, u1, lower, upper, s);
  }

  lemma Spread(x: real, y: real, u: real, u1: real, lower: real, upper: real, s: real)
    requires 0.0 < s && x <= y && x * u == lower && y * u1 == upper && lower <= upper
    ensures x * (4.0 * u * s + 2.0 * s * s) <= y * (4.0 * u1 * s + 2.0 * s * s)
  {
    var t := 2.0 * s * s;
    Positive(2.0 * s, s, t);
    Scaled(x, y, t);
    Scaled(lower, upper, 4.0 * s);
    Distributes(x, u, s, t, lower);
    Distributes(y, u1, s, t, upper);
  }

  lemma Distributes(x: real, u: real, s: real, t: real, product: real)
    requires x * u == product
    ensures x * (4.0 * u * s + t) == product * (4.0 * s) + x * t
  {
    assert x * (4.0 * u * s) == (x * u) * (4.0 * s);
  }

  /** Scaling the speed down keeps the margin below its bound. */
  lemma MarginShrinks(c: real, r: real, u: real, u1: real, s: real)
    requires 0.0 < r && 0.0 < u1 <= u && 0.0 < s
    requires u * u * c < r * (4.0 * u * s + 2.0 * s * s)
    ensures u1 * u1 * c < r * (4.0 * u1 * s + 2.0 * s * s)
  {
    var x, y := u1 * u1, u * u;
    Smaller(u, u1, s);
    Positive(u1, u1, x);
    Positive(u, u, y);
    ScaledDown(x, y, c, r, 4.0 * u * s + 2.0 * s * s, 4.0 * u1 * s + 2.0 * s * s);
  }

  lemma Positive(x: real, y: real, product: real)
    requires 0.0 < x && 0.0 < y && product == x * y
    ensures 0.0 < product
  {
  }

  lemma ScaledDown(x: real, y: real, c: real, r: real, p: real, q: real)
    requires 0.0 < x && 0.0 < y && 0.0 < r && y * c < r * p && x * p <= y * q
    ensures x * c < r * q
  {
    Times(y * c, r * p, x);
    Scaled(x * p, y * q, r);
    Regroup(x, y, c);
    Regroup(x, r, p);
    Regroup(y, r, q);
    Cancel(y, x * c, r * q);
  }

  lemma Regroup(x: real, y: real, z: real)
    ensures x * (y * z) == y * (x * z) && x * (y * z) == (x * z) * y
  {
  }

  lemma Times(x: real, y: real, c: real)
    requires x < y && 0.0 < c
    ensures c * x < c * y
  {
  }

  lemma Cancel(c: real, x: real, y: real)
    requires 0.0 < c && c * x < c * y
    ensures x < y
  {
  }

  /** The planner that has switched to braking switches again in every later cycle. */
  lemma StillSwitches(a: real, r: real, dt: real, s: Approach, later: Approach)
    requires 0.0 < a && 0.0 < r && 0.0 < dt && OnParabola(s, r) && OnParabola(later, r)
    requires 0.0 < later.speed <= s.speed && MustSwitch(a, s.speed, s.distance, dt)
    ensures MustSwitch(a, later.speed, later.distance, dt)
  {
    var step := a * dt;
    Positive(a, dt, step);
    MustSwitchIsDue(a, s.speed, s.distance, dt, step);
    MarginStays(a, r, step, s.speed, s.distance, later.speed, later.distance);
    MustSwitchIsDue(a, later.speed, later.distance, dt, step);
  }

  lemma MarginStays(a: real, r: real, step: real, u: real, distance: real, u1: real, distance1: real)
    requires 0.0 < r && 0.0 < step && 0.0 < u1 <= u && u * u == 2.0 * r * distance && u1 * u1 == 2.0 * r * distance1
    requires Due(a, u, distance, step)
    ensures Due(a, u1, distance1, step)
  {
    ParabolaMargin(a, r, u, distance);
    ParabolaMargin(a, r, u1, distance1);
    Times(2.0 * a * distance - u * u, 4.0 * u * step + 2.0 * step * step, r);
    MarginShrinks(a - r, r, u, u1, step);
    Cancel(r, 2.0 * a * distance1 - u1 * u1, 4.0 * u1 * step + 2.0 * step * step);
  }

  /** The margin of an approach: what is left of the distance when the switch is due. */
  predicate Due(a: real, u: real, distance: real, step: real) {
    2.0 * a * distance - u * u < 4.0 * u * step + 2.0 * step * step
  }

  /** Time to brake and able to stop: the planner's cycle is the braking step. */
  lemma BrakingIsPlanned(limit: Option<real>, a: real, vf: real, dt: real, s: Approach, negative: bool)
    requires 0.0 < a && 0.0 < s.speed && 0.0 < s.distance
    requires limit.Some? ==> Abs(vf + Signed(s.speed, negative)) <= limit.value
    requires CanStop(a, s.speed, s.distance) && MustSwitch(a, s.speed, s.distance, dt)
    ensures PlannerStep(limit, a, vf, dt, Seen(s, vf, negative)) == Seen(BrakeStep(s, dt), vf, negative)
  {
    var r := s.speed * s.speed * (1.0 / (2.0 * s.distance));
    BrakingIsChosen(limit, a, vf, dt, s, negative, r);
    SeenBrakeStep(s, vf, dt, negative, r);
  }

  lemma SeenBrakeStep(s: Approach, vf: real, dt: real, negative: bool, r: real)
    requires 0.0 < s.speed && 0.0 < s.distance && r == s.speed * s.speed * (1.0 / (2.0 * s.distance))
    ensures Moved(Seen(s, vf, negative), Signed(r, !negative), vf, dt) == Seen(BrakeStep(s, dt), vf, negative)
  {
    SeenStep(s, vf, dt, negative, r);
    BrakeStepIs(s, dt, r);
  }

  lemma BrakeStepIs(s: Approach, dt: real, r: real)
    requires s.distance != 0.0 && r == s.speed * s.speed * (1.0 / (2.0 * s.distance))
    ensures BrakeStep(s, dt) == Approach(NextDistance(s.distance, s.speed, -r, dt), NextSpeed(s.speed, -r, dt))
  {
  }

  lemma SeenStep(s: Approach, vf: real, dt: real, negative: bool, r: real)
    requires 0.0 < s.speed && 0.0 < s.distance
    ensures Moved(Seen(s, vf, negative), Signed(r, !negative), vf, dt)
      == Seen(Approach(NextDistance(s.distance, s.speed, -r, dt), NextSpeed(s.speed, -r, dt)), vf, negative)
  {
    InTargetFrame(vf + Signed(s.speed, negative), vf, Signed(s.distance, negative), dt, Signed(r, !negative), -r);
  }

  lemma BrakingIsChosen(limit: Option<real>, a: real, vf: real, dt: real, s: Approach, negative: bool, r: real)
    requires 0.0 < a && 0.0 < s.speed && 0.0 < s.distance && r == s.speed * s.speed * (1.0 / (2.0 * s.distance))
    requires limit.Some? ==> Abs(vf + Signed(s.speed, negative)) <= limit.value
    requires CanStop(a, s.speed, s.distance) && MustSwitch(a, s.speed, s.distance, dt)
    ensures Acceleration(limit, a, vf + Signed(s.speed, negative), vf, Signed(s.distance, negative), dt) == Signed(r, !negative)
  {
    var w, dx := Signed(s.speed, negative), Signed(s.distance, negative);
    SignedProducts(s.speed, s.distance, negative);
    SignedMustSwitch(a, s.speed, s.distance, dt, negative);
    SignedBrake(a, s.speed, s.distance, negative);
    ClosingBrakes(limit, a, vf + w, vf, w, dx, dt);
  }

  lemma SignedMustSwitch(a: real, u: real, distance: real, dt: real, negative: bool)
    requires 0.0 < a && 0.0 < u && 0.0 < distance && MustSwitch(a, u, distance, dt)
    ensures MustSwitch(a, Signed(u, negative), Abs(Signed(distance, negative)), dt)
  {
    assert Abs(Signed(u, negative)) == Abs(u) && Abs(Signed(distance, negative)) == distance;
  }

  lemma SignedBrake(a: real, u: real, distance: real, negative: bool)
    requires 0.0 < a && 0.0 < u && 0.0 < distance && CanStop(a, u, distance)
    ensures Brake(a, Signed(u, negative), Abs(Signed(distance, negative)))
      == Signed(u * u * (1.0 / (2.0 * distance)), !negative)
  {
    RequiredBraking(a, u, distance);
    if negative {
      assert (-u) * (-u) == u * u;
    }
  }

  lemma SignedProducts(x: real, y: real, negative: bool)
    requires 0.0 < x && 0.0 < y
    ensures 0.0 < Signed(x, negative) * Signed(y, negative)
  {
    var product := x * y;
    Positive(x, y, product);
    assert Signed(x, negative) * Signed(y, negative) == product;
  }

  lemma ClosingBrakes(limit: Option<real>, a: real, v0: real, vf: real, w: real, dx: real, dt: real)
    requires 0.0 < a && w == v0 - vf && 0.0 < w * dx && dx != 0.0 && (limit.Some? ==> Abs(v0) <= limit.value)
    requires MustSwitch(a, w, Abs(dx), dt)
    ensures Acceleration(limit, a, v0, vf, dx, dt) == Brake(a, w, Abs(dx))
  {
  }

  lemma WithinBetween(vf: real, u: real, u1: real, negative: bool, limit: real)
    requires 0.0 <= u1 <= u && Abs(vf) <= limit && Abs(vf + Signed(u, negative)) <= limit
    ensures Abs(vf + Signed(u1, negative)) <= limit
  {
  }

  /** The planner is closing on a target it can stop at, within its velocity limit, and has
      switched to braking. */
  predicate Switched(limit: Option<real>, a: real, vf: real, dt: real, s: Approach, negative: bool) {
    && 0.0 < a && 0.0 < s.speed && 0.0 < s.distance
    && (limit.Some? ==> Abs(vf) <= limit.value && Abs(vf + Signed(s.speed, negative)) <= limit.value)
    && CanStop(a, s.speed, s.distance) && MustSwitch(a, s.speed, s.distance, dt)
  }

  /** Once it is time to brake, n cycles of the planner are n braking steps, on either side, for
      any speed of the target: the speed towards it falls linearly and is used up exactly when
      the target is reached. */
  lemma PlannerKeepsBraking(limit: Option<real>, a: real, vf: real, dt: real, s: Approach, r: real, negative: bool, n: nat)
    requires 0.0 < dt && 0.0 < r && OnParabola(s, r) && Switched(limit, a, vf, dt, s, negative)
    requires (n as real) * (r * dt) <= s.speed
    ensures PlannerRun(limit, a, vf, dt, Seen(s, vf, negative), n) == Seen(BrakeRun(s, dt, n), vf, negative)
    ensures Braked(s, r, (n as real) * (r * dt), BrakeRun(s, dt, n))
  {
    var step := r * dt;
    Positive(r, dt, step);
    UsedIsProduct(step, n);
    BrakeRunIsParabola(s, r, dt, n);
    PlannerFollows(limit, a, vf, dt, s, r, negative, step, n);
  }

  lemma {:induction false} PlannerFollows(limit: Option<real>, a: real, vf: real, dt: real, s: Approach, r: real,
                                          negative: bool, step: real, n: nat)
    requires 0.0 < dt && 0.0 < r && OnParabola(s, r) && Switched(limit, a, vf, dt, s, negative)
    requires step == r * dt && 0.0 < step && Used(step, n) <= s.speed
    ensures PlannerRun(limit, a, vf, dt, Seen(s, vf, negative), n) == Seen(BrakeRun(s, dt, n), vf, negative)
  {
    if n > 0 {
      PlannerFollows(limit, a, vf, dt, s, r, negative, step, n - 1);
      BrakeRunUses(s, r, dt, step, n - 1);
      UsedIsNotNegative(step, n - 1);
      GoesOn(limit, a, vf, dt, s, r, negative, BrakeRun(s, dt, n - 1));
    }
  }

  /** A later point of the same braking has another cycle of it. */
  lemma GoesOn(limit: Option<real>, a: real, vf: real, dt: real, s: Approach, r: real, negative: bool, later: Approach)
    requires 0.0 < dt && 0.0 < r && OnParabola(s, r) && OnParabola(later, r) && Switched(limit, a, vf, dt, s, negative)
    requires 0.0 < later.speed <= s.speed && 0.0 < later.distance
    ensures PlannerStep(limit, a, vf, dt, Seen(later, vf, negative)) == Seen(BrakeStep(later, dt), vf, negative)
  {
    StillSwitches(a, r, dt, s, later);
    StillStops(a, r, s, later);
    if limit.Some? {
      WithinBetween(vf, s.speed, later.speed, negative, limit.value);
    }
    BrakingIsPlanned(limit, a, vf, dt, later, negative);
  }

  lemma StillStops(a: real, r: real, s: Approach, later: Approach)
    requires 0.0 < s.distance && 0.0 <= later.distance && OnParabola(s, r) && OnParabola(later, r)
    requires CanStop(a, s.speed, s.distance)
    ensures CanStop(a, later.speed, later.distance)
  {
    Scaled(r, a, 2.0 * s.distance);
    Scaled2(r, a, later.distance);
  }

  // ---------------------------------------------------------------------
  // The whole way to the target
  // ---------------------------------------------------------------------

  /** What the planner's leg is as seen from the target. */
  function FromTarget(s: Leg, vf: real, negative: bool): Approach {
    Approach(Signed(s.dx, negative), Signed(s.velocity - vf, negative))
  }

  /** Not past the target, not moving away from it, and able to stop there. */
  predicate OnTheWay(a: real, e: Approach) { 0.0 <= e.distance && 0.0 <= e.speed && CanStop(a, e.speed, e.distance) }

  predicate InLimit(limit: Option<real>, vf: real, e: Approach, negative: bool) {
    limit.Some? ==> Abs(vf + Signed(e.speed, negative)) <= limit.value
  }

  /** There is some way to go, and a full step's worth of speed unless there is no need to brake. */
  predicate SpeedLeft(limit: Option<real>, a: real, vf: real, dt: real, e: Approach, negative: bool)
    requires 0.0 < a
  {
    0.0 < e.distance &&
    (a * dt <= e.speed || (InLimit(limit, vf, e, negative) && !MustSwitch(a, e.speed, e.distance, dt)))
  }

  lemma SignedTogether(x: real, y: real, negative: bool)
    requires 0.0 <= x && 0.0 <= y
    ensures 0.0 <= Signed(x, negative) * Signed(y, negative)
  {
    assert 0.0 <= x * y;
    if negative {
      assert (-x) * (-y) == x * y;
    }
  }

  /** With no need to brake there is room behind the stopping distance. */
  lemma SpareRoom(a: real, u: real, distance: real, dt: real)
    requires 0.0 < a && 0.0 < dt && 0.0 <= u && CanStop(a, u, distance) && !MustSwitch(a, u, distance, dt)
    ensures u * u * (1.0 / (2.0 * a)) < distance
  {
    Reciprocal(distance, u * u, a);
    if u * u == 2.0 * a * distance {
      StoppingDistanceSwitches(a, u, distance, dt);
    }
  }

  lemma UnhurriedBranch(limit: Option<real>, a: real, v0: real, vf: real, dx: real, dt: real)
    requires 0.0 < a && dx != 0.0 && (limit.Some? ==> Abs(v0) <= limit.value) && (v0 - vf) * dx >= 0.0
    requires (v0 - vf) * (v0 - vf) * (1.0 / (2.0 * a)) < Abs(dx) && !MustSwitch(a, v0 - vf, Abs(dx), dt)
    ensures Signed(Acceleration(limit, a, v0, vf, dx, dt), dx < 0.0) in {a, 0.0}
  {
  }

  lemma UnhurriedChoice(limit: Option<real>, a: real, v0: real, vf: real, dx: real, dt: real)
    requires 0.0 < a && 0.0 < dt && dx != 0.0 && (limit.Some? ==> Abs(v0) <= limit.value) && (v0 - vf) * dx >= 0.0
    requires CanStop(a, Abs(v0 - vf), Abs(dx)) && !MustSwitch(a, Abs(v0 - vf), Abs(dx), dt)
    ensures Signed(Acceleration(limit, a, v0, vf, dx, dt), dx < 0.0) in {a, 0.0}
  {
    SpareRoom(a, Abs(v0 - vf), Abs(dx), dt);
    SquareOfAbs(v0 - vf);
    AbsSwitches(a, v0 - vf, Abs(dx), dt);
    UnhurriedBranch(limit, a, v0, vf, dx, dt);
  }

  lemma SquareOfAbs(w: real)
    ensures Abs(w) * Abs(w) == w * w
  {
  }

  /** Above the velocity limit the planner brakes as hard as it may, and otherwise it chooses as
      before. */
  predicate WayChoice(limit: Option<real>, a: real, vf: real, dt: real, e: Approach, negative: bool, alpha: real)
    requires 0.0 < a
  {
    if InLimit(limit, vf, e, negative) then
      && (((alpha == a || alpha == 0.0) && !MustSwitch(a, e.speed, e.distance, dt))
          || (0.0 <= -alpha <= a && (-alpha) * (2.0 * e.distance) == e.speed * e.speed))
      && (!MustSwitch(a, e.speed, e.distance, dt) ==> alpha in {a, 0.0})
    else alpha == -a
  }

  lemma WayIsChosen(limit: Option<real>, a: real, vf: real, dt: real, e: Approach, negative: bool, v0: real, dx: real)
    requires 0.0 < a && 0.0 < dt && OnTheWay(a, e) && 0.0 < e.distance && (limit.Some? ==> Abs(vf) <= limit.value)
    requires v0 == vf + Signed(e.speed, negative) && dx == Signed(e.distance, negative)
    ensures WayChoice(limit, a, vf, dt, e, negative, Signed(Acceleration(limit, a, v0, vf, dx, dt), negative))
  {
    if InLimit(limit, vf, e, negative) {
      InTheFrame(e, vf, negative, v0, dx);
      LimitedChoice(limit, a, v0, vf, dx, dt, e.speed, e.distance);
    } else {
      BeyondLimit(limit, a, vf, dt, e, negative, v0, dx);
    }
  }

  lemma InTheFrame(e: Approach, vf: real, negative: bool, v0: real, dx: real)
    requires 0.0 <= e.speed && 0.0 < e.distance
    requires v0 == vf + Signed(e.speed, negative) && dx == Signed(e.distance, negative)
    ensures 0.0 <= (v0 - vf) * dx && dx != 0.0 && (dx < 0.0) == negative
    ensures Abs(v0 - vf) == e.speed && Abs(dx) == e.distance
  {
    SignedTogether(e.speed, e.distance, negative);
    assert v0 - vf == Signed(e.speed, negative);
  }

  lemma BeyondLimit(limit: Option<real>, a: real, vf: real, dt: real, e: Approach, negative: bool, v0: real, dx: real)
    requires 0.0 < a && 0.0 <= e.speed && limit.Some? && Abs(vf) <= limit.value && v0 == vf + Signed(e.speed, negative)
    requires limit.value < Abs(v0)
    ensures Signed(Acceleration(limit, a, v0, vf, dx, dt), negative) == -a
  {
  }

  lemma LimitedChoice(limit: Option<real>, a: real, v0: real, vf: real, dx: real, dt: real, u: real, distance: real)
    requires 0.0 < a && 0.0 < dt && dx != 0.0 && (limit.Some? ==> Abs(v0) <= limit.value) && (v0 - vf) * dx >= 0.0
    requires u == Abs(v0 - vf) && distance == Abs(dx) && CanStop(a, u, distance)
    ensures var alpha := Signed(Acceleration(limit, a, v0, vf, dx, dt), dx < 0.0);
      Choice(a, u, distance, dt, alpha) && (!MustSwitch(a, u, distance, dt) ==> alpha in {a, 0.0})
  {
    SquareOfAbs(v0 - vf);
    ClosingChoice(limit, a, v0, vf, dx, dt);
    if !MustSwitch(a, u, distance, dt) {
      UnhurriedChoice(limit, a, v0, vf, dx, dt);
    }
  }

  /** Full braking keeps the margin. */
  lemma FullBraking(a: real, e: Approach, dt: real)
    requires 0.0 < a && 0.0 < dt && OnTheWay(a, e)
    ensures CanStop(a, NextSpeed(e.speed, -a, dt), NextDistance(e.distance, e.speed, -a, dt))
    ensures 0.0 <= NextDistance(e.distance, e.speed, -a, dt)
  {
    var step := a * dt;
    var u1, d1 := e.speed - step, e.distance - (e.speed + (e.speed - step)) * 0.5 * dt;
    assert (-a) * dt == -step;
    assert 2.0 * a * d1 == 2.0 * a * e.distance - (2.0 * e.speed - step) * step by {
      assert 2.0 * a * ((e.speed + (e.speed - step)) * 0.5 * dt) == (2.0 * e.speed - step) * step;
    }
    assert u1 * u1 == e.speed * e.speed - (2.0 * e.speed - step) * step;
    assert 0.0 <= u1 * u1 <= 2.0 * a * d1;
    Scaled(0.0, d1, 2.0 * a);
  }

  /** The speed that a step of at most full braking leaves. */
  lemma SpeedStays(a: real, u: real, alpha: real, dt: real)
    requires 0.0 < dt && 0.0 <= u && -a <= alpha && (a * dt <= u || 0.0 <= alpha)
    ensures 0.0 <= NextSpeed(u, alpha, dt)
  {
    if 0.0 <= alpha {
      assert 0.0 <= alpha * dt;
    } else {
      assert 0.0 <= (alpha + a) * dt;
    }
  }

  lemma ChosenStaysOnTheWay(limit: Option<real>, a: real, vf: real, dt: real, e: Approach, negative: bool, alpha: real)
    requires 0.0 < a && 0.0 < dt && OnTheWay(a, e) && SpeedLeft(limit, a, vf, dt, e, negative)
    requires WayChoice(limit, a, vf, dt, e, negative, alpha)
    ensures OnTheWay(a, Approach(NextDistance(e.distance, e.speed, alpha, dt), NextSpeed(e.speed, alpha, dt)))
  {
    if InLimit(limit, vf, e, negative) {
      ChoiceIsSafe(a, e.speed, e.distance, dt, alpha);
    } else {
      FullBraking(a, e, dt);
    }
    SpeedStays(a, e.speed, alpha, dt);
  }

  lemma WayMoves(limit: Option<real>, a: real, vf: real, dt: real, e: Approach, negative: bool, acc: real)
    requires 0.0 < a && 0.0 <= e.speed && 0.0 < e.distance
    requires var s := Seen(e, vf, negative); acc == Acceleration(limit, a, s.velocity, vf, s.dx, dt)
    ensures var alpha := Signed(acc, negative);
      FromTarget(PlannerStep(limit, a, vf, dt, Seen(e, vf, negative)), vf, negative) ==
        Approach(NextDistance(e.distance, e.speed, alpha, dt), NextSpeed(e.speed, alpha, dt))
  {
    var s := Seen(e, vf, negative);
    InTargetFrame(s.velocity, vf, s.dx, dt, acc, Signed(acc, negative));
  }

  lemma WayStep(limit: Option<real>, a: real, vf: real, dt: real, e: Approach, negative: bool)
    requires 0.0 < a && 0.0 < dt && OnTheWay(a, e) && (limit.Some? ==> Abs(vf) <= limit.value)
    requires SpeedLeft(limit, a, vf, dt, e, negative)
    ensures OnTheWay(a, FromTarget(PlannerStep(limit, a, vf, dt, Seen(e, vf, negative)), vf, negative))
  {
    var s := Seen(e, vf, negative);
    var acc := Acceleration(limit, a, s.velocity, vf, s.dx, dt);
    WayIsChosen(limit, a, vf, dt, e, negative, s.velocity, s.dx);
    ChosenStaysOnTheWay(limit, a, vf, dt, e, negative, Signed(acc, negative));
    WayMoves(limit, a, vf, dt, e, negative, acc);
  }

  function WayAt(limit: Option<real>, a: real, vf: real, dt: real, e: Approach, negative: bool, n: nat): Approach
    requires 0.0 < a
  {
    FromTarget(PlannerRun(limit, a, vf, dt, Seen(e, vf, negative), n), vf, negative)
  }

  lemma SeenBack(s: Leg, vf: real, negative: bool)
    ensures Seen(FromTarget(s, vf, negative), vf, negative) == s
  {
  }

  /** No overshoot over any number of cycles, through accelerating, cruising and braking: the
      motion stays on its way to the target, able to stop there, at least until a cycle begins
      with less than one step's speed left to brake with, or at the target. */
  lemma {:induction false} StaysOnTheWay(limit: Option<real>, a: real, vf: real, dt: real, e: Approach, negative: bool,
                                         n: nat)
    requires 0.0 < a && 0.0 < dt && OnTheWay(a, e) && (limit.Some? ==> Abs(vf) <= limit.value)
    ensures
      || OnTheWay(a, WayAt(limit, a, vf, dt, e, negative, n))
      || exists k :: 0 <= k < n && OnTheWay(a, WayAt(limit, a, vf, dt, e, negative, k))
                     && !SpeedLeft(limit, a, vf, dt, WayAt(limit, a, vf, dt, e, negative, k), negative)
  {
    if n > 0 {
      StaysOnTheWay(limit, a, vf, dt, e, negative, n - 1);
      var before := WayAt(limit, a, vf, dt, e, negative, n - 1);
      SeenBack(PlannerRun(limit, a, vf, dt, Seen(e, vf, negative), n - 1), vf, negative);
      if OnTheWay(a, before) && SpeedLeft(limit, a, vf, dt, before, negative) {
        WayStep(limit, a, vf, dt, before, negative);
      }
    }
  }

  // ---------------------------------------------------------------------
  // At rest close to the target
  // ---------------------------------------------------------------------

  /** At rest, the planner stays put exactly when one accelerating step would be too much. */
  lemma RestStallsIff(limit: Option<real>, a: real, dx: real, dt: real)
    requires 0.0 < a && 0.0 < dt && dx != 0.0 && (limit.Some? ==> 0.0 < limit.value)
    ensures Acceleration(limit, a, 0.0, 0.0, dx, dt) == 0.0 <==> Abs(dx) < a * dt * dt
  {
    var next := a * dt;
    Reciprocal(Abs(dx) - next * 0.5 * dt, next * next, a);
    assert 2.0 * a * (Abs(dx) - next * 0.5 * dt) == 2.0 * a * Abs(dx) - next * next;
    assert next * next == a * (a * dt * dt);
    if Abs(dx) < a * dt * dt {
      assert 2.0 * a * Abs(dx) < 2.0 * a * (a * dt * dt) by { Scaled(a * dt * dt, Abs(dx), 2.0 * a); }
    } else {
      assert 2.0 * a * (a * dt * dt) <= 2.0 * a * Abs(dx) by { Scaled(a * dt * dt, Abs(dx), 2.0 * a); }
    }
    assert Brake(a, 0.0, Abs(dx)) == 0.0;
  }

  /** There a resting motion is a fixed point that is never reported as done. */
  lemma StallIsForever(m: Motion, limits: Limits, dt: real)
    requires limits.Valid() && limits.accel.Some? && (limits.velocity.Some? ==> 0.0 < limits.velocity.value)
    requires m.position.Some? && m.target.Some? && m.velocity == 0.0 && 0.0 < dt
    requires 0.0 < Abs(m.target.value - m.position.value) < limits.accel.value * dt * dt
    ensures VelocityAndAccel(m, limits, dt, 0.0) == m.(acceleration := 0.0)
  {
    var dx, a := m.target.value - m.position.value, limits.accel.value;
    RestStallsIff(limits.velocity, a, dx, dt);
    RestingIsFixed(m, limits.velocity, a, dx, dt);
    WithoutAcceleration(m, limits, dt, dx);
  }

  lemma WithoutAcceleration(m: Motion, limits: Limits, dt: real, dx: real)
    requires limits.Valid() && limits.accel.Some? && m.position.Some? && m.target.Some? && m.velocity == 0.0
    requires dx == m.target.value - m.position.value
    requires Acceleration(limits.velocity, limits.accel.value, 0.0, 0.0, dx, dt) == 0.0
    ensures VelocityAndAccel(m, limits, dt, 0.0) == Accelerate(m, limits.velocity, limits.accel.value, 0.0, 0.0, dx, dt)
  {
  }

  lemma RestingIsFixed(m: Motion, limit: Option<real>, a: real, dx: real, dt: real)
    requires m.velocity == 0.0 && dx != 0.0 && (limit.Some? ==> 0.0 < limit.value)
    ensures Accelerate(m, limit, a, 0.0, 0.0, dx, dt) == m.(acceleration := 0.0)
  {
    assert 0.0 * dt == 0.0;
    RestingIsNotThere(a, dx, dt);
  }

  lemma RestingIsNotThere(a: real, dx: real, dt: real)
    requires dx != 0.0
    ensures !Arrived(a, 0.0, 0.0, 0.0, dx, dt)
  {
    assert Max(Abs(0.0), Abs(0.0)) * 10.0 * dt == 0.0;
  }
}
