/** The planner as the firmware runs it: methods that update the status in place, each
    equal to its specification in TrajectoryPlanner and PositionCommand. */
module PositionLoop {
  import opened Common
  import opened TrajectoryPlanner
  import opened PositionCommand

  class PositionStatus {
    var position: Option<real>
    var velocity: real
    var acceleration: real
    var done: bool
    var target: Option<real>

    function View(): Motion
      reads this
    {
      Motion(position, velocity, acceleration, done, target)
    }

    constructor ()
      ensures View() == Motion(None, 0.0, 0.0, false, None)
    {
      position, velocity, acceleration, done, target := None, 0.0, 0.0, false, None;
    }

    method DoVelocityModeLimits(limits: Limits, dt: real, commanded: real)
      modifies this
      ensures View() == VelocityMode(old(View()), limits, dt, commanded)
    {
      var goal := commanded;
      if limits.velocity.Some? {
        if goal > limits.velocity.value {
          goal := limits.velocity.value;
        } else if goal < -limits.velocity.value {
          goal := -limits.velocity.value;
        }
      }
      if limits.accel.Some? {
        var initialUp := goal - velocity > 0.0;
        acceleration := if initialUp then limits.accel.value else -limits.accel.value;
        velocity := velocity + acceleration * dt;
        var finalUp := goal > velocity;
        if finalUp != initialUp {
          acceleration, velocity, done := 0.0, goal, true;
        }
      } else {
        acceleration, velocity, done := 0.0, goal, true;
      }
    }

    method DoVelocityOnlyLimit(dx: real, limit: real, goal: real, dt: real)
      modifies this
      ensures View() == VelocityOnly(old(View()), dx, limit, goal, dt)
    {
      acceleration := 0.0;
      velocity := if dx < 0.0 then -limit else limit;
      var nextDx := dx - velocity * dt;
      if (nextDx < 0.0) != (dx < 0.0) {
        target, velocity, done := None, goal, true;
      }
    }

    method DoVelocityAndAccelLimits(limits: Limits, dt: real, goal: real)
      requires limits.Valid() && position.Some? && target.Some?
      requires limits.velocity.Some? || limits.accel.Some?
      modifies this
      ensures View() == VelocityAndAccel(old(View()), limits, dt, goal)
    {
      var dx := target.value - position.value;
      if limits.accel.None? {
        DoVelocityOnlyLimit(dx, limits.velocity.value, goal, dt);
        return;
      }
      var a := limits.accel.value;
      var chosen := Acceleration(limits.velocity, a, velocity, goal, dx, dt);
      DoAccelerate(limits.velocity, a, chosen, goal, dx, dt);
    }

    /** The part of the method after the acceleration has been chosen. */
    method DoAccelerate(limit: Option<real>, a: real, chosen: real, goal: real, dx: real, dt: real)
      modifies this
      ensures View() == Accelerate(old(View()), limit, a, chosen, goal, dx, dt)
    {
      DoAdvance(limit, a, chosen, velocity + chosen * dt, goal, dx, dt);
    }

    method DoAdvance(limit: Option<real>, a: real, chosen: real, v1: real, goal: real, dx: real, dt: real)
      modifies this
      ensures View() == Advance(old(View()), limit, a, chosen, v1, goal, dx, dt)
    {
      var v0 := velocity;
      acceleration, velocity := chosen, v1;
      if PassesLimit(limit, v0, v1) {
        acceleration := 0.0;
        velocity := Signed(limit.value, v1 < 0.0);
      }
      if Arrived(a, v0, velocity, goal, dx, dt) {
        target, acceleration, velocity, done := None, 0.0, goal, true;
      }
    }

    method DoUpdateTrajectory(limits: Limits, dt: real, commanded: real)
      requires limits.Valid() && position.Some?
      requires limits.velocity.Some? || limits.accel.Some?
      modifies this
      ensures View() == UpdateTrajectory(old(View()), limits, dt, commanded)
    {
      var goal := ClampVelocity(limits.velocity, commanded);
      if target.None? {
        DoVelocityModeLimits(limits, dt, goal);
      } else {
        DoVelocityAndAccelLimits(limits, dt, goal);
      }
    }

    method DoBegin(limits: Limits, env: Env, goal: real)
      modifies this
      ensures View() == Begin(old(View()), limits, env, goal)
    {
      if limits.velocity.None? && limits.accel.None? {
        done, acceleration, velocity := true, 0.0, goal;
      } else {
        done := false;
      }
      if target.Some? && limits.velocity.None? && limits.accel.None? {
        position, target, acceleration, velocity := target, None, 0.0, goal;
      } else if position.None? {
        position := Some(env.position);
        acceleration := 0.0;
        velocity := if Abs(env.velocityFilt) < env.zeroCapture then 0.0 else env.velocityFilt;
      }
    }

    method DoLimitSlip(env: Env)
      requires position.Some?
      modifies this
      ensures View() == LimitSlip(old(View()), env)
    {
      if env.maxPositionSlip.Some? && !env.syntheticTheta {
        var slip, error := env.maxPositionSlip.value, env.position - position.value;
        if error < -slip { position := Some(env.position + slip); }
        if error > slip { position := Some(env.position - slip); }
      }
      if env.maxVelocitySlip.Some? && !env.syntheticTheta {
        var slip, error := env.maxVelocitySlip.value, env.velocity - velocity;
        if error < -slip { acceleration, velocity := 0.0, env.velocity + slip; }
        if error > slip { acceleration, velocity := 0.0, env.velocity - slip; }
      }
    }

    method DoFinish(env: Env, command: real) returns (result: real, halted: bool)
      requires position.Some?
      modifies this
      ensures Outcome(View(), result, halted) == Finish(old(View()), env, command)
    {
      var hitLimit := false;
      result, halted := command, false;
      if !env.ignoreBounds {
        if env.positionMin.Some? && position.value < env.positionMin.value {
          position, hitLimit := env.positionMin, true;
        }
        if env.positionMax.Some? && position.value > env.positionMax.value {
          position, hitLimit := env.positionMax, true;
        }
      }
      if env.stopPosition.Some? && MovesAway(position.value, env.stopPosition.value, command) {
        position, acceleration, velocity, done, target := env.stopPosition, 0.0, 0.0, true, None;
        hitLimit, halted := true, true;
      }
      if hitLimit {
        result, acceleration, velocity := 0.0, 0.0, 0.0;
      }
    }

    method DoUpdateCommand(limits: Limits, env: Env, dt: real, commanded: Option<real>)
      returns (command: real, halted: bool)
      requires limits.Valid()
      modifies this
      ensures Outcome(View(), command, halted) == UpdateCommand(old(View()), limits, env, dt, commanded)
    {
      var goal := if commanded.None? then 0.0 else commanded.value;
      DoBegin(limits, env, goal);
      ghost var started := View();
      var v0 := velocity;
      if !done {
        DoUpdateTrajectory(limits, dt, goal);
      }
      ghost var planned := View();
      assert planned == Plan(started, limits, dt, goal);
      command, halted := DoComplete(env, dt, goal, v0, started);
    }

    method DoComplete(env: Env, dt: real, goal: real, v0: real, ghost started: Motion)
      returns (command: real, halted: bool)
      requires position.Some? && v0 == started.velocity
      modifies this
      ensures Outcome(View(), command, halted) == Complete(started, old(View()), env, dt, goal)
    {
      var v1 := velocity;
      if velocity > env.motorMaxVelocity {
        acceleration, velocity := 0.0, env.motorMaxVelocity;
      } else if velocity < -env.motorMaxVelocity {
        acceleration, velocity := 0.0, -env.motorMaxVelocity;
      }
      command := velocity;
      ghost var clamped := View();
      assert clamped == ClampToMotor(old(View()), env.motorMaxVelocity);
      var step := if acceleration != 0.0 then (v0 + v1) * 0.5 * dt else command * dt;
      assert step == if clamped.acceleration != 0.0 then (v0 + v1) * 0.5 * dt else clamped.velocity * dt;
      position := Some(position.value + step);
      if target.Some? {
        target := Some(target.value + goal * dt);
      }
      ghost var integrated := Integrate(clamped, v0, v1, dt, goal);
      assert position.value == integrated.position.value;
      assert velocity == integrated.velocity && acceleration == integrated.acceleration && done == integrated.done;
      assert target == integrated.target;
      assert View() == Integrate(clamped, v0, v1, dt, goal);
      DoLimitSlip(env);
      command, halted := DoFinish(env, command);
    }
  }
}
