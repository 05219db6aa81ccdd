/** What one cycle of each sub-planner leaves, and how the velocity-only planner arrives. */
module PlannerOutcomes {
  import opened Common
  import opened TrajectoryPlanner
  import opened PositionCommand
  import opened CommandOutcomes

  // ---------------------------------------------------------------------
  // Velocity mode
  // ---------------------------------------------------------------------

  /** Without an acceleration limit the velocity is the clamped command at once. */
  lemma GoalAtOnce(m: Motion, limits: Limits, dt: real, velocity: real)
    requires limits.Valid() && limits.accel.None?
    ensures var r := VelocityMode(m, limits, dt, velocity);
      && r.velocity == (if limits.velocity.Some? then Clamped(velocity, -limits.velocity.value, limits.velocity.value) else velocity)
      && r.acceleration == 0.0 && r.done && r.position == m.position && r.target == m.target
  {
  }

  /** With one, it is the velocity nearest to the goal that one step of it reaches; it finishes
      exactly when that is the goal, except that a full step down leaves finishing to the next
      cycle; and until then the acceleration accounts for the change. */
  lemma RampStep(m: Motion, limits: Limits, dt: real, velocity: real, step: real)
    requires limits.Valid() && limits.accel.Some? && 0.0 < dt && step == limits.accel.value * dt
    ensures var goal := if limits.velocity.Some? then Clamped(velocity, -limits.velocity.value, limits.velocity.value) else velocity;
      var r := VelocityMode(m, limits, dt, velocity);
      && r.velocity == Clamped(goal, m.velocity - step, m.velocity + step)
      && (r.done <==> m.done || (r.velocity == goal && goal != m.velocity - step))
      && (if r.velocity == goal && goal != m.velocity - step then r.acceleration == 0.0
          else r.acceleration * dt == r.velocity - m.velocity)
      && r.position == m.position && r.target == m.target
  {
    assert 0.0 < step;
    assert (-limits.accel.value) * dt == -step;
  }

  // ---------------------------------------------------------------------
  // Acceleration limited moves
  // ---------------------------------------------------------------------

  /** The velocity v1 that was asked for, or the limit in its direction when it lies beyond the
      limit on the other side of it than v0. */
  predicate Heads(v2: real, limit: Option<real>, v0: real, v1: real) {
    if limit.Some? && (Abs(v0) < limit.value < Abs(v1) || Abs(v1) < limit.value < Abs(v0))
    then Abs(v2) == limit.value && v2 * v1 >= 0.0
    else v2 == v1
  }

  /** The velocity reaches or passes vf, or comes within half a step of it, and the target is
      within ten cycles of the larger of the closing and the target velocity. */
  predicate ComesIn(a: real, v0: real, v2: real, vf: real, dx: real, dt: real) {
    && ((v0 - vf) * (v2 - vf) <= 0.0 || Abs(v2 - vf) * 2.0 < a * dt)
    && (Abs(dx) <= 10.0 * (Abs(v2 - vf) * dt) || Abs(dx) <= 10.0 * (Abs(vf) * dt))
  }

  /** A cycle with an acceleration limit takes on that velocity, unless it comes in: then it goes
      on with the target's velocity, done, and the target is dropped. */
  lemma AdvanceIs(m: Motion, limit: Option<real>, a: real, acc: real, v1: real, vf: real, dx: real, dt: real)
    returns (v2: real)
    requires 0.0 < dt && (limit.Some? ==> 0.0 <= limit.value)
    ensures Heads(v2, limit, m.velocity, v1)
    ensures Advance(m, limit, a, acc, v1, vf, dx, dt) ==
            if ComesIn(a, m.velocity, v2, vf, dx, dt) then Motion(m.position, vf, 0.0, true, None)
            else Motion(m.position, v2, if v2 == v1 then acc else 0.0, m.done, m.target)
  {
    v2 := if PassesLimit(limit, m.velocity, v1) then Signed(limit.value, v1 < 0.0) else v1;
    HeadingKept(limit, m.velocity, v1, v2);
    ArrivalIs(a, m.velocity, v2, vf, dx, dt);
  }

  lemma HeadingKept(limit: Option<real>, v0: real, v1: real, v2: real)
    requires limit.Some? ==> 0.0 <= limit.value
    requires v2 == if PassesLimit(limit, v0, v1) then Signed(limit.value, v1 < 0.0) else v1
    ensures Heads(v2, limit, v0, v1) && (v2 == v1 <==> !PassesLimit(limit, v0, v1))
  {
    if PassesLimit(limit, v0, v1) {
      SameSign(v1, v2);
    }
  }

  lemma SameSign(x: real, y: real)
    requires (x < 0.0 && y <= 0.0) || (x >= 0.0 && y >= 0.0)
    ensures y * x >= 0.0
  {
  }

  lemma ArrivalIs(a: real, v0: real, v2: real, vf: real, dx: real, dt: real)
    requires 0.0 < dt
    ensures Arrived(a, v0, v2, vf, dx, dt) <==> ComesIn(a, v0, v2, vf, dx, dt)
  {
    OnBothSides(v0, v2, vf);
    MaxOfProducts(Abs(v2 - vf), Abs(vf), dt);
    assert Abs(v2 - vf) < a * 0.5 * dt <==> Abs(v2 - vf) * 2.0 < a * dt;
  }

  lemma OnBothSides(x: real, y: real, z: real)
    ensures (Min(x, y) <= z <= Max(x, y)) <==> (x - z) * (y - z) <= 0.0
  {
    var p, q := x - z, y - z;
    SignOfProduct(p, q);
    assert p * q == (x - z) * (y - z);
  }

  lemma MaxOfProducts(x: real, y: real, dt: real)
    requires 0.0 < dt
    ensures Max(x, y) * 10.0 * dt == Max(10.0 * (x * dt), 10.0 * (y * dt))
  {
    if x >= y {
      assert (x - y) * dt >= 0.0;
    } else {
      assert (y - x) * dt >= 0.0;
    }
  }

  // ---------------------------------------------------------------------
  // Velocity limited moves
  // ---------------------------------------------------------------------

  /** More than one step of size s is left; a target exactly one step ahead counts as far when it
      is in the positive direction. */
  predicate Far(dx: real, s: real) { if dx < 0.0 then s < -dx else s <= dx }

  /** A cycle with a velocity limit alone heads for the target at the limit, and gives the
      target up for its velocity when less than one step is left. */
  lemma HeadsForTarget(m: Motion, dx: real, limit: real, velocity: real, dt: real)
    requires 0.0 <= limit && 0.0 < dt
    ensures VelocityOnly(m, dx, limit, velocity, dt) ==
            if Far(dx, limit * dt) then Motion(m.position, if dx < 0.0 then -limit else limit, 0.0, m.done, m.target)
            else Motion(m.position, velocity, 0.0, true, None)
  {
    assert (-limit) * dt == -(limit * dt);
  }

  /** Position and target set, `dx` left to go, and under way. */
  predicate Remains(m: Motion, target: real, dx: real) {
    m.position.Some? && m.target.Some? && m.target.value == target && target - m.position.value == dx && !m.done
  }

  /** Done at rest, with `dx` left to the target that was given up. */
  predicate GaveUp(m: Motion, target: real, dx: real) {
    m.position.Some? && target - m.position.value == dx && m.velocity == 0.0 && m.acceleration == 0.0 && m.done && m.target.None?
  }

  /** One whole cycle towards a fixed target. */
  lemma StepTowards(m: Motion, limits: Limits, env: Env, dt: real, s: real, target: real, dx: real)
    returns (r: Motion)
    requires limits.velocity.Some? && limits.accel.None? && 0.0 < dt && s == limits.velocity.value * dt
    requires Sensible(env) && Alone(env) && 0.0 < limits.velocity.value <= env.motorMaxVelocity
    requires m.position.Some? && m.target.Some? && m.target.value == target && target - m.position.value == dx
    ensures r == UpdateCommand(m, limits, env, dt, None).motion && 0.0 < s
    ensures if Far(dx, s) then Remains(r, target, if dx < 0.0 then dx + s else dx - s) else GaveUp(r, target, dx)
  {
    var start, plan, moved, slipped := CycleIs(m, limits, env, dt, None);
    HeadsForTarget(start, dx, limits.velocity.value, 0.0, dt);
    r := UpdateCommand(m, limits, env, dt, None).motion;
    StepEnds(UpdateCommand(m, limits, env, dt, None), start, plan, moved, slipped, env, limits.velocity.value, dt, s, target, dx);
  }

  lemma StepEnds(r: Outcome, m: Motion, p: Motion, moved: Motion, slipped: Motion, env: Env,
                 limit: real, dt: real, s: real, target: real, dx: real)
    requires Alone(env) && 0.0 < limit <= env.motorMaxVelocity && 0.0 < dt && s == limit * dt
    requires Remains(m, target, dx)
    requires p == if Far(dx, s) then m.(velocity := if dx < 0.0 then -limit else limit, acceleration := 0.0)
                  else Motion(m.position, 0.0, 0.0, true, None)
    requires Moves(moved, m, p, env.motorMaxVelocity, dt, 0.0) && Slips(slipped, moved, env)
    requires Ends(r, slipped, env, Clamped(p.velocity, -env.motorMaxVelocity, env.motorMaxVelocity))
    ensures 0.0 < s
    ensures if Far(dx, s) then Remains(r.motion, target, if dx < 0.0 then dx + s else dx - s) else GaveUp(r.motion, target, dx)
  {
    assert (-limit) * dt == -s;
    assert 0.0 * dt == 0.0;
  }

  /** n cycles, each continuing the motion the last one left. */
  function Cycles(m: Motion, limits: Limits, env: Env, dt: real, commanded: Option<real>, n: nat): Motion
    requires limits.Valid()
    decreases n
  {
    if n == 0 then m else Cycles(UpdateCommand(m, limits, env, dt, commanded).motion, limits, env, dt, commanded, n - 1)
  }

  /** n steps of size s. */
  function Steps(n: nat, s: real): real { if n == 0 then 0.0 else Steps(n - 1, s) + s }

  lemma {:induction false} StepsAreMultiples(n: nat, s: real)
    ensures Steps(n, s) == n as real * s
  {
    if n > 0 {
      StepsAreMultiples(n - 1, s);
      assert n as real * s == (n - 1) as real * s + s;
    }
  }

  /** dx is n whole steps and a remainder, as the planner counts them. */
  predicate Whole(dx: real, s: real, n: nat) {
    if dx < 0.0 then Steps(n, s) < -dx <= Steps(n, s) + s else Steps(n, s) <= dx < Steps(n, s) + s
  }

  /** Every distance is some number of whole steps and a remainder. */
  lemma CountWhole(dx: real, s: real) returns (n: nat)
    requires 0.0 < s
    ensures Whole(dx, s, n)
  {
    var f := (dx / s).Floor;
    FloorBrackets(dx, s, f);
    if dx < 0.0 {
      n := -f - 1;
      assert (n as real) * s == -(f as real * s) - s;
    } else {
      n := f;
    }
    StepsAreMultiples(n, s);
  }

  lemma FloorBrackets(dx: real, s: real, f: int)
    requires 0.0 < s && f == (dx / s).Floor
    ensures f as real * s <= dx < f as real * s + s
    ensures if dx < 0.0 then f < 0 else 0 <= f
  {
    var q := dx / s;
    assert q * s == dx;
    Bracketed(f as real, q, s, dx);
    SignOfQuotient(q, s, dx);
  }

  lemma Bracketed(x: real, q: real, s: real, dx: real)
    requires 0.0 < s && x <= q < x + 1.0 && q * s == dx
    ensures x * s <= dx < x * s + s
  {
    var y := q - x;
    assert x * s + y * s == dx by { Distributes(x, y, s); }
    FractionOf(y, s);
  }

  lemma Distributes(x: real, y: real, s: real)
    ensures (x + y) * s == x * s + y * s
  {
  }

  lemma FractionOf(y: real, s: real)
    requires 0.0 <= y < 1.0 && 0.0 < s
    ensures 0.0 <= y * s < s
  {
    var z := 1.0 - y;
    assert 0.0 < z * s;
    assert y * s + z * s == s by { Distributes(y, z, s); }
  }

  lemma SignOfQuotient(q: real, s: real, dx: real)
    requires 0.0 < s && q * s == dx
    ensures dx < 0.0 <==> q < 0.0
  {
  }

  lemma {:induction false} StepsFit(n: nat, s: real)
    requires 0.0 < s
    ensures 0.0 <= Steps(n, s) && (0 < n ==> s <= Steps(n, s))
  {
    if n > 0 {
      StepsFit(n - 1, s);
    }
  }

  /** A fixed target is closed in by one step a cycle and given up after exactly as many cycles
      as there are whole steps: the position stays there, short of the target by the remainder. */
  lemma {:induction false} ArrivesShort(m: Motion, limits: Limits, env: Env, dt: real, s: real, target: real, dx: real, n: nat)
    requires limits.velocity.Some? && limits.accel.None? && 0.0 < dt && s == limits.velocity.value * dt
    requires Sensible(env) && Alone(env) && 0.0 < limits.velocity.value <= env.motorMaxVelocity
    requires m.position.Some? && m.target.Some? && m.target.value == target && target - m.position.value == dx
    requires Whole(dx, s, n)
    ensures GaveUp(Cycles(m, limits, env, dt, None, n + 1), target, if dx < 0.0 then dx + Steps(n, s) else dx - Steps(n, s))
    decreases n
  {
    var r := StepTowards(m, limits, env, dt, s, target, dx);
    StepsFit(n, s);
    if n == 0 {
      assert Cycles(r, limits, env, dt, None, 0) == r;
    } else {
      ArrivesShort(r, limits, env, dt, s, target, if dx < 0.0 then dx + s else dx - s, n - 1);
    }
  }
}
