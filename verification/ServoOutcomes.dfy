/** What the mode machine promises of every call: which mode an interrupt ends in, which fault it
    reports, what it does to the output stage, and which command the servo obeys over a run. */
module ServoOutcomes {
  import opened Common
  import opened ServoModes

  // ---------------------------------------------------------------------
  // Where an interrupt ends
  // ---------------------------------------------------------------------

  /** A command to drive is taken up at once. */
  predicate Ready(s: Servo) { s.mode == CalibrationComplete || (Armed(s.mode) && s.mode != PositionTimeout) }

  /** The servo is told to drive, and nothing is wrong. */
  predicate Runs(s: Servo, env: Env) { Armed(s.command.mode) && s.mode != Fault && Healthy(env) }

  predicate Bounded(m: Mode) { m == Position || m == StayWithinBounds }

  /** A new bounded mode is asked for outside the bounds, or with bounds that make no sense. */
  predicate Refused(s: Servo, env: Env) {
    Bounded(s.command.mode) && !s.command.ignoreBounds && s.command.mode != s.mode
    && (env.outsideLimits || env.invalidLimits)
  }

  /** The time that counts: the new command's, or what is left of an earlier one's. */
  predicate RunsOut(c: Config, s: Servo) {
    var t := if s.command.timeout == Some(0.0) then s.timeout else s.command.timeout;
    t.Some? && t.value <= c.period
  }

  predicate LastSample(s: Servo) { s.mode == Calibrating && CALIBRATE_COUNT <= s.count + 1 }

  /** Something an interrupt of a servo that is told to drive has to fault for. */
  predicate Faulty(s: Servo, env: Env) {
    !Healthy(env) || (Ready(s) && Refused(s, env)) || (LastSample(s) && !Balanced(Average(Plus(s.sum, env.adc))))
  }

  /** The same interrupt with a control law that does not fault. */
  function Calm(env: Env): Env { env.(law := env.law.(fault := None)) }

  /** The mode the servo was told to be in, unless its time has run out. */
  function ModeAsked(c: Config, s: Servo): Mode {
    if Bounded(s.command.mode) && RunsOut(c, s) then PositionTimeout else s.command.mode
  }

  lemma ObeyEndsIn(s: Servo, env: Env)
    requires Sane(s)
    ensures var o := Obey(s, env);
      && (o.mode == Stopped <==> s.command.mode == Stopped)
      && (Armed(s.command.mode) && Ready(s) && !Refused(s, env) ==> o.mode == s.command.mode)
      && (Armed(s.command.mode) && Ready(s) && Refused(s, env) ==> o.mode == Fault)
      && (Armed(s.command.mode) && s.mode == Stopped ==> o.mode == Enabling)
      && (Armed(s.command.mode) && !Ready(s) && s.mode != Stopped ==> o == s)
      && o.timeout == s.timeout
  {
  }

  lemma CheckEndsIn(o: Servo, env: Env)
    ensures var v := PersistentFaults(o, env);
      && (o.mode == Stopped || o.mode == Fault || Healthy(env) ==> v == o)
      && (o.mode != Stopped && o.mode != Fault && !Healthy(env) ==> v.mode == Fault)
      && v.timeout == o.timeout
  {
  }

  lemma TimeEndsIn(c: Config, s: Servo)
    requires 0.0 < c.period
    ensures var t := CountDown(c, SenseTimeout(s));
      (t.timeout.Some? && t.timeout.value <= 0.0) <==> RunsOut(c, s)
  {
  }

  lemma DecideEndsIn(c: Config, s: Servo, env: Env)
    requires Sane(s) && 0.0 < c.period
    ensures var d := Decide(c, s, env).mode;
      && (d == Stopped <==> s.command.mode == Stopped)
      && (Runs(s, env) && Ready(s) && !Refused(s, env) ==> d == ModeAsked(c, s))
      && (Runs(s, env) && s.mode == Stopped ==> d == Enabling)
      && (Runs(s, env) && !Ready(s) && s.mode != Stopped ==> d == s.mode)
      && (Armed(s.command.mode) && (!Runs(s, env) || (Ready(s) && Refused(s, env))) ==> d == Fault)
  {
    TimersKeepMode(c, s);
    TimeEndsIn(c, s);
    var t := CountDown(c, SenseTimeout(s));
    ObeyEndsIn(t, env);
    CheckEndsIn(Obey(t, env), env);
    WatchdogEndsIn(PersistentFaults(Obey(t, env), env));
  }

  lemma WatchdogEndsIn(v: Servo)
    ensures Watchdog(v).mode ==
      if Bounded(v.mode) && v.timeout.Some? && v.timeout.value <= 0.0 then PositionTimeout else v.mode
  {
  }

  lemma CalmLawEndsIn(c: Config, b: Servo, env: Env)
    ensures RunMode(c, b, Calm(env)).mode ==
      if b.mode != Calibrating || b.count + 1 < CALIBRATE_COUNT then b.mode
      else if Balanced(Average(Plus(b.sum, env.adc))) then CalibrationComplete else Fault
  {
  }

  /** Exactly which mode an interrupt ends in, unless a control law faults: a stop command stops
      from anywhere; a servo that is ready takes up the mode it was told, and loses it to the
      timeout exactly when the time has run out; the others go on as they were; and everything
      else is a fault. */
  lemma IsrEndsIn(c: Config, s: Servo, env: Env)
    requires Sane(s) && 0.0 < c.period
    ensures var n := DoIsr(c, s, Calm(env)).mode;
      && (n == Stopped <==> s.command.mode == Stopped)
      && (Runs(s, env) && Ready(s) && !Refused(s, env) ==> n == ModeAsked(c, s))
      && (n == Enabling <==> Runs(s, env) && (s.mode == Stopped || s.mode == Enabling))
      && (n == Calibrating <==> Runs(s, env) && s.mode == Calibrating && !LastSample(s))
      && (n == CalibrationComplete <==>
           Runs(s, env) && LastSample(s) && Balanced(Average(Plus(s.sum, env.adc))))
      && (Runs(s, env) && s.mode == PositionTimeout ==> n == PositionTimeout)
      && (n == Fault <==> Armed(s.command.mode) && (s.mode == Fault || Faulty(s, env)))
  {
    DecideTakesEdge(c, s, Calm(env));
    DecideEndsIn(c, s, Calm(env));
    BookkeepingKeeps(c, Decide(c, s, Calm(env)));
    CalmLawEndsIn(c, Bookkeeping(c, Decide(c, s, Calm(env))), env);
  }

  // ---------------------------------------------------------------------
  // Which fault is reported
  // ---------------------------------------------------------------------

  /** The fault an interrupt finds in a servo that has none: a refusal first, then the last of
      the hardware's checks that fails, then the calibration. */
  function Cause(s: Servo, env: Env): Errc {
    if Ready(s) && Refused(s, env) then (if env.outsideLimits then StartOutsideLimit else InvalidLimits)
    else if env.overTemperature then OverTemperature
    else if env.underVoltage then UnderVoltage
    else if env.overVoltage then OverVoltage
    else if env.driverFault then MotorDriverFault
    else CalibrationFault
  }

  lemma DecideSays(c: Config, s: Servo, env: Env)
    requires Sane(s) && Armed(s.command.mode)
    ensures var d := Decide(c, s, env);
      && (s.mode != Fault && d.mode == Fault ==> d.fault == Cause(s, env))
      && (s.mode == Fault ==> d.mode == Fault && d.fault == s.fault)
  {
    TimersKeepMode(c, s);
    ObeySays(CountDown(c, SenseTimeout(s)), env);
    CheckSays(Obey(CountDown(c, SenseTimeout(s)), env), env);
  }

  lemma ObeySays(s: Servo, env: Env)
    requires Sane(s) && Armed(s.command.mode)
    ensures var o := Obey(s, env);
      && (s.mode != Fault && o.mode == Fault ==> Ready(s) && Refused(s, env) && o.fault == Cause(s, env))
      && (s.mode == Fault ==> o == s) && (Ready(s) && Refused(s, env) ==> o.mode == Fault)
  {
  }

  lemma CheckSays(o: Servo, env: Env)
    ensures var v := Watchdog(PersistentFaults(o, env));
      && (o.mode == Fault ==> v == o)
      && (o.mode != Fault && v.mode == Fault ==>
           !Healthy(env) && v.fault == (if env.overTemperature then OverTemperature else if env.underVoltage then UnderVoltage
                                        else if env.overVoltage then OverVoltage else MotorDriverFault))
  {
  }

  /** What runs in each mode: the modes that drive current or voltage through a control law. */
  predicate InLaw(m: Mode) {
    m == VoltageDq || m == Current || m == Position || m == ZeroVelocity || m == StayWithinBounds || m == MeasureInductance
  }

  /** A timed-out servo goes on in its configured way. */
  predicate TimedLaw(c: Config, m: Mode) {
    m == PositionTimeout && (c.timeoutMode == Position || c.timeoutMode == ZeroVelocity)
  }

  /** The modes in which the motor coasts down. */
  predicate Coasting(c: Config, m: Mode) {
    m == Stopped || m == Fault
    || (m == PositionTimeout && !(c.timeoutMode == Position || c.timeoutMode == ZeroVelocity || c.timeoutMode == Brake))
  }

  /** How long the output stage stays powered once the motor coasts, as the mode leaves it: in
      full after current control, the braking part after any other torque, and going down while
      coasting. */
  function Cooldown(c: Config, m: Mode, before: nat): nat {
    if m == Current || m == Position || m == ZeroVelocity || m == StayWithinBounds || TimedLaw(c, m) then c.cooldownCycles
    else if Armed(m) && !(m == PositionTimeout && c.timeoutMode == Stopped) then c.cooldownBrake
    else before
  }

  /** A control law runs in this interrupt. */
  predicate LawRuns(c: Config, m: Mode, before: nat) {
    InLaw(m) || TimedLaw(c, m) || (Coasting(c, m) && Cooldown(c, m, before) > c.cooldownBrake)
  }

  lemma LawSays(c: Config, d: Servo, env: Env)
    requires d.mode != NumModes
    ensures var n, law := RunMode(c, Bookkeeping(c, d), Calm(env)), LawRuns(c, d.mode, d.cooldown);
      && (d.mode == Fault ==> n.fault == d.fault)
      && (d.mode != Fault && n.mode == Fault ==> n.fault == CalibrationFault)
      && (d.mode != Fault && n.mode != Fault ==> n.fault == if law then env.law.limit else Success)
      && RunMode(c, Bookkeeping(c, d), env) ==
           (if law && env.law.fault.Some? then n.(mode := Fault, fault := env.law.fault.value) else n)
  {
  }

  /** The calibration is judged in this interrupt. */
  predicate Judges(s: Servo, env: Env) { Runs(s, env) && LastSample(s) }

  /** A control law runs in an interrupt that ends in mode `m` if the law does not fault. */
  predicate Acts(c: Config, s: Servo, env: Env, m: Mode) { !Judges(s, env) && LawRuns(c, m, s.cooldown) }

  /** The stage that is still powered when the law starts. */
  predicate StillPowered(s: Servo) { s.powered && !(s.mode == Stopped && Armed(s.command.mode)) }

  lemma DecideFrame(c: Config, s: Servo, env: Env)
    requires Sane(s)
    ensures var d := Decide(c, s, env);
      && d == Decide(c, s, Calm(env)) && d.cooldown == s.cooldown && d.powered == StillPowered(s)
  {
    ObeyLeaves(CountDown(c, SenseTimeout(s)), env);
  }

  lemma ObeyLeaves(s: Servo, env: Env)
    requires Sane(s)
    ensures var o := Obey(s, env);
      o.cooldown == s.cooldown && o.powered == StillPowered(s) && o == Obey(s, Calm(env))
  {
  }

  lemma DecideJudges(c: Config, s: Servo, env: Env)
    requires Sane(s) && 0.0 < c.period
    ensures var d := Decide(c, s, env);
      d.mode != NumModes && (Judges(s, env) <==> d.mode == Calibrating && CALIBRATE_COUNT <= d.count + 1)
  {
    DecideTakesEdge(c, s, env);
    DecideEndsIn(c, s, env);
  }

  lemma DecidedLawEndsIn(c: Config, d: Servo, env: Env)
    ensures var n := RunMode(c, Bookkeeping(c, d), Calm(env)).mode;
      if d.mode == Calibrating && CALIBRATE_COUNT <= d.count + 1 then n == CalibrationComplete || n == Fault else n == d.mode
  {
    BookkeepingKeeps(c, d);
    CalmLawEndsIn(c, Bookkeeping(c, d), env);
  }

  /** Exactly what an interrupt reports: the cause of a new fault, an earlier fault as it was, the
      limit of the law that ran, or success; and a law that faults turns all that into its own
      fault, and nothing else. */
  lemma IsrSays(c: Config, s: Servo, env: Env)
    requires Sane(s) && 0.0 < c.period
    ensures var n := DoIsr(c, s, Calm(env));
      && (n.mode == Fault ==> n.fault == if s.mode == Fault then s.fault else Cause(s, env))
      && (n.mode != Fault ==> n.fault == if Acts(c, s, env, n.mode) then env.law.limit else Success)
      && DoIsr(c, s, env) == (if Acts(c, s, env, n.mode) && env.law.fault.Some?
                              then n.(mode := Fault, fault := env.law.fault.value) else n)
  {
    var d := Decide(c, s, env);
    DecideFrame(c, s, env);
    DecideJudges(c, s, env);
    DecidedLawEndsIn(c, d, env);
    LawSays(c, d, env);
    ActsAsDecided(c, s, env, d);
    CauseOfFault(c, s, env);
  }

  lemma ActsAsDecided(c: Config, s: Servo, env: Env, d: Servo)
    requires d.cooldown == s.cooldown && (Judges(s, env) <==> d.mode == Calibrating && CALIBRATE_COUNT <= d.count + 1)
    ensures var n := RunMode(c, Bookkeeping(c, d), Calm(env)).mode; Acts(c, s, env, n) == LawRuns(c, d.mode, d.cooldown)
  {
    DecidedLawEndsIn(c, d, env);
  }

  lemma CauseOfFault(c: Config, s: Servo, env: Env)
    requires Sane(s) && 0.0 < c.period
    ensures var d := Decide(c, s, env);
      && (d.mode == Fault ==> d.fault == if s.mode == Fault then s.fault else Cause(s, env))
      && (s.mode == Fault && d.mode != Fault ==> d.mode == Stopped)
      && (d.mode == Calibrating && CALIBRATE_COUNT <= d.count + 1 ==> s.mode != Fault && Cause(s, env) == CalibrationFault)
  {
    DecideTakesEdge(c, s, env);
    DecideJudges(c, s, env);
    if Judges(s, env) {
      JudgedCause(c, s, env);
    }
    if Armed(s.command.mode) {
      DecideSays(c, s, env);
    } else {
      DecideEndsIn(c, s, env);
    }
  }

  lemma JudgedCause(c: Config, s: Servo, env: Env)
    requires Sane(s) && Judges(s, env)
    ensures Cause(s, env) == CalibrationFault
  {
  }

  // ---------------------------------------------------------------------
  // The output stage
  // ---------------------------------------------------------------------

  /** The modes whose output is driven without a control law. */
  predicate Direct(c: Config, m: Mode) {
    m == Pwm || m == Voltage || m == VoltageFoc || m == Brake || (m == PositionTimeout && c.timeoutMode == Brake)
  }

  lemma LawDrives(c: Config, d: Servo, env: Env)
    requires d.mode != NumModes
    ensures var n, level := RunMode(c, Bookkeeping(c, d), Calm(env)), Cooldown(c, d.mode, d.cooldown);
      && n.cooldown == (if Coasting(c, d.mode) && level > 0 then level - 1 else level)
      && n.driver == (if Coasting(c, d.mode) && level == 0 then Disabled else d.driver)
      && n.powered ==
           (if Direct(c, d.mode) then true
            else if LawRuns(c, d.mode, d.cooldown) then env.law.driven || d.powered
            else d.powered && !Coasting(c, d.mode))
  {
  }

  /** Exactly what an interrupt does to the output stage: the cooldown it leaves, and when the
      stage is powered and the driver enabled afterwards. */
  lemma IsrDrives(c: Config, s: Servo, env: Env)
    requires Sane(s) && 0.0 < c.period && !Judges(s, env)
    ensures var n := DoIsr(c, s, Calm(env)); var level := Cooldown(c, n.mode, s.cooldown);
      && n.cooldown == (if Coasting(c, n.mode) && level > 0 then level - 1 else level)
      && n.driver == (if Coasting(c, n.mode) && level == 0 then Disabled else s.driver)
      && n.powered ==
           (if Direct(c, n.mode) then true
            else if LawRuns(c, n.mode, s.cooldown) then env.law.driven || StillPowered(s)
            else StillPowered(s) && !Coasting(c, n.mode))
  {
    var d := Decide(c, s, env);
    DecideFrame(c, s, env);
    DecideKeepsDriver(c, s, env);
    DecideJudges(c, s, env);
    DecidedLawEndsIn(c, d, env);
    LawDrives(c, d, env);
  }

  /** So a servo that drove current and is then told to stop stays powered while more than the
      braking part of its full cooldown is left, and has its driver disabled once none is. */
  lemma StopCoasts(c: Config, s: Servo, env: Env, stop: Command, envs: seq<Env>)
    requires Sane(s) && 0.0 < c.period && env.law.fault.None? && stop.mode == Stopped
    requires var m := DoIsr(c, s, env).mode; m == Current || m == Position || m == ZeroVelocity || m == StayWithinBounds
    ensures var driving := DoIsr(c, s, env);
      var n := Run(c, DoCommand(driving, stop, None), Isrs(envs));
      && (envs != [] ==>
           (n.powered <==> |envs| + c.cooldownBrake <= c.cooldownCycles && (driving.powered || AnyDriven(envs))))
      && n.driver == (if c.cooldownCycles < |envs| then Disabled else s.driver)
  {
    assert Calm(env) == env;
    IsrEndsIn(c, s, env);
    IsrDrives(c, s, env);
    PowerGoesOff(c, DoCommand(DoIsr(c, s, env), stop, None), envs);
  }

  // ---------------------------------------------------------------------
  // The main loop's calls
  // ---------------------------------------------------------------------

  /** What a call of the main loop raises; an earlier fault keeps its code unless a bad command
      comes in. */
  function Raised(s: Servo, e: Event): Option<Errc> {
    match e
    case Isr(_) => None
    case PhaseMonitor(high) => if high && s.mode != Fault then Some(PwmCycleOverrun) else None
    case Poll(result) => if s.mode == Enabling && result == CalibrateFailed then Some(DriverEnableFault) else None
    case Commanded(command, error) => if command.mode == Stopped || Armed(command.mode) then error else None
    case FaultRequest(code) => if s.mode != Fault then Some(code) else None
  }

  /** Exactly what the main loop changes: the mode to a fault with its code when one is raised,
      from enabling to calibrating when the driver reports itself enabled, and not at all
      otherwise; the command when it is one that can be obeyed; and nothing of the timeout, the
      cooldown, the calibration and the output stage. */
  lemma MainLoopDoes(c: Config, s: Servo, e: Event)
    requires Legal(e) && !e.Isr?
    ensures var n := Step(c, s, e); var calibrates := s.mode == Enabling && e == Poll(Enabled);
      && n.mode == (if Raised(s, e).Some? then Fault else if calibrates then Calibrating else s.mode)
      && n.fault == (if Raised(s, e).Some? then Raised(s, e).value else s.fault)
      && n.command == (if e.Commanded? && (e.command.mode == Stopped || Armed(e.command.mode)) then e.command else s.command)
      && n.driver == (if e.Poll? && s.mode == Enabling then e.result else s.driver)
      && n.timeout == s.timeout && n.cooldown == s.cooldown && n.powered == s.powered && SameCalibration(s, n)
  {
  }

  // ---------------------------------------------------------------------
  // Which command is obeyed
  // ---------------------------------------------------------------------

  /** The latest command that can be obeyed, from the events alone. */
  function Latest(es: seq<Event>): Command {
    if es == [] then Command(Stopped, Some(0.0), false)
    else
      var e := es[|es| - 1];
      if e.Commanded? && (e.command.mode == Stopped || Armed(e.command.mode)) then e.command else Latest(es[..|es| - 1])
  }

  /** The mode of the latest command at the last interrupt. */
  function LastObeyed(es: seq<Event>): Mode {
    if es == [] then Stopped
    else if es[|es| - 1].Isr? then Latest(es[..|es| - 1]).mode
    else LastObeyed(es[..|es| - 1])
  }

  predicate Obeys(s: Servo, latest: Command, obeyed: Mode) {
    && s.command.mode == latest.mode && s.command.ignoreBounds == latest.ignoreBounds
    && (Armed(s.mode) && s.mode != PositionTimeout ==> s.mode == obeyed)
  }

  lemma IsrObeys(c: Config, s: Servo, env: Env)
    requires Sane(s) && 0.0 < c.period
    ensures var n := DoIsr(c, s, env);
      && n.command.mode == s.command.mode && n.command.ignoreBounds == s.command.ignoreBounds
      && (Armed(n.mode) && n.mode != PositionTimeout ==> n.mode == s.command.mode)
  {
    IsrEndsIn(c, s, env);
    IsrSays(c, s, env);
    CommandStays(c, s, env);
  }

  lemma CommandStays(c: Config, s: Servo, env: Env)
    requires Sane(s)
    ensures var n := DoIsr(c, s, env).command; n.mode == s.command.mode && n.ignoreBounds == s.command.ignoreBounds
  {
    var t := CountDown(c, SenseTimeout(s));
    var d := Decide(c, s, env);
    assert Obey(t, env).command == t.command && d.command == t.command;
    BookkeepingKeeps(c, d);
    LawKeepsCommand(c, Bookkeeping(c, d), env);
  }

  lemma LawKeepsCommand(c: Config, b: Servo, env: Env)
    ensures RunMode(c, b, env).command == b.command
  {
  }

  /** Over every interleaving from power-on: the command in force is the latest that could be
      obeyed, and an armed servo that has not timed out is in the mode of the command that was
      the latest at the last interrupt. */
  lemma {:induction false} ArmedIsObeyed(c: Config, es: seq<Event>)
    requires 0.0 < c.period && forall e :: e in es ==> Legal(e)
    ensures Obeys(Run(c, PowerOn(), es), Latest(es), LastObeyed(es)) && Sane(Run(c, PowerOn(), es))
  {
    if es != [] {
      var n := |es| - 1;
      ArmedIsObeyed(c, es[..n]);
      var s := Run(c, PowerOn(), es[..n]);
      StepTakesEdge(c, s, es[n]);
      if es[n].Isr? {
        IsrObeys(c, s, es[n].env);
      } else {
        MainLoopDoes(c, s, es[n]);
      }
    }
  }

  // ---------------------------------------------------------------------
  // A command's timeout
  // ---------------------------------------------------------------------

  /** The first interrupt after a bounded command takes up its mode and its time. */
  lemma FirstCycle(c: Config, s: Servo, env: Env, command: Command)
    requires Sane(s) && Ready(s) && 0.0 < c.period && Quiet(env) && Bounded(command.mode)
    requires command.ignoreBounds || command.mode == s.mode || (!env.outsideLimits && !env.invalidLimits)
    requires command.timeout.Some? && c.period < command.timeout.value
    ensures var n := DoIsr(c, s.(command := command), env);
      Holding(n, command.mode) && n.timeout == Some(command.timeout.value - c.period) && Sane(n)
  {
    var told := s.(command := command);
    assert Calm(env) == env;
    IsrEndsIn(c, told, env);
    TimeIsTaken(c, told, env);
    IsrTakesEdge(c, told, env);
  }

  lemma TimeIsTaken(c: Config, s: Servo, env: Env)
    requires Sane(s) && 0.0 < c.period && s.command.timeout.Some? && c.period < s.command.timeout.value
    ensures var n := DoIsr(c, s, env);
      n.timeout == Some(s.command.timeout.value - c.period) && n.command == s.command.(timeout := Some(0.0))
  {
    var t := CountDown(c, SenseTimeout(s));
    var d := Decide(c, s, env);
    assert Obey(t, env).timeout == t.timeout && Obey(t, env).command == t.command;
    assert d.timeout == t.timeout && d.command == t.command;
    LawKeepsTime(c, Bookkeeping(c, d), env);
  }

  lemma LawKeepsTime(c: Config, b: Servo, env: Env)
    ensures RunMode(c, b, env).timeout == b.timeout && RunMode(c, b, env).command == b.command
  {
  }

  lemma {:induction false} StaysTimedOut(c: Config, s: Servo, envs: seq<Env>)
    requires 0.0 < c.period && s.mode == PositionTimeout && Armed(s.command.mode) && s.command.timeout == Some(0.0)
    requires forall e :: e in envs ==> Quiet(e)
    ensures Cycles(c, s, envs).mode == PositionTimeout && Cycles(c, s, envs).command == s.command
  {
    if envs != [] {
      var k := |envs| - 1;
      StaysTimedOut(c, s, envs[..k]);
      TimeoutStays(c, Cycles(c, s, envs[..k]), envs[k]);
    }
  }

  /** A bounded command with a timeout, and nothing after it: the servo is in its mode from the
      next interrupt on, for exactly the cycles that the timeout covers, and timed out after. */
  lemma CommandTimesOut(c: Config, s: Servo, env: Env, command: Command, envs: seq<Env>)
    requires Sane(s) && Ready(s) && 0.0 < c.period && Quiet(env) && Bounded(command.mode)
    requires command.ignoreBounds || command.mode == s.mode || (!env.outsideLimits && !env.invalidLimits)
    requires command.timeout.Some? && 0.0 < command.timeout.value && forall e :: e in envs ==> Quiet(e)
    ensures Run(c, DoIsr(c, DoCommand(s, command, None), env), Isrs(envs)).mode ==
      if Seconds(|envs|, c.period) + c.period < command.timeout.value then command.mode else PositionTimeout
  {
    var told := DoCommand(s, command, None);
    var n := DoIsr(c, told, env);
    if c.period < command.timeout.value {
      FirstCycle(c, s, env, command);
      WatchdogFiresOnTime(c, n, command.mode, envs);
    } else {
      ShortCommandTimesOut(c, told, env, envs);
      SecondsAreNotNegative(|envs|, c.period, Seconds(|envs|, c.period));
    }
  }

  /** A timeout of at most one cycle has run out before the mode is taken up. */
  lemma ShortCommandTimesOut(c: Config, told: Servo, env: Env, envs: seq<Env>)
    requires Sane(told) && Ready(told) && 0.0 < c.period && Quiet(env) && Bounded(told.command.mode) && !Refused(told, env)
    requires told.command.timeout.Some? && 0.0 < told.command.timeout.value <= c.period && forall e :: e in envs ==> Quiet(e)
    ensures Run(c, DoIsr(c, told, env), Isrs(envs)).mode == PositionTimeout
  {
    var n := DoIsr(c, told, env);
    assert Calm(env) == env;
    IsrEndsIn(c, told, env);
    ShortTimeIsTaken(c, told, env);
    CyclesAreARun(c, n, envs);
    StaysTimedOut(c, n, envs);
  }

  lemma SecondsAreNotNegative(cycles: nat, period: real, seconds: real)
    requires 0.0 < period && seconds == Seconds(cycles, period)
    ensures 0.0 <= seconds
  {
    assert 0.0 <= cycles as real;
  }

  lemma ShortTimeIsTaken(c: Config, s: Servo, env: Env)
    requires Sane(s) && s.command.timeout != Some(0.0)
    ensures DoIsr(c, s, env).command == s.command.(timeout := Some(0.0))
  {
    var t := CountDown(c, SenseTimeout(s));
    var d := Decide(c, s, env);
    assert Obey(t, env).command == t.command && d.command == t.command;
    LawKeepsTime(c, Bookkeeping(c, d), env);
  }

  // ---------------------------------------------------------------------
  // Starting up
  // ---------------------------------------------------------------------

  function Adcs(envs: seq<Env>): seq<Adc> { seq(|envs|, i requires 0 <= i < |envs| => envs[i].adc) }

  /** Where a calibration stands after so many samples. */
  predicate Sampling(s: Servo, n: Servo, samples: seq<Adc>) {
    && Sane(n) && n.command.mode == s.command.mode && n.mode == Calibrating && n.count == |samples|
    && n.sum == Total(samples)
  }

  lemma SampleTaken(c: Config, s: Servo, n: Servo, samples: seq<Adc>, env: Env)
    requires 0.0 < c.period && Sampling(s, n, samples) && Armed(s.command.mode) && Healthy(env)
    requires |samples| + 1 < CALIBRATE_COUNT
    ensures Sampling(s, DoIsr(c, n, env), samples + [env.adc])
  {
    IsrEndsIn(c, n, env);
    IsrSays(c, n, env);
    CommandStays(c, n, env);
    IsrTakesEdge(c, n, Calm(env));
    SampleAdds(c, n, env);
    TotalAppend(samples, env.adc);
  }

  lemma SampleAdds(c: Config, n: Servo, env: Env)
    requires Sane(n) && 0.0 < c.period && n.mode == Calibrating && Armed(n.command.mode) && Healthy(env)
    ensures var r := DoIsr(c, n, env);
      r.sum == Plus(n.sum, env.adc) && r.count == n.count + 1
      && (CALIBRATE_COUNT <= n.count + 1 && Balanced(Average(Plus(n.sum, env.adc))) ==> r.offset == Average(Plus(n.sum, env.adc)))
  {
    DecideTakesEdge(c, n, env);
    DecideEndsIn(c, n, env);
    BookkeepingKeeps(c, Decide(c, n, env));
  }

  lemma {:induction false} SamplesTaken(c: Config, s: Servo, envs: seq<Env>)
    requires 0.0 < c.period && Sampling(s, s, []) && Armed(s.command.mode) && |envs| < CALIBRATE_COUNT
    requires forall e :: e in envs ==> Healthy(e)
    ensures Sampling(s, Cycles(c, s, envs), Adcs(envs))
  {
    if envs == [] {
      assert Adcs(envs) == [];
    } else {
      var k := |envs| - 1;
      SamplesTaken(c, s, envs[..k]);
      AdcsLast(envs);
      SampleNext(c, s, Cycles(c, s, envs[..k]), Adcs(envs[..k]), envs[k], Cycles(c, s, envs), Adcs(envs));
    }
  }

  lemma AdcsLast(envs: seq<Env>)
    requires envs != []
    ensures Adcs(envs) == Adcs(envs[..|envs| - 1]) + [envs[|envs| - 1].adc]
  {
  }

  lemma SampleNext(c: Config, s: Servo, n: Servo, samples: seq<Adc>, env: Env, after: Servo, more: seq<Adc>)
    requires 0.0 < c.period && Sampling(s, n, samples) && Armed(s.command.mode) && Healthy(env)
    requires |samples| + 1 < CALIBRATE_COUNT && after == DoIsr(c, n, env) && more == samples + [env.adc]
    ensures Sampling(s, after, more)
  {
    SampleTaken(c, s, n, samples, env);
  }

  /** From Stopped with a command to drive, a driver that reports itself enabled and 256 healthy
      interrupts: the servo is calibrated with the averages as its offsets when they are
      balanced, and faults over the calibration when they are not. The next interrupt arms it
      in the mode that was asked for. */
  lemma StartsUp(c: Config, s: Servo, first: Env, envs: seq<Env>, last: Env)
    requires Sane(s) && s.mode == Stopped && Armed(s.command.mode) && 0.0 < c.period
    requires Healthy(first) && |envs| == CALIBRATE_COUNT && (forall e :: e in envs ==> Healthy(e)) && Healthy(last)
    ensures var n := Run(c, Step(c, Step(c, s, Isr(first)), Poll(Enabled)), Isrs(envs));
      var average := Average(Total(Adcs(envs)));
      && (Balanced(average) ==> n.mode == CalibrationComplete && n.offset == average)
      && (!Balanced(average) ==> n.mode == Fault && n.fault == CalibrationFault)
      && (Balanced(average) && !Refused(n, last) ==> DoIsr(c, n, Calm(last)).mode == ModeAsked(c, n))
  {
    var on := Step(c, Step(c, s, Isr(first)), Poll(Enabled));
    Enables(c, s, first);
    var k := |envs| - 1;
    SamplesTaken(c, on, envs[..k]);
    var before := Cycles(c, on, envs[..k]);
    JudgesLast(c, before, Adcs(envs[..k]), envs[k]);
    AdcsLast(envs);
    CyclesAreARun(c, on, envs);
    var n := Run(c, on, Isrs(envs));
    if Balanced(Average(Total(Adcs(envs)))) {
      IsrEndsIn(c, n, last);
    }
  }

  lemma Enables(c: Config, s: Servo, first: Env)
    requires Sane(s) && s.mode == Stopped && Armed(s.command.mode) && 0.0 < c.period && Healthy(first)
    ensures var on := Step(c, Step(c, s, Isr(first)), Poll(Enabled)); Sampling(on, on, []) && Armed(on.command.mode)
  {
    IsrEndsIn(c, s, first);
    IsrSays(c, s, first);
    CommandStays(c, s, first);
    DecideTakesEdge(c, s, first);
    DecideEndsIn(c, s, first);
    BookkeepingKeeps(c, Decide(c, s, first));
    assert DoIsr(c, s, first) == Bookkeeping(c, Decide(c, s, first));
  }

  lemma JudgesLast(c: Config, s: Servo, samples: seq<Adc>, env: Env)
    requires 0.0 < c.period && Sampling(s, s, samples) && Armed(s.command.mode) && Healthy(env)
    requires |samples| + 1 == CALIBRATE_COUNT
    ensures var n, average := DoIsr(c, s, env), Average(Total(samples + [env.adc]));
      && Sane(n) && n.command.mode == s.command.mode
      && (if Balanced(average) then n.mode == CalibrationComplete && n.offset == average
          else n.mode == Fault && n.fault == CalibrationFault)
  {
    IsrEndsIn(c, s, env);
    IsrSays(c, s, env);
    CommandStays(c, s, env);
    IsrTakesEdge(c, s, Calm(env));
    SampleAdds(c, s, env);
    TotalAppend(samples, env.adc);
    JudgedCause(c, s, env);
  }

  // ---------------------------------------------------------------------
  // Offsets and power-on
  // ---------------------------------------------------------------------

  predicate NearMid(x: nat) { -200 <= x as int - 2048 <= 200 }

  predicate OffsetsNearMid(x: Adc) { NearMid(x.a) && NearMid(x.b) && NearMid(x.c) }

  /** A calibration is accepted if and only if every average is within 200 counts of mid-scale. */
  lemma AcceptedIff(c: Config, s: Servo, samples: seq<Adc>, env: Env)
    requires 0.0 < c.period && Sampling(s, s, samples) && Armed(s.command.mode) && Healthy(env)
    requires |samples| + 1 == CALIBRATE_COUNT
    ensures DoIsr(c, s, env).mode == CalibrationComplete <==> OffsetsNearMid(Average(Total(samples + [env.adc])))
    ensures DoIsr(c, s, env).mode != CalibrationComplete ==> DoIsr(c, s, env).fault == CalibrationFault
  {
    JudgesLast(c, s, samples, env);
  }

  /** Whatever happens, the offsets that currents are measured with stay that near. */
  lemma {:induction false} OffsetsStayNear(c: Config, es: seq<Event>)
    requires forall i :: 0 <= i < |es| ==> Legal(es[i])
    ensures OffsetsNearMid(Run(c, PowerOn(), es).offset)
  {
    if es != [] {
      var n := |es| - 1;
      OffsetsStayNear(c, es[..n]);
      StepKeepsOffsets(c, Run(c, PowerOn(), es[..n]), es[n]);
    }
  }

  lemma StepKeepsOffsets(c: Config, s: Servo, e: Event)
    requires OffsetsNearMid(s.offset)
    ensures OffsetsNearMid(Step(c, s, e).offset)
  {
    if e.Isr? {
      DecideKeepsOffset(c, s, e.env);
      RunKeepsOffsets(c, Bookkeeping(c, Decide(c, s, e.env)), e.env);
    }
  }

  lemma DecideKeepsOffset(c: Config, s: Servo, env: Env)
    ensures Bookkeeping(c, Decide(c, s, env)).offset == s.offset
  {
    var t := CountDown(c, SenseTimeout(s));
    ObeyKeepsOffset(t, env);
    WatchKeepsOffset(Obey(t, env), env);
  }

  lemma ObeyKeepsOffset(s: Servo, env: Env)
    ensures Obey(s, env).offset == s.offset
  {
  }

  lemma WatchKeepsOffset(s: Servo, env: Env)
    ensures Watchdog(PersistentFaults(s, env)).offset == s.offset
  {
  }

  lemma RunKeepsOffsets(c: Config, s: Servo, env: Env)
    requires OffsetsNearMid(s.offset)
    ensures OffsetsNearMid(RunMode(c, s, env).offset)
  {
  }

  /** After power-on nothing drives the motor until a command does: any number of interrupts leave
      the stage unpowered, the driver disabled and no fault reported. */
  lemma {:induction false} RestsAfterPowerOn(c: Config, envs: seq<Env>)
    ensures Cycles(c, PowerOn(), envs) == PowerOn()
    ensures var s := PowerOn(); s.mode == Stopped && s.fault == Success && !s.powered && s.driver == Disabled
    decreases |envs|
  {
    if envs != [] {
      var n := |envs| - 1;
      RestsAfterPowerOn(c, envs[..n]);
      RestsOnce(c, envs[n]);
    }
  }

  lemma RestsOnce(c: Config, env: Env)
    ensures DoIsr(c, PowerOn(), env) == PowerOn()
  {
  }
}
