/** The servo's mode machine: what each interrupt and each main-loop call does to the mode.

    Every interrupt and every main-loop call is one atomic step. The hardware, the operator
    and the control laws are inputs of the steps. */
module ServoModes {
  import opened Common

  datatype Mode =
    | Stopped | Fault | Enabling | Calibrating | CalibrationComplete
    | Pwm | Voltage | VoltageFoc | VoltageDq | Current | Position | PositionTimeout
    | ZeroVelocity | StayWithinBounds | MeasureInductance | Brake
    | NumModes

  datatype Errc =
    | Success | CalibrationFault | MotorDriverFault | OverVoltage | UnderVoltage | OverTemperature
    | StartOutsideLimit | InvalidLimits | DriverEnableFault | PwmCycleOverrun | Other(code: nat)

  datatype EnableResult = Disabled | Enabled | Enabling1 | Enabling2 | Enabling3 | CalibrateFailed

  datatype Adc = Adc(a: nat, b: nat, c: nat)

  /** What the main loop asks for; `timeout` None is the firmware's NaN. */
  datatype Command = Command(mode: Mode, timeout: Option<real>, ignoreBounds: bool)

  /** Outcome of a control law: whether it faulted, its limit code, whether it drove the phases. */
  datatype Law = Law(fault: Option<Errc>, limit: Errc, driven: bool)

  /** What one control interrupt sees. */
  datatype Env = Env(
    driverFault: bool,
    overVoltage: bool,
    underVoltage: bool,
    overTemperature: bool,
    outsideLimits: bool,
    invalidLimits: bool,
    adc: Adc,
    law: Law)

  datatype Config = Config(period: real, timeoutMode: Mode, cooldownCycles: nat, cooldownBrake: nat)

  datatype Servo = Servo(
    mode: Mode,
    fault: Errc,
    command: Command,
    timeout: Option<real>,
    cooldown: nat,
    powered: bool,       // output stage
    driver: EnableResult, // what the gate driver last reported
    sum: Adc,            // calibrate_adc1_..3_
    count: nat,          // calibrate_count_
    offset: Adc)

  datatype Event =
    | Isr(env: Env)
    | PhaseMonitor(high: bool)
    | Poll(result: EnableResult)
    | Commanded(command: Command, error: Option<Errc>)
    | FaultRequest(code: Errc)

  const CALIBRATE_COUNT: nat := 256

  const MID_SCALE := Adc(2048, 2048, 2048)

  // ---------------------------------------------------------------------
  // Mode classes
  // ---------------------------------------------------------------------

  /** The modes that drive the motor: kPwm to kBrake. */
  predicate Armed(m: Mode) {
    m.Pwm? || m.Voltage? || m.VoltageFoc? || m.VoltageDq? || m.Current? || m.Position? || m.PositionTimeout?
    || m.ZeroVelocity? || m.StayWithinBounds? || m.MeasureInductance? || m.Brake?
  }

  predicate Commandable(m: Mode) { m == Stopped || Armed(m) }

  predicate CurrentControl(c: Config, m: Mode) {
    m.Current? || m.Position? || m.ZeroVelocity? || m.StayWithinBounds?
    || (m.PositionTimeout? && (c.timeoutMode == ZeroVelocity || c.timeoutMode == Position))
  }

  predicate TorqueOn(c: Config, m: Mode) { if m.PositionTimeout? then c.timeoutMode != Stopped else Armed(m) }

  // ---------------------------------------------------------------------
  // Steps
  // ---------------------------------------------------------------------

  function Faulted(s: Servo, code: Errc): Servo { s.(mode := Fault, fault := code) }

  function StartCalibrating(s: Servo): Servo {
    s.(mode := Enabling, powered := false, sum := Adc(0, 0, 0), count := 0)
  }

  predicate ChecksBounds(command: Command) {
    (command.mode == Position || command.mode == StayWithinBounds) && !command.ignoreBounds
  }

  /** ISR_MaybeChangeMode. */
  function ChangeMode(s: Servo, env: Env): Servo {
    if s.command.mode == Stopped then s.(mode := Stopped)
    else if s.mode == Stopped then StartCalibrating(s)
    else if s.mode == CalibrationComplete || (Armed(s.mode) && s.mode != PositionTimeout) then
      if ChecksBounds(s.command) && env.outsideLimits then Faulted(s, StartOutsideLimit)
      else if ChecksBounds(s.command) && env.invalidLimits then Faulted(s, InvalidLimits)
      else s.(mode := s.command.mode)
    else s
  }

  function PersistentFaults(s: Servo, env: Env): Servo {
    if s.mode == Stopped || s.mode == Fault then s
    else if env.overTemperature then Faulted(s, OverTemperature)
    else if env.underVoltage then Faulted(s, UnderVoltage)
    else if env.overVoltage then Faulted(s, OverVoltage)
    else if env.driverFault then Faulted(s, MotorDriverFault)
    else s
  }

  function Watchdog(s: Servo): Servo {
    if (s.mode == Position || s.mode == StayWithinBounds) && s.timeout.Some? && s.timeout.value <= 0.0
    then s.(mode := PositionTimeout)
    else s
  }

  function Bookkeeping(c: Config, s: Servo): Servo {
    var t := if s.mode != Fault then s.(fault := Success) else s;
    if CurrentControl(c, t.mode) then t.(cooldown := c.cooldownCycles)
    else if TorqueOn(c, t.mode) then t.(cooldown := c.cooldownBrake)
    else t
  }

  /** A control law that can fault: voltage DQ, current and the position modes. */
  function RunLaw(s: Servo, law: Law): Servo {
    var t := if law.driven then s.(powered := true) else s;
    if law.fault.Some? then Faulted(t, law.fault.value)
    else if t.mode != Fault && law.limit != Success then t.(fault := law.limit)
    else t
  }

  function DoStopped(c: Config, s: Servo, law: Law): Servo {
    if s.cooldown > 0 then
      (if s.cooldown > c.cooldownBrake then RunLaw(s, law) else s.(powered := false)).(cooldown := s.cooldown - 1)
    else s.(powered := false, driver := Disabled)
  }

  function Plus(x: Adc, y: Adc): Adc { Adc(x.a + y.a, x.b + y.b, x.c + y.c) }

  function Average(x: Adc): Adc { Adc(x.a / CALIBRATE_COUNT, x.b / CALIBRATE_COUNT, x.c / CALIBRATE_COUNT) }

  /** Every phase within 200 counts of mid-scale. */
  predicate Balanced(x: Adc) { 1848 <= x.a <= 2248 && 1848 <= x.b <= 2248 && 1848 <= x.c <= 2248 }

  function DoCalibrating(s: Servo, adc: Adc): Servo {
    var t := s.(sum := Plus(s.sum, adc), count := s.count + 1);
    if t.count < CALIBRATE_COUNT then t
    else if !Balanced(Average(t.sum)) then Faulted(t, CalibrationFault)
    else t.(offset := Average(t.sum), mode := CalibrationComplete)
  }

  function DoTimeout(c: Config, s: Servo, law: Law): Servo {
    if c.timeoutMode == Position || c.timeoutMode == ZeroVelocity then RunLaw(s, law)
    else if c.timeoutMode == Brake then s.(powered := true)
    else DoStopped(c, s, law)
  }

  function RunMode(c: Config, s: Servo, env: Env): Servo {
    match s.mode
    case Stopped | Fault | NumModes => DoStopped(c, s, env.law)
    case Enabling | CalibrationComplete => s
    case Calibrating => DoCalibrating(s, env.adc)
    case Pwm | Voltage | VoltageFoc | Brake => s.(powered := true)
    case PositionTimeout => DoTimeout(c, s, env.law)
    case _ => RunLaw(s, env.law)
  }

  /** A command's timeout is taken over once. */
  function SenseTimeout(s: Servo): Servo {
    if s.command.timeout == Some(0.0) then s
    else s.(timeout := s.command.timeout, command := s.command.(timeout := Some(0.0)))
  }

  function CountDown(c: Config, s: Servo): Servo {
    if s.timeout.Some? && s.timeout.value > 0.0
    then s.(timeout := Some(if s.timeout.value > c.period then s.timeout.value - c.period else 0.0))
    else s
  }

  /** The control interrupt up to the point where the mode's law runs. */
  function Decide(c: Config, s: Servo, env: Env): Servo {
    Watchdog(PersistentFaults(Obey(CountDown(c, SenseTimeout(s)), env), env))
  }

  function Obey(s: Servo, env: Env): Servo { if s.command.mode != s.mode then ChangeMode(s, env) else s }

  function DoIsr(c: Config, s: Servo, env: Env): Servo { RunMode(c, Bookkeeping(c, Decide(c, s, env)), env) }

  function DoPoll(s: Servo, result: EnableResult): Servo {
    if s.mode != Enabling then s
    else
      var t := s.(driver := result);
      if result == Enabled then t.(mode := Calibrating)
      else if result == CalibrateFailed then Faulted(t, DriverEnableFault)
      else t
  }

  function DoCommand(s: Servo, command: Command, error: Option<Errc>): Servo {
    if !Commandable(command.mode) && command.mode != NumModes then s
    else (if error.Some? then Faulted(s, error.value) else s).(command := command)
  }

  function Step(c: Config, s: Servo, e: Event): Servo {
    match e
    case Isr(env) => DoIsr(c, s, env)
    case PhaseMonitor(high) => if high && s.mode != Fault then Faulted(s, PwmCycleOverrun) else s
    case Poll(result) => DoPoll(s, result)
    case Commanded(command, error) => DoCommand(s, command, error)
    case FaultRequest(code) => if s.mode != Fault then Faulted(s, code) else s
  }

  function Run(c: Config, s: Servo, es: seq<Event>): Servo {
    if es == [] then s else Step(c, Run(c, s, es[..|es| - 1]), es[|es| - 1])
  }

  function PowerOn(): Servo {
    Servo(Stopped, Success, Command(Stopped, Some(0.0), false), Some(0.0), 0, false, Disabled, Adc(0, 0, 0), 0, MID_SCALE)
  }

  /** Register writes of modes past the last one are refused before they become commands, and
      every error code given to the servo is a real one. */
  predicate Legal(e: Event) {
    match e
    case Isr(env) => env.law.fault != Some(Success)
    case Commanded(command, error) => command.mode != NumModes && error != Some(Success)
    case FaultRequest(code) => code != Success
    case _ => true
  }

  // ---------------------------------------------------------------------
  // Edges
  // ---------------------------------------------------------------------

  /** Every edge a single step may take. A fault can come from anywhere; apart from that the
      motor is only armed from CalibrationComplete, and only commands get a fault or a timeout
      cleared, into Stopped. */
  predicate Edge(m: Mode, n: Mode) {
    || m == n
    || n == Stopped || n == Fault
    || (m == Stopped && n == Enabling)
    || (m == Enabling && n == Calibrating)
    || (m == Calibrating && n == CalibrationComplete)
    || ((m == CalibrationComplete || (Armed(m) && m != PositionTimeout)) && Armed(n))
  }

  predicate Sane(s: Servo) { Commandable(s.command.mode) && s.mode != NumModes && (s.mode == Fault ==> s.fault != Success) }

  /** Everything the calibration owns. */
  predicate SameCalibration(s: Servo, t: Servo) { t.sum == s.sum && t.count == s.count && t.offset == s.offset }

  lemma TimersKeepMode(c: Config, s: Servo)
    ensures var t := CountDown(c, SenseTimeout(s));
      t.mode == s.mode && t.fault == s.fault && t.command.mode == s.command.mode && SameCalibration(s, t)
      && t.cooldown == s.cooldown && t.command.ignoreBounds == s.command.ignoreBounds
  {
  }

  /** What obeying the command may do. */
  lemma ObeyTakesEdge(s: Servo, env: Env)
    requires Sane(s)
    ensures var t := Obey(s, env);
      && Sane(t) && t.offset == s.offset
      && (if s.mode == Stopped && s.command.mode != Stopped then t.mode == Enabling && t.count == 0 && t.sum == Adc(0, 0, 0)
          else SameCalibration(s, t))
      && (t.mode == s.mode || t.mode == Fault || (t.mode == Stopped && s.command.mode == Stopped)
          || (s.mode == Stopped && s.command.mode != Stopped && t.mode == Enabling)
          || ((s.mode == CalibrationComplete || (Armed(s.mode) && s.mode != PositionTimeout)) && Armed(t.mode)))
  {
  }

  lemma ChecksTakeEdge(s: Servo, env: Env)
    requires Sane(s)
    ensures var t := Watchdog(PersistentFaults(s, env));
      && Sane(t) && SameCalibration(s, t)
      && (t.mode == s.mode || t.mode == Fault || (t.mode == PositionTimeout && (s.mode == Position || s.mode == StayWithinBounds)))
  {
  }

  /** What deciding the mode may do to the servo. */
  predicate Decided(s: Servo, v: Servo) {
    && Sane(v) && Edge(s.mode, v.mode) && v.offset == s.offset
    && (v.mode == Calibrating ==> s.mode == Calibrating)
    && (v.mode == CalibrationComplete ==> s.mode == CalibrationComplete)
    && (v.mode == Enabling ==> s.mode == Enabling || (s.mode == Stopped && s.command.mode != Stopped))
    && (v.mode == Stopped ==> s.command.mode == Stopped)
    && (s.mode == Stopped && s.command.mode != Stopped ==> v.count == 0 && v.sum == Adc(0, 0, 0))
    && (s.mode != Stopped ==> SameCalibration(s, v))
    && (s.mode == Fault ==> v.mode == Fault || v.mode == Stopped)
    && (s.mode == PositionTimeout ==> v.mode == PositionTimeout || v.mode == Fault || v.mode == Stopped)
  }

  lemma DecideTakesEdge(c: Config, s: Servo, env: Env)
    requires Sane(s)
    ensures Decided(s, Decide(c, s, env))
  {
    TimersKeepMode(c, s);
    var t := CountDown(c, SenseTimeout(s));
    ObeyTakesEdge(t, env);
    ChecksTakeEdge(Obey(t, env), env);
    DecideFromStages(s, t, Obey(t, env), Decide(c, s, env));
  }

  lemma DecideFromStages(s: Servo, t: Servo, u: Servo, v: Servo)
    requires Sane(s) && t.mode == s.mode && t.command.mode == s.command.mode && SameCalibration(s, t)
    requires u.offset == t.offset && Sane(v) && SameCalibration(u, v)
    requires if t.mode == Stopped && t.command.mode != Stopped then u.mode == Enabling && u.count == 0 && u.sum == Adc(0, 0, 0)
             else SameCalibration(t, u)
    requires u.mode == t.mode || u.mode == Fault || (u.mode == Stopped && t.command.mode == Stopped)
             || (t.mode == Stopped && t.command.mode != Stopped && u.mode == Enabling)
             || ((t.mode == CalibrationComplete || (Armed(t.mode) && t.mode != PositionTimeout)) && Armed(u.mode))
    requires v.mode == u.mode || v.mode == Fault || (v.mode == PositionTimeout && (u.mode == Position || u.mode == StayWithinBounds))
    ensures Decided(s, v)
  {
  }

  lemma RunModeTakesEdge(c: Config, s: Servo, env: Env)
    requires Sane(s) && env.law.fault != Some(Success)
    ensures Sane(RunMode(c, s, env))
    ensures var n := RunMode(c, s, env).mode;
      n == s.mode || n == Fault || (s.mode == Calibrating && n == CalibrationComplete)
  {
  }

  lemma IsrTakesEdge(c: Config, s: Servo, env: Env)
    requires Sane(s) && env.law.fault != Some(Success)
    ensures Sane(DoIsr(c, s, env))
    ensures var d, n := Decide(c, s, env), DoIsr(c, s, env).mode;
      Decided(s, d) && (n == d.mode || n == Fault || (d.mode == Calibrating && n == CalibrationComplete))
  {
    DecideTakesEdge(c, s, env);
    BookkeepingKeeps(c, Decide(c, s, env));
    RunModeTakesEdge(c, Bookkeeping(c, Decide(c, s, env)), env);
  }

  lemma BookkeepingKeeps(c: Config, s: Servo)
    ensures var t := Bookkeeping(c, s);
      t.mode == s.mode && t.command == s.command && SameCalibration(s, t) && t.driver == s.driver && (t.mode == Fault ==> t.fault == s.fault)
  {
  }

  /** No step takes any other edge, none makes an unusable mode, and a fault always has a code. */
  lemma StepTakesEdge(c: Config, s: Servo, e: Event)
    requires Sane(s) && Legal(e)
    ensures Edge(s.mode, Step(c, s, e).mode) && Sane(Step(c, s, e))
  {
    if e.Isr? {
      IsrTakesEdge(c, s, e.env);
    }
  }

  /** A fault is left only by a stop command, and a timeout only by a stop command or a fault. */
  lemma FaultIsSticky(c: Config, s: Servo, e: Event)
    requires Sane(s) && Legal(e) && (s.mode == Fault || s.mode == PositionTimeout)
    ensures var n := Step(c, s, e).mode;
      n == s.mode || n == Fault || (n == Stopped && e.Isr? && s.command.mode == Stopped)
  {
    if e.Isr? {
      IsrTakesEdge(c, s, e.env);
    }
  }

  predicate Healthy(env: Env) { !env.driverFault && !env.overVoltage && !env.underVoltage && !env.overTemperature }

  lemma ChecksNeedHealth(s: Servo, env: Env)
    requires s.mode != Stopped && s.mode != Fault
    ensures PersistentFaults(s, env).mode != Fault <==> Healthy(env)
  {
  }

  lemma ObeyChecksBounds(s: Servo, env: Env)
    requires Sane(s) && s.command.mode != s.mode && Armed(Obey(s, env).mode)
    ensures s.mode != PositionTimeout && ChecksBounds(s.command) ==> !env.outsideLimits && !env.invalidLimits
  {
  }

  lemma DecidedIsHealthy(c: Config, s: Servo, env: Env)
    requires Sane(s) && Armed(Decide(c, s, env).mode)
    ensures Healthy(env) && Armed(Obey(CountDown(c, SenseTimeout(s)), env).mode)
  {
    var t := CountDown(c, SenseTimeout(s));
    TimersKeepMode(c, s);
    ObeyTakesEdge(t, env);
    CheckedIsHealthy(Obey(t, env), env);
  }

  lemma CheckedIsHealthy(o: Servo, env: Env)
    requires Sane(o) && Armed(Watchdog(PersistentFaults(o, env)).mode)
    ensures Healthy(env) && Armed(o.mode)
  {
    ChecksTakeEdge(o, env);
    ChecksNeedHealth(o, env);
  }

  /** No interrupt that saw a hardware fault leaves the motor armed, and none changes to a bounded
      mode from outside the bounds. */
  lemma ArmedIsHealthy(c: Config, s: Servo, env: Env)
    requires Sane(s) && Legal(Isr(env)) && Armed(DoIsr(c, s, env).mode)
    ensures Healthy(env)
    ensures s.mode != PositionTimeout && s.command.mode != s.mode && ChecksBounds(s.command) ==>
      !env.outsideLimits && !env.invalidLimits
  {
    IsrTakesEdge(c, s, env);
    DecidedIsHealthy(c, s, env);
    if s.command.mode != s.mode {
      TimersKeepMode(c, s);
      ObeyChecksBounds(CountDown(c, SenseTimeout(s)), env);
    }
  }

  // ---------------------------------------------------------------------
  // Arming
  // ---------------------------------------------------------------------

  /** What an observer of the modes and inputs has seen since the last start of a calibration. */
  datatype Seen = Seen(enabled: bool, samples: seq<Adc>)

  /** The observer never looks at the servo's own counters. */
  function Observe(c: Config, s: Servo, e: Event, seen: Seen): Seen {
    if s.mode == Stopped && e.Isr? && s.command.mode != Stopped then Seen(false, [])
    else if s.mode == Enabling && e == Poll(Enabled) then seen.(enabled := true)
    else if e.Isr? && Decide(c, s, e.env).mode == Calibrating then seen.(samples := seen.samples + [e.env.adc])
    else seen
  }

  function SeenAfter(c: Config, s: Servo, es: seq<Event>): Seen {
    if es == [] then Seen(false, [])
    else
      var n := |es| - 1;
      Observe(c, Run(c, s, es[..n]), es[n], SeenAfter(c, s, es[..n]))
  }

  function Total(samples: seq<Adc>): Adc {
    if samples == [] then Adc(0, 0, 0) else Plus(Total(samples[..|samples| - 1]), samples[|samples| - 1])
  }

  lemma TotalAppend(samples: seq<Adc>, adc: Adc)
    ensures Total(samples + [adc]) == Plus(Total(samples), adc)
  {
    assert (samples + [adc])[..|samples|] == samples;
  }

  predicate Calibrated(seen: Seen) {
    seen.enabled && |seen.samples| == CALIBRATE_COUNT && Balanced(Average(Total(seen.samples)))
  }

  /** The modes past enabling whose law never switches the driver off. */
  predicate NeedsDriver(m: Mode) {
    m == Calibrating || m == CalibrationComplete || (Armed(m) && m != PositionTimeout)
  }

  /** How the servo's state and the observer's record go together. */
  predicate Consistent(s: Servo, seen: Seen) {
    && Sane(s)
    && (s.mode == Enabling ==> seen.samples == [] && s.count == 0 && s.sum == Adc(0, 0, 0))
    && (s.mode == Calibrating ==> seen.enabled && |seen.samples| == s.count < CALIBRATE_COUNT
                                  && s.sum == Total(seen.samples))
    && (s.mode == CalibrationComplete || Armed(s.mode) ==>
          Calibrated(seen) && s.offset == Average(Total(seen.samples)))
    && (NeedsDriver(s.mode) ==> s.driver == Enabled)
  }

  lemma DecideStaysConsistent(s: Servo, d: Servo, seen: Seen)
    requires Consistent(s, seen) && Decided(s, d) && d.driver == s.driver
    ensures Consistent(d, if s.mode == Stopped && s.command.mode != Stopped then Seen(false, []) else seen)
  {
  }

  lemma SampleStaysConsistent(s: Servo, adc: Adc, seen: Seen)
    requires Consistent(s, seen) && s.mode == Calibrating
    ensures Consistent(DoCalibrating(s, adc), seen.(samples := seen.samples + [adc]))
  {
    TotalAppend(seen.samples, adc);
    JudgedStaysConsistent(s, adc, seen.samples + [adc], Plus(s.sum, adc));
  }

  lemma JudgedStaysConsistent(s: Servo, adc: Adc, samples: seq<Adc>, sum: Adc)
    requires Sane(s) && s.mode == Calibrating && s.driver == Enabled && |samples| == s.count + 1 <= CALIBRATE_COUNT
    requires sum == Plus(s.sum, adc) == Total(samples)
    ensures Consistent(DoCalibrating(s, adc), Seen(true, samples))
  {
  }

  lemma LawStaysConsistent(s: Servo, n: Servo, seen: Seen)
    requires Consistent(s, seen) && Sane(n) && SameCalibration(s, n) && s.mode != Calibrating
    requires n.mode == s.mode || n.mode == Fault
    requires NeedsDriver(s.mode) ==> n.driver == s.driver
    ensures Consistent(n, seen)
  {
  }

  lemma RunModeStaysConsistent(c: Config, s: Servo, env: Env, seen: Seen)
    requires Consistent(s, seen) && env.law.fault != Some(Success)
    ensures Consistent(RunMode(c, s, env), if s.mode == Calibrating then seen.(samples := seen.samples + [env.adc]) else seen)
  {
    if s.mode == Calibrating {
      SampleStaysConsistent(s, env.adc, seen);
    } else {
      RunModeTakesEdge(c, s, env);
      LawKeepsCalibration(c, s, env);
      LawStaysConsistent(s, RunMode(c, s, env), seen);
    }
  }

  lemma LawKeepsCalibration(c: Config, s: Servo, env: Env)
    requires s.mode != Calibrating
    ensures SameCalibration(s, RunMode(c, s, env))
    ensures NeedsDriver(s.mode) ==> RunMode(c, s, env).driver == s.driver
  {
  }

  lemma DecideKeepsDriver(c: Config, s: Servo, env: Env)
    ensures Decide(c, s, env).driver == s.driver
  {
    var t := CountDown(c, SenseTimeout(s));
    assert t.driver == s.driver;
    assert Obey(t, env).driver == t.driver;
    assert PersistentFaults(Obey(t, env), env).driver == t.driver;
  }

  lemma IsrStaysConsistent(c: Config, s: Servo, env: Env, seen: Seen)
    requires Consistent(s, seen) && Legal(Isr(env))
    ensures Consistent(DoIsr(c, s, env), Observe(c, s, Isr(env), seen))
  {
    var d := Decide(c, s, env);
    DecideTakesEdge(c, s, env);
    DecideKeepsDriver(c, s, env);
    DecideStaysConsistent(s, d, seen);
    BookkeepingKeeps(c, d);
    var b := Bookkeeping(c, d);
    var before := if s.mode == Stopped && s.command.mode != Stopped then Seen(false, []) else seen;
    assert Consistent(b, before);
    RunModeStaysConsistent(c, b, env, before);
  }

  lemma StepStaysConsistent(c: Config, s: Servo, e: Event, seen: Seen)
    requires Consistent(s, seen) && Legal(e)
    ensures Consistent(Step(c, s, e), Observe(c, s, e, seen))
  {
    if e.Isr? {
      IsrStaysConsistent(c, s, e.env, seen);
    }
  }

  /** Over every interleaving from power-on: when the motor is armed, the driver reported itself
      enabled and exactly 256 samples were averaged, all within 200 counts of 2048, since the
      last time the servo left Stopped; the offsets in use are those averages. Unless it has
      timed out, the driver is still enabled. */
  lemma {:induction false} ArmedMeansCalibrated(c: Config, es: seq<Event>)
    requires forall e :: e in es ==> Legal(e)
    ensures Consistent(Run(c, PowerOn(), es), SeenAfter(c, PowerOn(), es))
  {
    if es != [] {
      var n := |es| - 1;
      ArmedMeansCalibrated(c, es[..n]);
      StepStaysConsistent(c, Run(c, PowerOn(), es[..n]), es[n], SeenAfter(c, PowerOn(), es[..n]));
    }
  }

  // ---------------------------------------------------------------------
  // The watchdog
  // ---------------------------------------------------------------------

  /** A cycle in which no fault is raised. */
  predicate Quiet(env: Env) {
    !env.driverFault && !env.overVoltage && !env.underVoltage && !env.overTemperature && env.law.fault.None?
  }

  predicate Holding(s: Servo, m: Mode) {
    s.mode == m && s.command.mode == m && s.command.timeout == Some(0.0) && s.timeout.Some?
  }

  function Remaining(t: real, elapsed: real): real { if t > elapsed then t - elapsed else 0.0 }

  lemma QuietLawKeepsMode(c: Config, s: Servo, env: Env)
    requires Quiet(env) && s.mode != Calibrating
    ensures var n := RunMode(c, Bookkeeping(c, s), env);
      n.mode == s.mode && n.command == s.command && n.timeout == s.timeout
  {
  }

  lemma QuietDecide(c: Config, s: Servo, env: Env)
    requires 0.0 < c.period && Quiet(env) && s.command.timeout == Some(0.0)
    requires (s.mode == PositionTimeout && Armed(s.command.mode)) || s.mode == s.command.mode
    ensures Decide(c, s, env) == Watchdog(CountDown(c, s))
  {
  }

  /** One quiet cycle with no new command: the time left goes down by one period, and the mode
      changes exactly when none is left. */
  lemma WatchdogStep(c: Config, s: Servo, env: Env)
    requires 0.0 < c.period && Quiet(env) && (Holding(s, Position) || Holding(s, StayWithinBounds))
    requires 0.0 <= s.timeout.value
    ensures var n := DoIsr(c, s, env); var left := Remaining(s.timeout.value, c.period);
      && n.timeout == Some(left) && n.command == s.command
      && n.mode == if left <= 0.0 then PositionTimeout else s.mode
  {
    QuietDecide(c, s, env);
    QuietLawKeepsMode(c, Decide(c, s, env), env);
  }

  lemma TimeoutStays(c: Config, s: Servo, env: Env)
    requires 0.0 < c.period && Quiet(env) && s.mode == PositionTimeout && Armed(s.command.mode)
    requires s.command.timeout == Some(0.0)
    ensures DoIsr(c, s, env).mode == PositionTimeout && DoIsr(c, s, env).command == s.command
  {
    QuietDecide(c, s, env);
    QuietLawKeepsMode(c, Decide(c, s, env), env);
  }

  /** A run of control interrupts with nothing from the main loop in between. */
  function Cycles(c: Config, s: Servo, envs: seq<Env>): Servo {
    if envs == [] then s else DoIsr(c, Cycles(c, s, envs[..|envs| - 1]), envs[|envs| - 1])
  }

  /** The same as events. */
  function Isrs(envs: seq<Env>): seq<Event> { seq(|envs|, i requires 0 <= i < |envs| => Isr(envs[i])) }

  lemma {:induction false} CyclesAreARun(c: Config, s: Servo, envs: seq<Env>)
    ensures Cycles(c, s, envs) == Run(c, s, Isrs(envs))
  {
    if envs != [] {
      var k := |envs| - 1;
      CyclesAreARun(c, s, envs[..k]);
      assert Isrs(envs)[..k] == Isrs(envs[..k]);
    }
  }

  /** Where the watchdog stands `elapsed` seconds after the command. */
  predicate Waiting(s: Servo, n: Servo, m: Mode, elapsed: real) {
    && n.command == s.command
    && n.mode == (if s.timeout.Some? && elapsed < s.timeout.value then m else PositionTimeout)
    && (n.mode == m && s.timeout.Some? ==> n.timeout.Some? && n.timeout.value == s.timeout.value - elapsed)
  }

  lemma WaitingStep(c: Config, s: Servo, m: Mode, before: Servo, env: Env, elapsed: real)
    requires 0.0 < c.period && (m == Position || m == StayWithinBounds) && Holding(s, m) && Quiet(env)
    requires Waiting(s, before, m, elapsed)
    ensures Waiting(s, DoIsr(c, before, env), m, elapsed + c.period)
  {
    if before.mode == m {
      WatchdogStep(c, before, env);
    } else {
      TimeoutStays(c, before, env);
    }
  }

  function Elapsed(cycles: nat, period: real): real { if cycles == 0 then 0.0 else Elapsed(cycles - 1, period) + period }

  /** Seconds of so many cycles. */
  function Seconds(cycles: nat, period: real): real { cycles as real * period }

  lemma {:induction false} ElapsedIsSeconds(cycles: nat, period: real)
    ensures Elapsed(cycles, period) == Seconds(cycles, period)
  {
    if cycles > 0 {
      ElapsedIsSeconds(cycles - 1, period);
    }
  }

  /** Without a new command the watchdog fires after exactly the cycles the timeout covers: not
      while time is left, and always once it has run out. */
  lemma WatchdogFiresOnTime(c: Config, s: Servo, m: Mode, envs: seq<Env>)
    requires 0.0 < c.period && (m == Position || m == StayWithinBounds) && Holding(s, m) && 0.0 < s.timeout.value
    requires forall e :: e in envs ==> Quiet(e)
    ensures Waiting(s, Run(c, s, Isrs(envs)), m, Seconds(|envs|, c.period))
  {
    CyclesAreARun(c, s, envs);
    ElapsedIsSeconds(|envs|, c.period);
    WatchdogCycles(c, s, m, envs);
  }

  lemma {:induction false} WatchdogCycles(c: Config, s: Servo, m: Mode, envs: seq<Env>)
    requires 0.0 < c.period && (m == Position || m == StayWithinBounds) && Holding(s, m) && 0.0 < s.timeout.value
    requires forall e :: e in envs ==> Quiet(e)
    ensures Waiting(s, Cycles(c, s, envs), m, Elapsed(|envs|, c.period))
  {
    if envs != [] {
      var k := |envs| - 1;
      WatchdogCycles(c, s, m, envs[..k]);
      var before := Cycles(c, s, envs[..k]);
      WaitingStep(c, s, m, before, envs[k], Elapsed(k, c.period));
      assert Cycles(c, s, envs) == DoIsr(c, before, envs[k]);
    }
  }

  // ---------------------------------------------------------------------
  // Output power
  // ---------------------------------------------------------------------

  /** The servo is told to be off: by a stop command, whatever it was doing, or by its fault. */
  predicate Resting(s: Servo) { s.command.mode == Stopped || (s.mode == Fault && Armed(s.command.mode)) }

  /** The resting servo's mode is settled before its law runs. */
  lemma RestingDecide(c: Config, s: Servo, env: Env)
    requires Resting(s)
    ensures var d := Bookkeeping(c, Decide(c, s, env));
      && Resting(d) && d.mode == (if s.command.mode == Stopped then Stopped else Fault)
      && d.command.mode == s.command.mode && d.cooldown == s.cooldown && d.powered == s.powered && d.driver == s.driver
  {
    TimersKeepMode(c, s);
    var t := CountDown(c, SenseTimeout(s));
    var u := Obey(t, env);
    assert u.mode == (if s.command.mode == Stopped then Stopped else Fault) && u.command == t.command && u.cooldown == t.cooldown;
    assert Decide(c, s, env) == u;
  }

  /** What a cycle at rest does to the cooldown, the output stage and the driver. */
  predicate Cooled(c: Config, s: Servo, n: Servo, driven: bool) {
    && n.cooldown == (if s.cooldown == 0 then 0 else s.cooldown - 1)
    && (n.powered <==> s.cooldown > c.cooldownBrake && (driven || s.powered))
    && n.driver == (if s.cooldown == 0 then Disabled else s.driver)
  }

  lemma StoppedStep(c: Config, s: Servo, law: Law)
    requires Resting(s) && (s.mode == Stopped || s.mode == Fault)
    ensures var n := DoStopped(c, s, law);
      Resting(n) && (n.mode == Stopped || n.mode == Fault) && n.command == s.command && Cooled(c, s, n, law.driven)
  {
  }

  /** A resting cycle uses up the cooldown: the stage stays powered exactly while more than the
      braking part of it is left, and the driver is switched off once none is. */
  lemma RestingStep(c: Config, s: Servo, env: Env)
    requires Resting(s)
    ensures var n := DoIsr(c, s, env);
      && Resting(n) && (n.mode == Stopped || n.mode == Fault) && n.command.mode == s.command.mode
      && Cooled(c, s, n, env.law.driven)
  {
    RestingDecide(c, s, env);
    StoppedStep(c, Bookkeeping(c, Decide(c, s, env)), env.law);
  }

  predicate AnyDriven(envs: seq<Env>) { exists i :: 0 <= i < |envs| && envs[i].law.driven }

  lemma AnyDrivenLast(envs: seq<Env>)
    requires envs != []
    ensures AnyDriven(envs) <==> AnyDriven(envs[..|envs| - 1]) || envs[|envs| - 1].law.driven
  {
    var before := envs[..|envs| - 1];
    if AnyDriven(before) {
      var i :| 0 <= i < |before| && before[i].law.driven;
      assert envs[i].law.driven;
    }
    if AnyDriven(envs) {
      var i :| 0 <= i < |envs| && envs[i].law.driven;
      assert i < |before| ==> before[i].law.driven;
    }
  }

  /** A servo that is told to stop, or stays faulted: its output stage is powered exactly as long as the
      cooldown lasts to its braking part and anything has driven it, and the driver is disabled
      by the first cycle that finds no cooldown left, and not before. */
  lemma PowerGoesOff(c: Config, s: Servo, envs: seq<Env>)
    requires Resting(s)
    ensures Cooling(c, s, Run(c, s, Isrs(envs)), envs)
  {
    CyclesAreARun(c, s, envs);
    CyclesCool(c, s, envs);
  }

  predicate Cooling(c: Config, s: Servo, n: Servo, envs: seq<Env>) {
    && Resting(n) && (envs != [] ==> n.mode == Stopped || n.mode == Fault)
    && n.cooldown == (if s.cooldown <= |envs| then 0 else s.cooldown - |envs|)
    && n.driver == (if s.cooldown < |envs| then Disabled else s.driver)
    && (envs != [] ==> (n.powered <==> |envs| + c.cooldownBrake <= s.cooldown && (s.powered || AnyDriven(envs))))
  }

  lemma {:induction false} CyclesCool(c: Config, s: Servo, envs: seq<Env>)
    requires Resting(s)
    ensures Cooling(c, s, Cycles(c, s, envs), envs)
  {
    if envs != [] {
      var k := |envs| - 1;
      CyclesCool(c, s, envs[..k]);
      var before := Cycles(c, s, envs[..k]);
      RestingStep(c, before, envs[k]);
      AnyDrivenLast(envs);
      CoolsOn(c, s, before, DoIsr(c, before, envs[k]), envs);
    }
  }

  lemma CoolsOn(c: Config, s: Servo, before: Servo, after: Servo, envs: seq<Env>)
    requires envs != [] && Cooling(c, s, before, envs[..|envs| - 1]) && (|envs| == 1 ==> before == s) && Resting(after)
    requires after.mode == Stopped || after.mode == Fault
    requires Cooled(c, before, after, envs[|envs| - 1].law.driven)
    requires AnyDriven(envs) <==> AnyDriven(envs[..|envs| - 1]) || envs[|envs| - 1].law.driven
    ensures Cooling(c, s, after, envs)
  {
  }

  /** The output stage does not lose power with the fault: an interrupt that sees the gate
      driver's own fault, in a current mode with its cooldown set, leaves the servo faulted with
      the stage powered and the driver enabled. */
  lemma FaultKeepsDriving(c: Config, s: Servo, env: Env)
    requires CurrentControl(c, s.mode) && s.mode != PositionTimeout && s.command.mode == s.mode
    requires env.driverFault && env.law.driven && env.law.fault.None? && s.cooldown > c.cooldownBrake
    ensures var n := DoIsr(c, s, env); n.mode == Fault && n.powered && n.driver == s.driver
  {
    TimersKeepMode(c, s);
    DecideKeepsDriver(c, s, env);
    var t := CountDown(c, SenseTimeout(s));
    assert Obey(t, env) == t;
    var d := Decide(c, s, env);
    assert d.mode == Fault && d.cooldown == s.cooldown;
    assert Bookkeeping(c, d) == d;
  }

  /** One such servo: three cycles of cooldown, two of them braking. */
  lemma FaultedStillPowered()
    ensures var c := Config(0.0001, Stopped, 3, 2);
      var s := Servo(Current, Success, Command(Current, None, false), None, 3, true, Enabled, Adc(0, 0, 0), 0, Adc(0, 0, 0));
      var n := DoIsr(c, s, Env(true, false, false, false, false, false, Adc(0, 0, 0), Law(None, Success, true)));
      n.mode == Fault && n.powered && n.driver == Enabled
  {
    FaultKeepsDriving(Config(0.0001, Stopped, 3, 2),
                      Servo(Current, Success, Command(Current, None, false), None, 3, true, Enabled, Adc(0, 0, 0), 0, Adc(0, 0, 0)),
                      Env(true, false, false, false, false, false, Adc(0, 0, 0), Law(None, Success, true)));
  }
}
