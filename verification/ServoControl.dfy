/** The servo's interrupts and main-loop calls as they update its state in place, each equal to
    its step in ServoModes. */
module ServoControl {
  import opened Common
  import opened ServoModes

  class BldcServo {
    const config: Config
    var mode: Mode
    var fault: Errc
    var command: Command
    var timeout: Option<real>
    var cooldown: nat
    var powered: bool
    var driver: EnableResult
    var sum: Adc
    var count: nat
    var offset: Adc

    function View(): Servo
      reads this
    {
      Servo(mode, fault, command, timeout, cooldown, powered, driver, sum, count, offset)
    }

    constructor (c: Config)
      ensures config == c && View() == PowerOn() && Sane(View())
    {
      config := c;
      mode, fault, command, timeout := Stopped, Success, Command(Stopped, Some(0.0), false), Some(0.0);
      cooldown, powered, driver, sum, count, offset := 0, false, Disabled, Adc(0, 0, 0), 0, Adc(2048, 2048, 2048);
    }

    method SetFault(code: Errc)
      modifies this`mode, this`fault
      ensures View() == Faulted(old(View()), code)
    {
      mode := ServoModes.Fault;
      fault := code;
    }

    method StartCalibration()
      modifies this
      ensures View() == StartCalibrating(old(View()))
    {
      mode := Enabling;
      powered := false;
      sum := Adc(0, 0, 0);
      count := 0;
    }

    /** The modes that cannot be commanded never arrive here: Sane is all it takes. */
    method MaybeChangeMode(env: Env)
      requires Sane(View())
      modifies this
      ensures View() == ChangeMode(old(View()), env)
    {
      assert Commandable(command.mode) && mode != NumModes;
      if command.mode == Stopped {
        mode := Stopped;
      } else {
        EnterMode(env);
      }
    }

    method EnterMode(env: Env)
      requires Armed(command.mode)
      modifies this
      ensures View() == ChangeMode(old(View()), env)
    {
      if mode == Stopped {
        StartCalibration();
      } else if mode == CalibrationComplete || (Armed(mode) && mode != PositionTimeout) {
        if ChecksBounds(command) && env.outsideLimits {
          SetFault(StartOutsideLimit);
        } else if ChecksBounds(command) && env.invalidLimits {
          SetFault(InvalidLimits);
        } else {
          mode := command.mode;
        }
      }
    }

    method CheckFaults(env: Env)
      modifies this`mode, this`fault
      ensures View() == PersistentFaults(old(View()), env)
    {
      if mode != Stopped && mode != ServoModes.Fault {
        if env.driverFault {
          SetFault(MotorDriverFault);
        }
        if env.overVoltage {
          SetFault(OverVoltage);
        }
        if env.underVoltage {
          SetFault(UnderVoltage);
        }
        if env.overTemperature {
          SetFault(OverTemperature);
        }
      }
    }

    method DoLaw(law: Law)
      modifies this`mode, this`fault, this`powered
      ensures View() == RunLaw(old(View()), law)
    {
      if law.driven {
        powered := true;
      }
      if law.fault.Some? {
        SetFault(law.fault.value);
      } else if mode != ServoModes.Fault && law.limit != Success {
        fault := law.limit;
      }
    }

    method Stop(law: Law)
      modifies this`mode, this`fault, this`powered, this`driver, this`cooldown
      ensures View() == DoStopped(config, old(View()), law)
    {
      if cooldown > 0 {
        if cooldown > config.cooldownBrake {
          DoLaw(law);
        } else {
          powered := false;
        }
        cooldown := cooldown - 1;
        return;
      }
      driver, powered := Disabled, false;
    }

    method Calibrate(adc: Adc)
      modifies this
      ensures View() == DoCalibrating(old(View()), adc)
    {
      sum := Adc(sum.a + adc.a, sum.b + adc.b, sum.c + adc.c);
      count := count + 1;
      if count < CALIBRATE_COUNT {
        return;
      }
      var average := Average(sum);
      if !Balanced(average) {
        SetFault(CalibrationFault);
        return;
      }
      offset := average;
      mode := CalibrationComplete;
    }

    method HandleTimeout(law: Law)
      modifies this
      ensures View() == DoTimeout(config, old(View()), law)
    {
      if config.timeoutMode == Position || config.timeoutMode == ZeroVelocity {
        DoLaw(law);
      } else if config.timeoutMode == Brake {
        powered := true;
      } else {
        Stop(law);
      }
    }

    method RunCurrentMode(env: Env)
      modifies this
      ensures View() == RunMode(config, old(View()), env)
    {
      match mode {
        case Stopped => Stop(env.law);
        case Fault => Stop(env.law);
        case NumModes => Stop(env.law);
        case Enabling =>
        case CalibrationComplete =>
        case Calibrating => Calibrate(env.adc);
        case Pwm => powered := true;
        case Voltage => powered := true;
        case VoltageFoc => powered := true;
        case Brake => powered := true;
        case PositionTimeout => HandleTimeout(env.law);
        case _ => DoLaw(env.law);
      }
    }

    method UpdateTimers()
      modifies this`timeout, this`command
      ensures View() == CountDown(config, SenseTimeout(old(View())))
    {
      if command.timeout.None? || command.timeout.value != 0.0 {
        timeout := command.timeout;
        command := command.(timeout := Some(0.0));
      }
      if timeout.Some? && timeout.value > 0.0 {
        timeout := Some(if timeout.value > config.period then timeout.value - config.period else 0.0);
      }
    }

    method UpdateBookkeeping()
      modifies this`fault, this`cooldown
      ensures View() == Bookkeeping(config, old(View()))
    {
      if mode != ServoModes.Fault {
        fault := Success;
      }
      if CurrentControl(config, mode) {
        cooldown := config.cooldownCycles;
      } else if TorqueOn(config, mode) {
        cooldown := config.cooldownBrake;
      }
    }

    method DoControl(env: Env)
      requires Sane(View())
      modifies this
      ensures View() == Step(config, old(View()), Isr(env))
    {
      UpdateTimers();
      if command.mode != mode {
        MaybeChangeMode(env);
      }
      CheckFaults(env);
      if (mode == Position || mode == StayWithinBounds) && timeout.Some? && timeout.value <= 0.0 {
        mode := PositionTimeout;
      }
      UpdateBookkeeping();
      RunCurrentMode(env);
    }

    method CheckPhaseMonitors(high: bool)
      modifies this`mode, this`fault
      ensures View() == Step(config, old(View()), PhaseMonitor(high))
    {
      if mode != ServoModes.Fault && high {
        SetFault(PwmCycleOverrun);
      }
    }

    method PollMillisecond(result: EnableResult)
      modifies this`mode, this`fault, this`driver
      ensures View() == Step(config, old(View()), Poll(result))
    {
      if mode == Enabling {
        driver := result;
        match result {
          case Enabled => mode := Calibrating;
          case CalibrateFailed => SetFault(DriverEnableFault);
          case _ =>
        }
      }
    }

    method Accept(next: Command, error: Option<Errc>)
      modifies this`mode, this`fault, this`command
      ensures View() == Step(config, old(View()), Commanded(next, error))
    {
      if next.mode == ServoModes.Fault || next.mode == Enabling || next.mode == Calibrating
         || next.mode == CalibrationComplete
      {
        return;
      }
      if error.Some? {
        SetFault(error.value);
      }
      command := next;
    }

    method RequestFault(code: Errc)
      modifies this`mode, this`fault
      ensures View() == Step(config, old(View()), FaultRequest(code))
    {
      if mode != ServoModes.Fault {
        SetFault(code);
      }
    }
  }
}
