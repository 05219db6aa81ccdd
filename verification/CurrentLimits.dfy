/** The chain of limits on the commanded d and q currents, over exact reals. */
module CurrentLimits {
  import opened Common
  import opened VoltageControl

  datatype Code =
    | Success
    | LimitPositionBounds
    | LimitMaxVelocity
    | LimitMaxCurrent
    | LimitFetTemperature
    | LimitMotorTemperature
    | LimitFieldWeakening
    | LimitMaxPower

  datatype Limited = Limited(amps: real, code: Code)

  /** Configuration; an unset bound or fault temperature is the firmware's NaN. */
  datatype Config = Config(
    maxCurrent: real, derateCurrent: real,
    maxVelocity: real, maxVelocityDerate: real,
    positionMin: Option<real>, positionMax: Option<real>, positionDerate: real,
    derateTemperature: real, temperatureMargin: real,
    motorDerateTemperature: Option<real>, motorTemperatureMargin: real)
  {
    predicate Valid() {
      0.0 <= maxCurrent && 0.0 < maxVelocityDerate && 0.0 < positionDerate &&
      0.0 < temperatureMargin && 0.0 < motorTemperatureMargin
    }
  }

  datatype Sensors = Sensors(position: real, velocity: real, fetTemp: real, motorTemp: real)

  function LimitCode(a: real, bound: real, limited: Code, notLimited: Code): Limited {
    if a < -bound then Limited(-bound, limited)
    else if a > bound then Limited(bound, limited)
    else Limited(a, notLimited)
  }

  function PositionStage(c: Config, s: Sensors, ignoreBounds: bool, x: Limited): Limited
    requires c.Valid()
  {
    if ignoreBounds then x
    else if c.positionMax.Some? && s.position > c.positionMax.value && x.amps > 0.0 then
      Limited(x.amps * Max(0.0, 1.0 - (s.position - c.positionMax.value) / c.positionDerate), LimitPositionBounds)
    else if c.positionMin.Some? && s.position < c.positionMin.value && x.amps < 0.0 then
      Limited(x.amps * Max(0.0, 1.0 - (c.positionMin.value - s.position) / c.positionDerate), LimitPositionBounds)
    else x
  }

  function VelocityStage(c: Config, s: Sensors, x: Limited): Limited
    requires c.Valid()
  {
    if Abs(s.velocity) < c.maxVelocity || s.velocity * x.amps < 0.0 then x
    else
      var fraction := 1.0 - (Abs(s.velocity) - c.maxVelocity) / c.maxVelocityDerate;
      LimitCode(x.amps, Max(0.0, fraction * c.maxCurrent),
                if fraction < 1.0 then LimitMaxVelocity else LimitMaxCurrent, x.code)
  }

  /** The worse of the two temperature deratings, and what to blame. */
  function Derating(c: Config, s: Sensors): (real, Code)
    requires c.Valid()
  {
    var fet := (s.fetTemp - c.derateTemperature) / c.temperatureMargin;
    var code := if fet > 0.0 then LimitFetTemperature else LimitMaxCurrent;
    match c.motorDerateTemperature
    case None => (fet, code)
    case Some(start) =>
      var motor := (s.motorTemp - start) / c.motorTemperatureMargin;
      if motor > fet then (motor, LimitMotorTemperature) else (fet, code)
  }

  /** effective_max_current_A */
  function EffectiveMax(c: Config, s: Sensors): real
    requires c.Valid()
  {
    Min(c.maxCurrent, Max(0.0, Derating(c, s).0 * (c.derateCurrent - c.maxCurrent) + c.maxCurrent))
  }

  function EitherStage(c: Config, s: Sensors, x: Limited): Limited
    requires c.Valid()
  {
    LimitCode(x.amps, EffectiveMax(c, s), Derating(c, s).1, x.code)
  }

  /** 1.5 * (Vd * id + Vq * iq), with the voltages applied in the previous cycle. */
  function Power(oldD: real, oldQ: real, iD: real, iQ: real): real {
    1.5 * oldQ * iQ + 1.5 * oldD * iD
  }

  datatype Command = Command(iD: real, iQ: real, code: Code)

  function PowerStage(maxPower: real, oldD: real, oldQ: real, x: Command): Command
    requires 0.0 < maxPower
  {
    var used := Abs(Power(oldD, oldQ, x.iD, x.iQ));
    if used < maxPower then x
    else Scaled(x, maxPower / used)
  }

  function Scaled(x: Command, scale: real): Command {
    Command(x.iD * scale, x.iQ * scale, LimitMaxPower)
  }

  /** The current and code that reach the power stage on each axis. */
  function QAxis(c: Config, s: Sensors, ignoreBounds: bool, iQ: real): Limited
    requires c.Valid()
  {
    EitherStage(c, s, VelocityStage(c, s, PositionStage(c, s, ignoreBounds, Limited(iQ, Success))))
  }

  /** What the field weakening adds to the d current; the filter goes on decaying after it has
      been disabled, and is not reported then. */
  datatype Weakening = Weakening(enabled: bool, amps: real) {
    function Code(): Code { if enabled && amps != 0.0 then LimitFieldWeakening else Success }
  }

  function DAxis(c: Config, s: Sensors, iD: real, fw: Weakening): Limited
    requires c.Valid()
  {
    EitherStage(c, s, Limited(iD + fw.amps, fw.Code()))
  }

  function LimitCurrents(c: Config, s: Sensors, ignoreBounds: bool, iD: real, fw: Weakening, iQ: real,
                         maxPower: real, oldD: real, oldQ: real): Command
    requires c.Valid() && 0.0 < maxPower
  {
    var q, d := QAxis(c, s, ignoreBounds, iQ), DAxis(c, s, iD, fw);
    PowerStage(maxPower, oldD, oldQ, Command(d.amps, q.amps, if q.code == Success then d.code else q.code))
  }

  // ---------------------------------------------------------------------
  // No stage flips a sign or grows a magnitude
  // ---------------------------------------------------------------------

  /** y has the sign of x and is no larger. */
  predicate Shrinks(x: real, y: real) {
    0.0 <= y <= x || x <= y <= 0.0
  }

  lemma ScaleShrinks(x: real, f: real)
    requires 0.0 <= f <= 1.0
    ensures Shrinks(x, x * f)
    ensures x * f == x <==> x == 0.0 || f == 1.0
  {
    assert x * f - x == x * (f - 1.0);
  }

  lemma Quotient(x: real, y: real)
    requires 0.0 < y
    ensures 0.0 < x <==> 0.0 < x / y
    ensures x <= y <==> x / y <= 1.0
  {
    var q := x / y;
    assert q * y == x;
  }

  lemma PositionShrinks(c: Config, s: Sensors, ignoreBounds: bool, x: Limited)
    requires c.Valid()
    ensures var y := PositionStage(c, s, ignoreBounds, x);
            Shrinks(x.amps, y.amps) && (y == x || (y.code == LimitPositionBounds && y.amps != x.amps))
  {
    var y := PositionStage(c, s, ignoreBounds, x);
    if y != x {
      var excess := if x.amps > 0.0 then s.position - c.positionMax.value else c.positionMin.value - s.position;
      Quotient(excess, c.positionDerate);
      ScaleShrinks(x.amps, Max(0.0, 1.0 - excess / c.positionDerate));
    }
  }

  lemma LimitCodeShrinks(a: real, bound: real, limited: Code, notLimited: Code)
    requires 0.0 <= bound
    ensures var y := LimitCode(a, bound, limited, notLimited);
            Shrinks(a, y.amps) && -bound <= y.amps <= bound &&
            (y == Limited(a, notLimited) || (y.code == limited && y.amps != a))
  {
  }

  /** effective_max_current_A lies between zero and the configured maximum. */
  lemma EffectiveMaxBounds(c: Config, s: Sensors)
    requires c.Valid()
    ensures 0.0 <= EffectiveMax(c, s) <= c.maxCurrent
  {
  }

  lemma QAxisShrinks(c: Config, s: Sensors, ignoreBounds: bool, iQ: real)
    requires c.Valid()
    ensures var y := QAxis(c, s, ignoreBounds, iQ);
            Shrinks(iQ, y.amps) && -EffectiveMax(c, s) <= y.amps <= EffectiveMax(c, s) &&
            (y.code == Success <==> y.amps == iQ)
  {
    var x0 := Limited(iQ, Success);
    var x1 := PositionStage(c, s, ignoreBounds, x0);
    var x2 := VelocityStage(c, s, x1);
    PositionShrinks(c, s, ignoreBounds, x0);
    VelocityShrinks(c, s, x1);
    EffectiveMaxBounds(c, s);
    LimitCodeShrinks(x2.amps, EffectiveMax(c, s), Derating(c, s).1, x2.code);
  }

  lemma VelocityShrinks(c: Config, s: Sensors, x: Limited)
    requires c.Valid()
    ensures var y := VelocityStage(c, s, x);
            Shrinks(x.amps, y.amps) && (y == x || (y.code != Success && y.amps != x.amps))
  {
    var fraction := 1.0 - (Abs(s.velocity) - c.maxVelocity) / c.maxVelocityDerate;
    LimitCodeShrinks(x.amps, Max(0.0, fraction * c.maxCurrent),
      if fraction < 1.0 then LimitMaxVelocity else LimitMaxCurrent, x.code);
  }

  lemma DAxisShrinks(c: Config, s: Sensors, iD: real, fw: Weakening)
    requires c.Valid()
    ensures var y := DAxis(c, s, iD, fw);
            Shrinks(iD + fw.amps, y.amps) && -EffectiveMax(c, s) <= y.amps <= EffectiveMax(c, s) &&
            (y.code == Success <==> y.amps == iD + fw.amps && !(fw.enabled && fw.amps != 0.0))
  {
    EffectiveMaxBounds(c, s);
    LimitCodeShrinks(iD + fw.amps, EffectiveMax(c, s), Derating(c, s).1, fw.Code());
  }

  /** Scaling both currents scales the power: at the limit it is exactly the limit. */
  lemma PowerLimited(maxPower: real, oldD: real, oldQ: real, x: Command)
    requires 0.0 < maxPower
    ensures var y := PowerStage(maxPower, oldD, oldQ, x);
            Shrinks(x.iD, y.iD) && Shrinks(x.iQ, y.iQ) &&
            Abs(Power(oldD, oldQ, y.iD, y.iQ)) <= maxPower &&
            (y == x || (y.code == LimitMaxPower && Abs(Power(oldD, oldQ, y.iD, y.iQ)) == maxPower
                        && Abs(Power(oldD, oldQ, x.iD, x.iQ)) >= maxPower))
  {
    var used := Abs(Power(oldD, oldQ, x.iD, x.iQ));
    if used >= maxPower {
      Quotient(maxPower, used);
      QuotientBack(maxPower, used);
      ScaledIsLimited(maxPower, oldD, oldQ, x, used, maxPower / used);
    }
  }

  lemma QuotientBack(x: real, y: real)
    requires 0.0 < y
    ensures y * (x / y) == x
  {
  }

  lemma ScaledPower(oldD: real, oldQ: real, x: Command, scale: real)
    ensures Power(oldD, oldQ, Scaled(x, scale).iD, Scaled(x, scale).iQ) == scale * Power(oldD, oldQ, x.iD, x.iQ)
  {
  }

  lemma AbsScaled(u: real, scale: real)
    requires 0.0 <= scale
    ensures Abs(scale * u) == Abs(u) * scale
  {
  }

  lemma ScaledIsLimited(maxPower: real, oldD: real, oldQ: real, x: Command, used: real, scale: real)
    requires used == Abs(Power(oldD, oldQ, x.iD, x.iQ)) && used * scale == maxPower && 0.0 <= scale <= 1.0
    ensures Shrinks(x.iD, Scaled(x, scale).iD) && Shrinks(x.iQ, Scaled(x, scale).iQ)
    ensures Abs(Power(oldD, oldQ, Scaled(x, scale).iD, Scaled(x, scale).iQ)) == maxPower
  {
    ScaleShrinks(x.iD, scale);
    ScaleShrinks(x.iQ, scale);
    ScaledPower(oldD, oldQ, x, scale);
    AbsScaled(Power(oldD, oldQ, x.iD, x.iQ), scale);
  }

  /** The whole chain.  Both outputs keep the sign and never exceed the magnitude of what
      reaches it; both respect the effective and so the configured maximum current; the
      power stays within its limit; and no limit code is reported exactly when both currents
      went through unchanged, power was below its limit and field weakening is not at work. */
  lemma ChainIsSound(c: Config, s: Sensors, ignoreBounds: bool, iD: real, fw: Weakening, iQ: real,
                     maxPower: real, oldD: real, oldQ: real)
    requires c.Valid() && 0.0 < maxPower
    ensures var y := LimitCurrents(c, s, ignoreBounds, iD, fw, iQ, maxPower, oldD, oldQ);
            var cap := EffectiveMax(c, s);
            Shrinks(iQ, y.iQ) && Shrinks(iD + fw.amps, y.iD) &&
            -cap <= y.iQ <= cap && -cap <= y.iD <= cap && 0.0 <= cap <= c.maxCurrent &&
            Abs(Power(oldD, oldQ, y.iD, y.iQ)) <= maxPower &&
            (y.code == Success <==> y.iQ == iQ && y.iD == iD + fw.amps && !(fw.enabled && fw.amps != 0.0)
                                    && Abs(Power(oldD, oldQ, iD + fw.amps, iQ)) < maxPower)
  {
    var q, d := QAxis(c, s, ignoreBounds, iQ), DAxis(c, s, iD, fw);
    var x := Command(d.amps, q.amps, if q.code == Success then d.code else q.code);
    QAxisShrinks(c, s, ignoreBounds, iQ);
    DAxisShrinks(c, s, iD, fw);
    EffectiveMaxBounds(c, s);
    PowerLimited(maxPower, oldD, oldQ, x);
  }

  /** No limit code does not mean the requested d current: with field weakening just disabled
      what is left of its filter is still added. */
  lemma SuccessMeansRequestIff(c: Config, s: Sensors, ignoreBounds: bool, iD: real, fw: Weakening, iQ: real,
                               maxPower: real, oldD: real, oldQ: real)
    requires c.Valid() && 0.0 < maxPower
    ensures var y := LimitCurrents(c, s, ignoreBounds, iD, fw, iQ, maxPower, oldD, oldQ);
            y.code == Success ==> (y.iD == iD <==> fw.amps == 0.0)
  {
    ChainIsSound(c, s, ignoreBounds, iD, fw, iQ, maxPower, oldD, oldQ);
  }

  /** One such cycle: no current is asked for, one ampere of the filter is left, and nothing is
      reported. */
  lemma FilterIsAdded()
    ensures COOL.Valid() &&
      LimitCurrents(COOL, AT_REST, false, 0.0, Weakening(false, -1.0), 0.0, 100.0, 0.0, 0.0) == Command(-1.0, 0.0, Success)
  {
    CoolMaximum();
    NothingAsked();
    OneAmpereLeft();
    NoPower();
  }

  const COOL: Config := Config(10.0, 0.0, 1.0, 1.0, None, None, 1.0, 50.0, 20.0, None, 20.0)
  const AT_REST: Sensors := Sensors(0.0, 0.0, 50.0, 20.0)

  lemma CoolMaximum()
    ensures COOL.Valid() && EffectiveMax(COOL, AT_REST) == 10.0
  {
    assert Derating(COOL, AT_REST).0 == 0.0;
  }

  lemma NothingAsked()
    ensures COOL.Valid() && QAxis(COOL, AT_REST, false, 0.0) == Limited(0.0, Success)
  {
    CoolMaximum();
    assert VelocityStage(COOL, AT_REST, Limited(0.0, Success)) == Limited(0.0, Success);
  }

  lemma OneAmpereLeft()
    ensures COOL.Valid() && DAxis(COOL, AT_REST, 0.0, Weakening(false, -1.0)) == Limited(-1.0, Success)
  {
    CoolMaximum();
  }

  lemma NoPower()
    ensures PowerStage(100.0, 0.0, 0.0, Command(-1.0, 0.0, Success)) == Command(-1.0, 0.0, Success)
  {
  }

  // ---------------------------------------------------------------------
  // The current half of ISR_DoCurrent
  // ---------------------------------------------------------------------

  class CurrentLoop {
    const config: Config
    var effectiveMaxCurrent: real   // status_.effective_max_current_A
    var iD: real                    // control_.i_d_A
    var iQ: real                    // control_.i_q_A
    var limitCode: Code

    constructor (config: Config)
      requires config.Valid()
      ensures this.config == config
    {
      this.config := config;
      effectiveMaxCurrent, iD, iQ, limitCode := 0.0, 0.0, 0.0, Success;
    }

    method LimitCommand(s: Sensors, ignoreBounds: bool, iDIn: real, fw: Weakening, iQIn: real,
                        maxPower: real, oldD: real, oldQ: real)
      requires config.Valid() && 0.0 < maxPower
      modifies this
      ensures effectiveMaxCurrent == EffectiveMax(config, s)
      ensures Command(iD, iQ, limitCode) ==
              LimitCurrents(config, s, ignoreBounds, iDIn, fw, iQIn, maxPower, oldD, oldQ)
    {
      var tempLimit, derateFault := UpdateEffectiveMax(s);
      var bounded := PositionStage(config, s, ignoreBounds, Limited(iQIn, Success));
      var slowed := VelocityStage(config, s, bounded);
      var almostQ := LimitCode(slowed.amps, tempLimit, derateFault, slowed.code);
      var weakeningCode := if !fw.enabled then Success else if fw.amps != 0.0 then LimitFieldWeakening else Success;
      var almostD := LimitCode(iDIn + fw.amps, tempLimit, derateFault, weakeningCode);
      LimitPower(maxPower, oldD, oldQ, almostD, almostQ);
    }

    method UpdateEffectiveMax(s: Sensors) returns (tempLimit: real, derateFault: Code)
      requires config.Valid()
      modifies this`effectiveMaxCurrent
      ensures effectiveMaxCurrent == tempLimit == EffectiveMax(config, s) && derateFault == Derating(config, s).1
    {
      var derating := Derating(config, s);
      var derateCurrent := Max(0.0, derating.0 * (config.derateCurrent - config.maxCurrent) + config.maxCurrent);
      tempLimit, derateFault := Min(config.maxCurrent, derateCurrent), derating.1;
      effectiveMaxCurrent := tempLimit;
    }

    method LimitPower(maxPower: real, oldD: real, oldQ: real, almostD: Limited, almostQ: Limited)
      requires 0.0 < maxPower
      modifies this`iD, this`iQ, this`limitCode
      ensures Command(iD, iQ, limitCode) == PowerStage(maxPower, oldD, oldQ,
        Command(almostD.amps, almostQ.amps, if almostQ.code == Success then almostD.code else almostQ.code))
    {
      var almostFault := if almostQ.code == Success then almostD.code else almostQ.code;
      var limited := PowerStage(maxPower, oldD, oldQ, Command(almostD.amps, almostQ.amps, almostFault));
      iD, iQ, limitCode := limited.iD, limited.iQ, limited.code;
    }
  }
}
