/** From a DQ voltage command to three PWM duty cycles, over exact reals. */
module VoltageControl {
  import opened Common
  import opened Foc

  /** 2/sqrt(3), rounded down. */
  const SVPWM_RATIO: real := 1.1547

  function Limit(a: real, min: real, max: real): real {
    if a < min then min else if a > max then max else a
  }

  /** The pwm-rate dependent constants. */
  datatype Rate = Rate(minPwm: real, maxPwm: real, maxVoltageRatio: real) {
    predicate Valid() {
      maxPwm == 1.0 - minPwm && maxVoltageRatio == (maxPwm - 0.5) * 2.0 && 0.0 <= maxVoltageRatio
    }

    /** max_V_factor_ * filt_bus_V */
    function MaxVoltage(bus: real): real {
      maxVoltageRatio * SVPWM_RATIO * 0.5 * bus
    }
  }

  function MakeRate(sampleTime: real, pwmRateHz: real): Rate
    requires pwmRateHz > 0.0
  {
    var minPwm := sampleTime / (0.5 / pwmRateHz);
    Rate(minPwm, 1.0 - minPwm, ((1.0 - minPwm) - 0.5) * 2.0)
  }

  /** The sampling window leaves some voltage exactly when it is at most a quarter period. */
  lemma RateIsUsable(sampleTime: real, pwmRateHz: real)
    requires pwmRateHz > 0.0
    ensures MakeRate(sampleTime, pwmRateHz).Valid() <==> sampleTime * pwmRateHz <= 0.25
  {
    assert sampleTime / (0.5 / pwmRateHz) == 2.0 * (sampleTime * pwmRateHz) by {
      var x := sampleTime / (0.5 / pwmRateHz);
      assert x * (0.5 / pwmRateHz) == sampleTime;
      assert x * 0.5 == sampleTime * pwmRateHz;
    }
  }

  // ---------------------------------------------------------------------
  // Centring and clipping
  // ---------------------------------------------------------------------

  function Duty(bus: real, v: Phases): Phases
    requires bus != 0.0
  {
    Phases(v.a * (1.0 / bus), v.b * (1.0 / bus), v.c * (1.0 / bus))
  }

  /** Shift balanced duty cycles so that they sit around one half. */
  function Center(p: Phases): Phases {
    var low := Min(p.a, Min(p.b, p.c));
    var high := Max(p.a, Max(p.b, p.c));
    var offset := 0.5 * (low + high) - 0.5;
    Phases(p.a - offset, p.b - offset, p.c - offset)
  }

  function CenterPwm(bus: real, v: Phases): Phases
    requires bus != 0.0
  {
    Center(Duty(bus, v))
  }

  function LimitPwm(rate: Rate, p: Phases): Phases {
    Phases(Limit(p.a, rate.minPwm, rate.maxPwm),
           Limit(p.b, rate.minPwm, rate.maxPwm),
           Limit(p.c, rate.minPwm, rate.maxPwm))
  }

  predicate InRange(rate: Rate, p: Phases) {
    rate.minPwm <= p.a <= rate.maxPwm && rate.minPwm <= p.b <= rate.maxPwm && rate.minPwm <= p.c <= rate.maxPwm
  }

  /** The phase-to-phase voltages the bridge will apply are the commanded ones. */
  predicate Realises(bus: real, pwm: Phases, v: Phases) {
    (pwm.a - pwm.b) * bus == v.a - v.b && (pwm.b - pwm.c) * bus == v.b - v.c && (pwm.c - pwm.a) * bus == v.c - v.a
  }

  function Spread(v: Phases): real {
    Max(v.a, Max(v.b, v.c)) - Min(v.a, Min(v.b, v.c))
  }

  lemma CenteringRealises(bus: real, v: Phases)
    requires bus > 0.0
    ensures Realises(bus, CenterPwm(bus, v), v)
  {
    Unscale(bus, v.a);
    Unscale(bus, v.b);
    Unscale(bus, v.c);
    var p := CenterPwm(bus, v);
    assert (p.a - p.b) * bus == v.a * (1.0 / bus) * bus - v.b * (1.0 / bus) * bus;
    assert (p.b - p.c) * bus == v.b * (1.0 / bus) * bus - v.c * (1.0 / bus) * bus;
    assert (p.c - p.a) * bus == v.c * (1.0 / bus) * bus - v.a * (1.0 / bus) * bus;
  }

  lemma Unscale(bus: real, x: real)
    requires bus > 0.0
    ensures x * (1.0 / bus) * bus == x
  {
    assert (1.0 / bus) * bus == 1.0;
  }

  /** One difference, in volts and in duty cycle. */
  lemma DifferenceIff(bus: real, x: real, y: real, x1: real, y1: real, r: real)
    requires 0.0 < bus && x1 == x * (1.0 / bus) && y1 == y * (1.0 / bus)
    ensures x - y <= r * bus <==> x1 - y1 <= r
  {
    Unscale(bus, x);
    Unscale(bus, y);
    var t := r - (x1 - y1);
    assert t * bus == r * bus - (x - y);
    if t < 0.0 {
      PositiveProduct(-t, bus);
      assert (-t) * bus == -(t * bus);
    } else {
      Product(0.0, t, 0.0, bus);
    }
  }

  lemma SpreadPairs(p: Phases, bound: real)
    ensures Spread(p) <= bound <==>
            p.a - p.b <= bound && p.b - p.a <= bound && p.a - p.c <= bound && p.c - p.a <= bound
            && p.b - p.c <= bound && p.c - p.b <= bound && 0.0 <= bound
  {
  }

  /** Centring needs no clipping exactly when the spread fits the usable ratio. */
  lemma UnclippedIff(rate: Rate, bus: real, v: Phases)
    requires rate.Valid() && bus > 0.0
    ensures InRange(rate, CenterPwm(bus, v)) <==> Spread(v) <= rate.maxVoltageRatio * bus
    ensures LimitPwm(rate, CenterPwm(bus, v)) == CenterPwm(bus, v) <==> InRange(rate, CenterPwm(bus, v))
  {
    var p, full := Duty(bus, v), rate.maxVoltageRatio * bus;
    SpreadIff(rate.maxVoltageRatio, bus, v, p);
    CenteredSpread(rate, p, v, full);
    ClampIsIdentity(rate, Center(p));
  }

  lemma CenteredSpread(rate: Rate, p: Phases, v: Phases, full: real)
    requires rate.Valid() && (Spread(v) <= full <==> Spread(p) <= rate.maxVoltageRatio)
    ensures InRange(rate, Center(p)) <==> Spread(v) <= full
  {
    CenteredRange(rate, p);
  }

  lemma SpreadIff(r: real, bus: real, v: Phases, p: Phases)
    requires 0.0 < bus && 0.0 <= r && p == Duty(bus, v)
    ensures Spread(v) <= r * bus <==> Spread(p) <= r
  {
    DifferenceIff(bus, v.a, v.b, p.a, p.b, r);
    DifferenceIff(bus, v.b, v.a, p.b, p.a, r);
    DifferenceIff(bus, v.a, v.c, p.a, p.c, r);
    DifferenceIff(bus, v.c, v.a, p.c, p.a, r);
    DifferenceIff(bus, v.b, v.c, p.b, p.c, r);
    DifferenceIff(bus, v.c, v.b, p.c, p.b, r);
    assert 0.0 <= r * bus;
    SpreadPairs(v, r * bus);
    SpreadPairs(p, r);
  }

  lemma ClampIsIdentity(rate: Rate, p: Phases)
    ensures InRange(rate, p) ==> LimitPwm(rate, p) == p
    ensures rate.minPwm <= rate.maxPwm && LimitPwm(rate, p) == p ==> InRange(rate, p)
  {
  }

  lemma CenteredRange(rate: Rate, p: Phases)
    requires rate.Valid()
    ensures InRange(rate, Center(p)) <==> Spread(p) <= rate.maxVoltageRatio
  {
  }

  // ---------------------------------------------------------------------
  // The voltage limit
  // ---------------------------------------------------------------------

  /** root is what sqrtf returns for x. */
  predicate IsRoot(x: real, root: real) {
    0.0 <= root && root * root == x
  }

  /** What the q axis may still use after the d axis has been served. */
  function Headroom(maxV: real, v: Dq): real {
    var d := Limit(v.d, -maxV, maxV);
    Max(0.0, maxV * maxV - d * d)
  }

  /** limit_to_max_voltage: the d axis has priority; limited is the kLimitMaxVoltage code. */
  function LimitToMaxVoltage(maxV: real, v: Dq, root: real): (r: (Dq, bool))
    requires IsRoot(Headroom(maxV, v), root)
  {
    if v.Norm() < maxV * maxV then (v, false)
    else (Dq(Limit(v.d, -maxV, maxV), Limit(v.q, -root, root)), true)
  }

  /** The limited vector lies in the disc; it keeps signs, never grows, gives d
      everything it asked for up to maxV and q as much as the disc then allows. */
  lemma LimitedVoltage(maxV: real, v: Dq, root: real)
    requires 0.0 <= maxV && IsRoot(Headroom(maxV, v), root)
    ensures var r := LimitToMaxVoltage(maxV, v, root).0;
            r.Norm() <= maxV * maxV &&
            r.d == Limit(v.d, -maxV, maxV) &&
            (r.q == v.q || (r.Norm() == maxV * maxV && 0.0 <= r.q * v.q && r.q * r.q <= v.q * v.q))
    ensures LimitToMaxVoltage(maxV, v, root).1 <==> v.Norm() >= maxV * maxV
  {
    var r := LimitToMaxVoltage(maxV, v, root).0;
    if v.Norm() < maxV * maxV {
      assert 0.0 <= v.q * v.q;
      SquareOrder(v.d, maxV);
    } else {
      SquareOrder(r.d, maxV);
      SquareOrder(r.q, root);
      if v.q > root {
        assert root * root <= v.q * v.q;
      }
      if v.q < -root {
        assert root * root <= v.q * v.q;
        assert 0.0 <= (-root) * v.q;
      }
    }
  }

  // ---------------------------------------------------------------------
  // No clipping
  // ---------------------------------------------------------------------

  lemma FullScale(rate: Rate, bus: real, maxV: real, full: real)
    requires rate.Valid() && bus > 0.0 && maxV == rate.MaxVoltage(bus) && full == rate.maxVoltageRatio * bus
    ensures 0.0 <= maxV && 0.0 <= full && 3.0 * (maxV * maxV) <= full * full
  {
    assert 0.0 <= full;
    var w := full * full;
    assert maxV == (SVPWM_RATIO * 0.5) * full;
    assert maxV * maxV == (SVPWM_RATIO * 0.5 * (SVPWM_RATIO * 0.5)) * w;
    assert 0.0 <= w;
  }

  /** Any DQ vector of length at most max_V, in any direction, fits the bridge. */
  lemma DiscFits(rate: Rate, bus: real, sc: SinCos, v: Dq)
    requires rate.Valid() && bus > 0.0 && sc.Norm() <= 1.0
    requires v.Norm() <= rate.MaxVoltage(bus) * rate.MaxVoltage(bus)
    ensures Spread(InverseDqTransform(SQRT3_4, sc, v)) <= rate.maxVoltageRatio * bus
  {
    var maxV, full := rate.MaxVoltage(bus), rate.maxVoltageRatio * bus;
    FullScale(rate, bus, maxV, full);
    DiscReaches(v, maxV * maxV, full);
    SpreadAB(SQRT3_4, sc, v, full);
    SpreadAC(SQRT3_4, sc, v, full);
    SpreadBC(SQRT3_4, sc, v, full);
    PairsSpread(InverseDqTransform(SQRT3_4, sc, v), full);
  }

  lemma DiscReaches(v: Dq, square: real, full: real)
    requires v.Norm() <= square && 3.0 * square <= full * full && 0.0 <= full
    ensures Reaches(SQRT3_4, v, full)
  {
    assert 0.0 <= v.d * v.d && 0.0 <= v.q * v.q;
    assert RowSquare(SQRT3_4) <= 3.0;
    Product(RowSquare(SQRT3_4), 3.0, v.Norm(), square);
  }

  /** Phases that are pairwise near are near altogether. */
  lemma PairsSpread(p: Phases, full: real)
    requires -full <= p.a - p.b <= full && -full <= p.a - p.c <= full && -full <= p.b - p.c <= full
    ensures Spread(p) <= full
  {
  }

  /** The voltage vector reaches the motor unclipped: the centred duty cycles are within
      limits, so the final clamp is the identity, and every phase-to-phase duty
      difference times the bus voltage is the commanded phase-to-phase voltage. */
  predicate Faithful(rate: Rate, bus: real, sc: SinCos, v: Dq)
    requires bus != 0.0
  {
    var phases := InverseDqTransform(SQRT3_4, sc, v);
    var pwm := CenterPwm(bus, phases);
    InRange(rate, pwm) && LimitPwm(rate, pwm) == pwm && Realises(bus, pwm, phases)
  }

  /** output.sign * x; the configuration normalises the sign to 1 or -1. */
  function Signed(sign: int, x: real): real {
    if sign >= 0 then x else -x
  }

  lemma SignedNorm(v: Dq, sign: int)
    requires sign == 1 || sign == -1
    ensures Dq(v.d, Signed(sign, v.q)).Norm() == v.Norm()
  {
    if sign == -1 {
      assert (-v.q) * (-v.q) == v.q * v.q;
    }
  }

  /** Measured at the motor, the output sign turns the torque and leaves the flux. */
  lemma SignTurnsTorque(k: real, sc: SinCos, v: Dq, sign: int)
    requires k * k == 0.75 && sc.Norm() == 1.0 && (sign == 1 || sign == -1)
    ensures DqTransform(k, sc, InverseDqTransform(k, sc, Dq(v.d, Signed(sign, v.q)))) == Dq(v.d, sign as real * v.q)
  {
    DqRoundTrip(k, sc, Dq(v.d, Signed(sign, v.q)));
  }

  /** The kVoltageDq command limits each axis on its own: a square, not the disc. */
  function LimitEachAxis(maxV: real, v: Dq): Dq {
    Dq(Limit(v.d, -maxV, maxV), Limit(v.q, -maxV, maxV))
  }

  /** It is the command nearest to the one asked for among those within the square: the identity on
      the square, and otherwise as far out as the square goes on each axis that leaves it. */
  lemma NearestInSquare(maxV: real, v: Dq, w: Dq)
    requires 0.0 <= maxV && Abs(w.d) <= maxV && Abs(w.q) <= maxV
    ensures var r := LimitEachAxis(maxV, v);
      && Abs(r.d) <= maxV && Abs(r.q) <= maxV
      && Abs(r.d - v.d) <= Abs(w.d - v.d) && Abs(r.q - v.q) <= Abs(w.q - v.q)
  {
  }

  /** What that command drives: each axis limited, then the output sign. */
  function EachAxisDriven(rate: Rate, bus: real, v: Dq, sign: int): Dq {
    var r := LimitEachAxis(rate.MaxVoltage(bus), v);
    Dq(r.d, Signed(sign, r.q))
  }

  /** When it reaches the motor unclipped: exactly when the spread of its phases fits the usable
      voltage. */
  lemma VoltageDqUnclippedIff(rate: Rate, bus: real, sc: SinCos, v: Dq, sign: int)
    requires rate.Valid() && bus > 0.0
    ensures Faithful(rate, bus, sc, EachAxisDriven(rate, bus, v, sign))
      <==> Spread(InverseDqTransform(SQRT3_4, sc, EachAxisDriven(rate, bus, v, sign))) <= rate.maxVoltageRatio * bus
  {
    FaithfulIff(rate, bus, sc, EachAxisDriven(rate, bus, v, sign));
  }

  ghost predicate FaithfulEverywhere(rate: Rate, bus: real, w: Dq)
    requires bus != 0.0
  {
    forall sc: SinCos :: sc.Norm() <= 1.0 ==> Faithful(rate, bus, sc, w)
  }

  /** When it does at every angle: exactly when the squared length of the limited vector, times
      9/4 + k^2, is at most the square of the usable voltage. */
  lemma VoltageDqEverywhereIff(rate: Rate, bus: real, v: Dq, sign: int)
    requires rate.Valid() && bus > 0.0 && (sign == 1 || sign == -1)
    ensures FaithfulEverywhere(rate, bus, EachAxisDriven(rate, bus, v, sign))
      <==> (2.25 + SQRT3_4 * SQRT3_4) * LimitEachAxis(rate.MaxVoltage(bus), v).Norm()
             <= (rate.maxVoltageRatio * bus) * (rate.maxVoltageRatio * bus)
  {
    SignedNorm(LimitEachAxis(rate.MaxVoltage(bus), v), sign);
    FullScale(rate, bus, rate.MaxVoltage(bus), rate.maxVoltageRatio * bus);
    EverywhereIff(rate, bus, EachAxisDriven(rate, bus, v, sign), rate.maxVoltageRatio * bus);
  }

  lemma EverywhereIff(rate: Rate, bus: real, w: Dq, full: real)
    requires rate.Valid() && bus > 0.0 && full == rate.maxVoltageRatio * bus && 0.0 <= full
    ensures FaithfulEverywhere(rate, bus, w) <==> Reaches(SQRT3_4, w, full)
  {
    if Reaches(SQRT3_4, w, full) {
      forall sc: SinCos | sc.Norm() <= 1.0 ensures Faithful(rate, bus, sc, w) {
        SpreadAB(SQRT3_4, sc, w, full);
        SpreadAC(SQRT3_4, sc, w, full);
        SpreadBC(SQRT3_4, sc, w, full);
        PairsSpread(InverseDqTransform(SQRT3_4, sc, w), full);
        FaithfulIff(rate, bus, sc, w);
      }
    } else {
      var sc := SomeAngleIsApart(SQRT3_4, w, full);
      FaithfulIff(rate, bus, sc, w);
    }
  }

  /** A vector in the disc of the maximum voltage passes through centring unclipped at every angle. */
  lemma DiscEverywhere(rate: Rate, bus: real, w: Dq, maxV: real)
    requires rate.Valid() && bus > 0.0 && maxV == rate.MaxVoltage(bus) && w.Norm() <= maxV * maxV
    ensures FaithfulEverywhere(rate, bus, w)
  {
    var full := rate.maxVoltageRatio * bus;
    FullScale(rate, bus, maxV, full);
    DiscReaches(w, maxV * maxV, full);
    EverywhereIff(rate, bus, w, full);
  }

  /** End to end: limit, transform, centre.  At every angle the final clamp is the identity and
      the motor sees exactly the limited voltages, for either output sign. */
  lemma NoClipping(rate: Rate, bus: real, v: Dq, root: real, sign: int, maxV: real)
    requires rate.Valid() && bus > 0.0 && (sign == 1 || sign == -1) && maxV == rate.MaxVoltage(bus)
    requires IsRoot(Headroom(maxV, v), root)
    ensures var r := LimitToMaxVoltage(maxV, v, root).0; FaithfulEverywhere(rate, bus, Dq(r.d, Signed(sign, r.q)))
  {
    FullScale(rate, bus, maxV, rate.maxVoltageRatio * bus);
    LimitedVoltage(maxV, v, root);
    var r := LimitToMaxVoltage(maxV, v, root).0;
    SignedNorm(r, sign);
    DiscEverywhere(rate, bus, Dq(r.d, Signed(sign, r.q)), maxV);
  }

  /** So does the voltage-DQ command, as long as the two limited axes together lie in the disc. */
  lemma VoltageDqInDisc(rate: Rate, bus: real, v: Dq, sign: int, maxV: real)
    requires rate.Valid() && bus > 0.0 && (sign == 1 || sign == -1) && maxV == rate.MaxVoltage(bus)
    requires LimitEachAxis(maxV, v).Norm() <= maxV * maxV
    ensures FaithfulEverywhere(rate, bus, EachAxisDriven(rate, bus, v, sign))
  {
    SignedNorm(LimitEachAxis(maxV, v), sign);
    DiscEverywhere(rate, bus, EachAxisDriven(rate, bus, v, sign), maxV);
  }

  lemma FaithfulIff(rate: Rate, bus: real, sc: SinCos, w: Dq)
    requires rate.Valid() && bus > 0.0
    ensures Faithful(rate, bus, sc, w) <==> Spread(InverseDqTransform(SQRT3_4, sc, w)) <= rate.maxVoltageRatio * bus
  {
    var phases := InverseDqTransform(SQRT3_4, sc, w);
    UnclippedIff(rate, bus, phases);
    CenteringRealises(bus, phases);
  }

  /** A corner of that square is clipped by the bridge. */
  lemma SquareCanClip(rate: Rate, bus: real)
    requires rate.Valid() && bus > 0.0 && 0.0 < rate.maxVoltageRatio
    ensures var maxV := rate.MaxVoltage(bus);
            var corner := Dq(maxV, maxV);
            LimitEachAxis(maxV, corner) == corner &&
            !InRange(rate, CenterPwm(bus, InverseDqTransform(SQRT3_4, SinCos(0.6, 0.8), corner)))
  {
    var maxV := rate.MaxVoltage(bus);
    var full := rate.maxVoltageRatio * bus;
    assert 0.0 < full;
    assert maxV == (SVPWM_RATIO * 0.5) * full;
    var p := InverseDqTransform(SQRT3_4, SinCos(0.6, 0.8), Dq(maxV, maxV));
    assert p.b - p.c == 2.0 * SQRT3_4 * 1.4 * maxV;
    UnclippedIff(rate, bus, p);
  }

  // ---------------------------------------------------------------------
  // The stage that drives the bridge
  // ---------------------------------------------------------------------

  class PwmStage {
    const rate: Rate
    const outputSign: int
    var filtBusV: real
    var epochMatches: bool   // position_.epoch == isr_motor_position_epoch_
    var faulted: bool        // mode forced to kFault with kConfigChanged
    var limited: bool        // kLimitMaxVoltage reported
    var command: Dq          // control_.d_V, control_.q_V
    var voltage: Phases      // control_.voltage
    var pwm: Phases          // control_.pwm

    ghost predicate Valid()
      reads this
    {
      rate.Valid() && filtBusV > 0.0 && (outputSign == 1 || outputSign == -1)
    }

    constructor (rate: Rate, outputSign: int, filtBusV: real)
      requires rate.Valid() && filtBusV > 0.0 && (outputSign == 1 || outputSign == -1)
      ensures Valid() && !faulted
    {
      this.rate, this.outputSign, this.filtBusV := rate, outputSign, filtBusV;
      epochMatches, faulted, limited := true, false, false;
      command, voltage, pwm := Dq(0.0, 0.0), Phases(0.0, 0.0, 0.0), Phases(0.0, 0.0, 0.0);
    }

    method DoPwmControl(duty: Phases)
      modifies `pwm
      ensures pwm == LimitPwm(rate, duty)
    {
      var a := Limit(duty.a, rate.minPwm, rate.maxPwm);
      var b := Limit(duty.b, rate.minPwm, rate.maxPwm);
      var c := Limit(duty.c, rate.minPwm, rate.maxPwm);
      pwm := Phases(a, b, c);
    }

    method DoBalancedVoltageControl(v: Phases)
      requires Valid()
      modifies `pwm, `voltage
      ensures voltage == v && pwm == LimitPwm(rate, CenterPwm(filtBusV, v))
    {
      voltage := v;
      var pwmIn := Duty(filtBusV, v);
      var pwmMin := Min(pwmIn.a, Min(pwmIn.b, pwmIn.c));
      var pwmMax := Max(pwmIn.a, Max(pwmIn.b, pwmIn.c));
      var offset := 0.5 * (pwmMin + pwmMax) - 0.5;
      DoPwmControl(Phases(pwmIn.a - offset, pwmIn.b - offset, pwmIn.c - offset));
    }

    method CalculatePhaseVoltage(sc: SinCos, v: Dq) returns (phases: Phases)
      modifies `command, `faulted
      ensures old(epochMatches) ==> command == v && faulted == old(faulted)
      ensures old(epochMatches) ==> phases == InverseDqTransform(SQRT3_4, sc, Dq(v.d, Signed(outputSign, v.q)))
      ensures !old(epochMatches) ==> command == old(command) && faulted && phases == Phases(0.0, 0.0, 0.0)
    {
      if !epochMatches {
        faulted := true;
        return Phases(0.0, 0.0, 0.0);
      }
      command := v;
      phases := InverseDqTransform(SQRT3_4, sc, Dq(v.d, Signed(outputSign, v.q)));
    }

    /** ISR_DoVoltageDQ */
    method ApplyDq(sc: SinCos, v: Dq)
      requires Valid()
      modifies `command, `faulted, `voltage, `pwm
      ensures old(epochMatches) ==> command == v && faulted == old(faulted)
      ensures old(epochMatches) ==> voltage == InverseDqTransform(SQRT3_4, sc, Dq(v.d, Signed(outputSign, v.q)))
      ensures !old(epochMatches) ==> command == old(command) && faulted && voltage == Phases(0.0, 0.0, 0.0)
      ensures pwm == LimitPwm(rate, CenterPwm(filtBusV, voltage))
    {
      var phases := CalculatePhaseVoltage(sc, v);
      DoBalancedVoltageControl(phases);
    }

    /** The voltage end of the current loop: limit, transform, centre, clamp.  The clamp
        never acts. */
    method DriveLimited(sc: SinCos, denorm: Dq, root: real)
      requires Valid() && sc.Norm() <= 1.0
      requires IsRoot(Headroom(rate.MaxVoltage(filtBusV), denorm), root)
      modifies `command, `faulted, `limited, `voltage, `pwm
      ensures limited == (old(limited) || LimitToMaxVoltage(rate.MaxVoltage(filtBusV), denorm, root).1)
      ensures old(epochMatches) ==> command == LimitToMaxVoltage(rate.MaxVoltage(filtBusV), denorm, root).0
      ensures old(epochMatches) ==>
        voltage == InverseDqTransform(SQRT3_4, sc, Dq(command.d, Signed(outputSign, command.q)))
      ensures old(epochMatches) ==> Faithful(rate, filtBusV, sc, Dq(command.d, Signed(outputSign, command.q)))
      ensures old(epochMatches) ==> pwm == CenterPwm(filtBusV, voltage)
      ensures !old(epochMatches) ==> faulted && voltage == Phases(0.0, 0.0, 0.0)
    {
      NoClipping(rate, filtBusV, denorm, root, outputSign, rate.MaxVoltage(filtBusV));
      var r := LimitToMaxVoltage(rate.MaxVoltage(filtBusV), denorm, root);
      assert Faithful(rate, filtBusV, sc, Dq(r.0.d, Signed(outputSign, r.0.q)));
      limited := limited || r.1;
      ApplyDq(sc, r.0);
    }
  }
}
