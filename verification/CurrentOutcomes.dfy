/** How much of a requested current the limits leave: the tightest of them, each by itself. */
module CurrentOutcomes {
  import opened Common
  import opened CurrentLimits
  import opened VoltageControl

  // ---------------------------------------------------------------------
  // The limits one by one
  // ---------------------------------------------------------------------

  /** How far the output is beyond the bound that the current drives it away from. */
  function Beyond(c: Config, s: Sensors, iQ: real): real {
    if iQ > 0.0 && c.positionMax.Some? && s.position > c.positionMax.value then s.position - c.positionMax.value
    else if iQ < 0.0 && c.positionMin.Some? && s.position < c.positionMin.value then c.positionMin.value - s.position
    else 0.0
  }

  /** What the position bounds leave of the request. */
  function PositionLeft(c: Config, s: Sensors, ignoreBounds: bool, iQ: real): real
    requires c.Valid()
  {
    iQ * PositionShare(c, s, ignoreBounds, iQ)
  }

  /** The share of the current that the position bounds leave: all of it inside or inwards, none
      from the derating width on, and linearly less in between. */
  function PositionShare(c: Config, s: Sensors, ignoreBounds: bool, iQ: real): real
    requires c.Valid()
  {
    var beyond := Beyond(c, s, iQ);
    if ignoreBounds then 1.0 else if beyond >= c.positionDerate then 0.0 else 1.0 - beyond / c.positionDerate
  }

  /** The current that the velocity leaves for driving on: anything below the maximum velocity,
      none from the derating width on, and linearly less of the maximum current in between. */
  function VelocityCap(c: Config, s: Sensors): Option<real>
    requires c.Valid()
  {
    var over := Abs(s.velocity) - c.maxVelocity;
    if over < 0.0 then None
    else if over >= c.maxVelocityDerate then Some(0.0)
    else Some(c.maxCurrent * (1.0 - over / c.maxVelocityDerate))
  }

  /** The velocity's cap, for a current in the direction of the request. */
  function DriveCap(c: Config, s: Sensors, iQ: real): Option<real>
    requires c.Valid()
  {
    if s.velocity * iQ < 0.0 then None else VelocityCap(c, s)
  }

  /** How far the hotter of the sensors is into its derating. */
  function Heat(c: Config, s: Sensors): real
    requires c.Valid()
  {
    var fet := (s.fetTemp - c.derateTemperature) / c.temperatureMargin;
    if c.motorDerateTemperature.None? then fet
    else Max(fet, (s.motorTemp - c.motorDerateTemperature.value) / c.motorTemperatureMargin)
  }

  /** The current that the temperatures leave, between the full and the derated current. */
  function HeatCap(c: Config, s: Sensors): real
    requires c.Valid()
  {
    var w := Heat(c, s);
    Max(0.0, Min(c.maxCurrent, (1.0 - w) * c.maxCurrent + w * c.derateCurrent))
  }

  /** At most `cap` in either direction. */
  function Capped(amps: real, cap: Option<real>): real {
    if cap.None? then amps else Limit(amps, -cap.value, cap.value)
  }

  /** What the limits leave of the q current before the power limit. */
  function QLeft(c: Config, s: Sensors, ignoreBounds: bool, iQ: real): real
    requires c.Valid()
  {
    Capped(Capped(PositionLeft(c, s, ignoreBounds, iQ), DriveCap(c, s, iQ)), Some(HeatCap(c, s)))
  }

  /** What is reported for it: the last limit that took something away. */
  function QCode(c: Config, s: Sensors, ignoreBounds: bool, iQ: real): Code
    requires c.Valid()
  {
    LastCode(c, s, PositionLeft(c, s, ignoreBounds, iQ), DriveCap(c, s, iQ),
             if !ignoreBounds && Beyond(c, s, iQ) > 0.0 then LimitPositionBounds else Success)
  }

  function LastCode(c: Config, s: Sensors, amps: real, cap: Option<real>, earlier: Code): Code
    requires c.Valid()
  {
    if Abs(Capped(amps, cap)) > HeatCap(c, s) then HeatCode(c, s)
    else if Capped(amps, cap) != amps then (if Abs(s.velocity) > c.maxVelocity then LimitMaxVelocity else LimitMaxCurrent)
    else earlier
  }

  function HeatCode(c: Config, s: Sensors): Code
    requires c.Valid()
  {
    var fet := (s.fetTemp - c.derateTemperature) / c.temperatureMargin;
    if c.motorDerateTemperature.Some? && Heat(c, s) > fet then LimitMotorTemperature
    else if s.fetTemp > c.derateTemperature then LimitFetTemperature
    else LimitMaxCurrent
  }

  function DCode(c: Config, s: Sensors, iD: real, fw: Weakening): Code
    requires c.Valid()
  {
    if Abs(iD + fw.amps) > HeatCap(c, s) then HeatCode(c, s)
    else if fw.enabled && fw.amps != 0.0 then LimitFieldWeakening
    else Success
  }

  // ---------------------------------------------------------------------
  // The chain is the tightest of them
  // ---------------------------------------------------------------------

  lemma OverOne(x: real, width: real)
    requires 0.0 < width
    ensures x / width >= 1.0 <==> x >= width
    ensures x / width > 0.0 <==> x > 0.0
    ensures x / width >= 0.0 <==> x >= 0.0
  {
    var q := x / width;
    assert q * width == x;
  }

  lemma PositionLeaves(c: Config, s: Sensors, ignoreBounds: bool, iQ: real)
    requires c.Valid()
    ensures PositionStage(c, s, ignoreBounds, Limited(iQ, Success)) ==
      Limited(PositionLeft(c, s, ignoreBounds, iQ), if !ignoreBounds && Beyond(c, s, iQ) > 0.0 then LimitPositionBounds else Success)
  {
    OverOne(Beyond(c, s, iQ), c.positionDerate);
  }

  lemma VelocityLeaves(c: Config, s: Sensors, x: Limited, iQ: real)
    requires c.Valid() && Shrinks(iQ, x.amps)
    ensures var y, left := VelocityStage(c, s, x), Capped(x.amps, DriveCap(c, s, iQ));
      && y.amps == left
      && y.code == if left == x.amps then x.code
                   else if Abs(s.velocity) > c.maxVelocity then LimitMaxVelocity else LimitMaxCurrent
  {
    OverOne(Abs(s.velocity) - c.maxVelocity, c.maxVelocityDerate);
    SameDirection(s.velocity, iQ, x.amps);
  }

  lemma SameDirection(v: real, iQ: real, amps: real)
    requires Shrinks(iQ, amps)
    ensures v * amps < 0.0 ==> v * iQ < 0.0
    ensures v * iQ < 0.0 ==> v * amps < 0.0 || amps == 0.0
  {
  }

  lemma HeatLeaves(c: Config, s: Sensors, x: Limited)
    requires c.Valid()
    ensures EffectiveMax(c, s) == HeatCap(c, s) && 0.0 <= HeatCap(c, s)
    ensures EitherStage(c, s, x) ==
      Limited(Capped(x.amps, Some(HeatCap(c, s))), if Abs(x.amps) > HeatCap(c, s) then HeatCode(c, s) else x.code)
  {
    OverOne(s.fetTemp - c.derateTemperature, c.temperatureMargin);
    HeatMixes(Heat(c, s), c.maxCurrent, c.derateCurrent);
  }

  lemma HeatMixes(w: real, full: real, derated: real)
    ensures w * (derated - full) + full == (1.0 - w) * full + w * derated
  {
  }

  lemma LaterAmps(c: Config, s: Sensors, x: Limited, iQ: real)
    requires c.Valid() && Shrinks(iQ, x.amps)
    ensures EitherStage(c, s, VelocityStage(c, s, x)).amps == Capped(Capped(x.amps, DriveCap(c, s, iQ)), Some(HeatCap(c, s)))
  {
    VelocityLeaves(c, s, x, iQ);
    HeatLeaves(c, s, VelocityStage(c, s, x));
  }

  lemma LaterCode(c: Config, s: Sensors, x: Limited, iQ: real)
    requires c.Valid() && Shrinks(iQ, x.amps)
    ensures EitherStage(c, s, VelocityStage(c, s, x)).code == LastCode(c, s, x.amps, DriveCap(c, s, iQ), x.code)
  {
    VelocityLeaves(c, s, x, iQ);
    HeatLeaves(c, s, VelocityStage(c, s, x));
  }

  lemma QIsLeftFrom(c: Config, s: Sensors, ignoreBounds: bool, iQ: real, x: Limited, p: real)
    requires c.Valid() && x == PositionStage(c, s, ignoreBounds, Limited(iQ, Success)) && x.amps == p && Shrinks(iQ, p)
    ensures QAxis(c, s, ignoreBounds, iQ).amps == Capped(Capped(p, DriveCap(c, s, iQ)), Some(HeatCap(c, s)))
  {
    LaterAmps(c, s, x, iQ);
  }

  lemma QIsLeft(c: Config, s: Sensors, ignoreBounds: bool, iQ: real)
    requires c.Valid()
    ensures QAxis(c, s, ignoreBounds, iQ).amps == QLeft(c, s, ignoreBounds, iQ)
  {
    var x := PositionStage(c, s, ignoreBounds, Limited(iQ, Success));
    PositionLeaves(c, s, ignoreBounds, iQ);
    PositionShrinks(c, s, ignoreBounds, Limited(iQ, Success));
    QIsLeftFrom(c, s, ignoreBounds, iQ, x, x.amps);
  }

  lemma QSays(c: Config, s: Sensors, ignoreBounds: bool, iQ: real)
    requires c.Valid()
    ensures QAxis(c, s, ignoreBounds, iQ).code == QCode(c, s, ignoreBounds, iQ)
  {
    PositionLeaves(c, s, ignoreBounds, iQ);
    PositionShrinks(c, s, ignoreBounds, Limited(iQ, Success));
    LaterCode(c, s, PositionStage(c, s, ignoreBounds, Limited(iQ, Success)), iQ);
  }

  /** What reaches the power limit. */
  function Reaching(c: Config, s: Sensors, ignoreBounds: bool, iD: real, fw: Weakening, iQ: real): Command
    requires c.Valid()
  {
    var code := QCode(c, s, ignoreBounds, iQ);
    Command(Capped(iD + fw.amps, Some(HeatCap(c, s))), QLeft(c, s, ignoreBounds, iQ),
            if code != Success then code else DCode(c, s, iD, fw))
  }

  /** Both currents are scaled by the same share, so that the power is at its limit, when it
      would be at or over it; and left alone otherwise. */
  predicate AtMostPower(maxPower: real, oldD: real, oldQ: real, x: Command, y: Command) {
    var used := 1.5 * Abs(oldQ * x.iQ + oldD * x.iD);
    if used < maxPower then y == x
    else y.iQ * used == x.iQ * maxPower && y.iD * used == x.iD * maxPower && y.code == LimitMaxPower
  }

  lemma PowerLeaves(maxPower: real, oldD: real, oldQ: real, x: Command)
    requires 0.0 < maxPower
    ensures AtMostPower(maxPower, oldD, oldQ, x, PowerStage(maxPower, oldD, oldQ, x))
  {
    var used := Abs(Power(oldD, oldQ, x.iD, x.iQ));
    PowerUsed(oldD, oldQ, x.iD, x.iQ);
    if used >= maxPower {
      ScaleBack(x.iQ, maxPower, used);
      ScaleBack(x.iD, maxPower, used);
    }
  }

  lemma PowerUsed(oldD: real, oldQ: real, d: real, q: real)
    ensures Abs(Power(oldD, oldQ, d, q)) == 1.5 * Abs(oldQ * q + oldD * d)
  {
  }

  lemma ScaleBack(x: real, limit: real, used: real)
    requires 0.0 < used
    ensures x * (limit / used) * used == x * limit
  {
    QuotientBack(limit, used);
  }

  lemma DIsLeft(c: Config, s: Sensors, iD: real, fw: Weakening)
    requires c.Valid()
    ensures DAxis(c, s, iD, fw) == Limited(Capped(iD + fw.amps, Some(HeatCap(c, s))), DCode(c, s, iD, fw))
  {
    HeatLeaves(c, s, Limited(iD + fw.amps, fw.Code()));
  }

  lemma Reaches(c: Config, s: Sensors, ignoreBounds: bool, iD: real, fw: Weakening, iQ: real, q: Limited, d: Limited)
    requires c.Valid() && q == QAxis(c, s, ignoreBounds, iQ) && d == DAxis(c, s, iD, fw)
    ensures Command(d.amps, q.amps, if q.code == Success then d.code else q.code) ==
      Reaching(c, s, ignoreBounds, iD, fw, iQ)
  {
    QIsLeft(c, s, ignoreBounds, iQ);
    QSays(c, s, ignoreBounds, iQ);
    DIsLeft(c, s, iD, fw);
  }

  /** The whole chain, exactly: on the q axis what the position bounds, the velocity and the
      temperature leave of the request, on the d axis what the temperature leaves of the request
      and the field weakening, with the code of the last limit that took something away; and
      both scaled to the power limit. */
  lemma LimitsAreTightest(c: Config, s: Sensors, ignoreBounds: bool, iD: real, fw: Weakening, iQ: real,
                          maxPower: real, oldD: real, oldQ: real)
    requires c.Valid() && 0.0 < maxPower
    ensures AtMostPower(maxPower, oldD, oldQ, Reaching(c, s, ignoreBounds, iD, fw, iQ),
                        LimitCurrents(c, s, ignoreBounds, iD, fw, iQ, maxPower, oldD, oldQ))
  {
    Reaches(c, s, ignoreBounds, iD, fw, iQ, QAxis(c, s, ignoreBounds, iQ), DAxis(c, s, iD, fw));
    PowerLeaves(maxPower, oldD, oldQ, Reaching(c, s, ignoreBounds, iD, fw, iQ));
  }

  // ---------------------------------------------------------------------
  // What that means at the bounds
  // ---------------------------------------------------------------------

  /** Scaling keeps a zero, and takes nothing back of what was taken. */
  lemma PowerOnlyTakes(maxPower: real, oldD: real, oldQ: real, x: Command)
    requires 0.0 < maxPower
    ensures var y := PowerStage(maxPower, oldD, oldQ, x);
      Shrinks(x.iQ, y.iQ) && Shrinks(x.iD, y.iD) && (x.code != Success ==> y.code != Success)
  {
    PowerLimited(maxPower, oldD, oldQ, x);
  }

  lemma CapTakes(amps: real, cap: Option<real>)
    requires cap.Some? ==> 0.0 <= cap.value
    ensures Shrinks(amps, Capped(amps, cap))
  {
  }

  lemma VelocityCapIsCap(c: Config, s: Sensors)
    requires c.Valid() && VelocityCap(c, s).Some?
    ensures 0.0 <= VelocityCap(c, s).value
  {
    var over := Abs(s.velocity) - c.maxVelocity;
    OverOne(over, c.maxVelocityDerate);
    if over < c.maxVelocityDerate {
      NonNegativeShare(c.maxCurrent, 1.0 - over / c.maxVelocityDerate);
    }
  }

  lemma NonNegativeShare(x: real, share: real)
    requires 0.0 <= x && 0.0 <= share
    ensures 0.0 <= x * share
  {
  }

  lemma ShrinksOn(x: real, y: real, z: real)
    requires Shrinks(x, y) && Shrinks(y, z)
    ensures Shrinks(x, z)
  {
  }

  lemma CapsTake(p: real, v: Option<real>, h: real)
    requires (v.Some? ==> 0.0 <= v.value) && 0.0 <= h
    ensures Shrinks(p, Capped(Capped(p, v), Some(h)))
  {
    CapTakes(p, v);
    CapTakes(Capped(p, v), Some(h));
    ShrinksOn(p, Capped(p, v), Capped(Capped(p, v), Some(h)));
  }

  lemma DriveCapIsCap(c: Config, s: Sensors, iQ: real)
    requires c.Valid() && DriveCap(c, s, iQ).Some?
    ensures 0.0 <= DriveCap(c, s, iQ).value
  {
    VelocityCapIsCap(c, s);
  }

  lemma LaterTakes(c: Config, s: Sensors, iQ: real, p: real)
    requires c.Valid()
    ensures Shrinks(p, Capped(Capped(p, DriveCap(c, s, iQ)), Some(HeatCap(c, s))))
  {
    if DriveCap(c, s, iQ).Some? {
      DriveCapIsCap(c, s, iQ);
    }
    CapsTake(p, DriveCap(c, s, iQ), HeatCap(c, s));
  }

  /** Outside the bounds and driving further out, no more than the share of the position bounds
      is left, whatever the other limits do, and the servo says so. */
  lemma OutwardsIsLimited(c: Config, s: Sensors, iD: real, fw: Weakening, iQ: real, maxPower: real, oldD: real, oldQ: real)
    requires c.Valid() && 0.0 < maxPower && 0.0 < Beyond(c, s, iQ)
    ensures var y := LimitCurrents(c, s, false, iD, fw, iQ, maxPower, oldD, oldQ);
      Shrinks(PositionLeft(c, s, false, iQ), y.iQ) && y.code != Success
  {
    var x := Reaching(c, s, false, iD, fw, iQ);
    Reaches(c, s, false, iD, fw, iQ, QAxis(c, s, false, iQ), DAxis(c, s, iD, fw));
    PowerOnlyTakes(maxPower, oldD, oldQ, x);
    LaterTakes(c, s, iQ, PositionLeft(c, s, false, iQ));
    ShrinksOn(PositionLeft(c, s, false, iQ), x.iQ, PowerStage(maxPower, oldD, oldQ, x).iQ);
    CodeOutside(c, s, iQ);
  }

  lemma CodeOutside(c: Config, s: Sensors, iQ: real)
    requires c.Valid() && 0.0 < Beyond(c, s, iQ)
    ensures QCode(c, s, false, iQ) != Success
  {
  }

  /** From the derating width on, nothing drives the output further out at all. */
  lemma NothingBeyondTheWidth(c: Config, s: Sensors, iD: real, fw: Weakening, iQ: real, maxPower: real, oldD: real, oldQ: real)
    requires c.Valid() && 0.0 < maxPower && c.positionDerate <= Beyond(c, s, iQ)
    ensures var y := LimitCurrents(c, s, false, iD, fw, iQ, maxPower, oldD, oldQ); y.iQ == 0.0 && y.code != Success
  {
    OutwardsIsLimited(c, s, iD, fw, iQ, maxPower, oldD, oldQ);
    ZeroShare(c, s, iQ);
  }

  lemma ZeroShare(c: Config, s: Sensors, iQ: real)
    requires c.Valid() && c.positionDerate <= Beyond(c, s, iQ)
    ensures PositionLeft(c, s, false, iQ) == 0.0
  {
  }
}
