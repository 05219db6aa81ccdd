/** Homing: which output position an absolute encoder and a reference source agree on.

    Values are exact reals; an angle is only known up to a whole number of periods, so
    every statement here is about congruence and about distance. */
module Homing {
  import opened Common
  import opened OutputUnwrap

  /** std::round: halves go away from zero. */
  function Round(x: real): int { if x >= 0.0 then (x + 0.5).Floor else -((-x + 0.5).Floor) }

  function Shift(count: int, period: real): real { count as real * period }

  ghost predicate Congruent(x: real, y: real, period: real) {
    exists count :: x == y + Shift(count, period)
  }

  lemma ShiftAdds(a: int, b: int, period: real)
    ensures Shift(a, period) + Shift(b, period) == Shift(a + b, period)
    ensures -Shift(a, period) == Shift(-a, period)
  {
  }

  lemma CongruentTransitive(x: real, y: real, z: real, period: real)
    requires Congruent(x, y, period) && Congruent(y, z, period)
    ensures Congruent(x, z, period)
  {
    var a :| x == y + Shift(a, period);
    var b :| y == z + Shift(b, period);
    ShiftAdds(a, b, period);
    assert x == z + Shift(a + b, period);
  }

  lemma CongruentSymmetric(x: real, y: real, period: real)
    requires Congruent(x, y, period)
    ensures Congruent(y, x, period)
  {
    var a :| x == y + Shift(a, period);
    ShiftAdds(a, 0, period);
    assert y == x + Shift(-a, period);
  }

  // ---------------------------------------------------------------------
  // Wrapping
  // ---------------------------------------------------------------------

  function WrapCpr(value: real, cpr: real): real
    requires 0.0 < cpr
  {
    WrapWith(value, cpr, Trunc(value / cpr))
  }

  /** The remainder for a truncated quotient, moved up by one period when it is negative. */
  function WrapWith(value: real, cpr: real, divisor: int): real {
    var mod := value - divisor as real * cpr;
    if mod >= 0.0 then mod else mod + cpr
  }

  function WrapBalancedCpr(value: real, cpr: real): real
    requires 0.0 < cpr
  {
    WrapCpr(value + 1.5 * cpr, cpr) - 0.5 * cpr
  }

  lemma FractionOfPeriod(frac: real, period: real)
    requires 0.0 < period
    ensures -1.0 < frac < 0.0 ==> -period < frac * period < 0.0
    ensures 0.0 <= frac < 1.0 ==> 0.0 <= frac * period < period
    ensures -0.5 <= frac <= 0.5 ==> -0.5 * period <= frac * period <= 0.5 * period
  {
  }

  lemma QuotientIs(value: real, period: real, x: real, d: real)
    requires value == x * period
    ensures value - d * period == (x - d) * period
  {
  }

  lemma TruncIsNear(x: real)
    ensures -1.0 < x - Trunc(x) as real < 1.0
  {
  }

  lemma DivideBack(value: real, period: real)
    requires 0.0 < period
    ensures value == value / period * period
  {
  }

  /** Truncating division still gives the residue in [0, cpr), for negative values too. */
  lemma WrapCprIsResidue(value: real, cpr: real)
    requires 0.0 < cpr
    ensures 0.0 <= WrapCpr(value, cpr) < cpr
    ensures Congruent(WrapCpr(value, cpr), value, cpr)
  {
    TruncIsNear(value / cpr);
    DivideBack(value, cpr);
    WrapWithIsResidue(value, cpr, value / cpr, Trunc(value / cpr));
  }

  lemma WrapWithIsResidue(value: real, cpr: real, x: real, d: int)
    requires 0.0 < cpr && value == x * cpr && -1.0 < x - d as real < 1.0
    ensures 0.0 <= WrapWith(value, cpr, d) < cpr
    ensures Congruent(WrapWith(value, cpr, d), value, cpr)
  {
    QuotientIs(value, cpr, x, d as real);
    FractionLeft(value, cpr, d, x - d as real, value - d as real * cpr);
  }

  lemma FractionLeft(value: real, cpr: real, d: int, frac: real, mod: real)
    requires 0.0 < cpr && -1.0 < frac < 1.0 && mod == frac * cpr && mod == value - d as real * cpr
    ensures 0.0 <= WrapWith(value, cpr, d) < cpr
    ensures Congruent(WrapWith(value, cpr, d), value, cpr)
  {
    FractionOfPeriod(frac, cpr);
    ResidueOf(value, cpr, d, mod, WrapWith(value, cpr, d));
  }

  /** Putting a negative remainder back into range takes one more period. */
  lemma ResidueOf(value: real, cpr: real, d: int, mod: real, result: real)
    requires 0.0 < cpr && -cpr < mod < cpr && mod == value - d as real * cpr
    requires result == if mod >= 0.0 then mod else mod + cpr
    ensures 0.0 <= result < cpr && Congruent(result, value, cpr)
  {
    ShiftAdds(d, if mod < 0.0 then -1 else 0, cpr);
    if mod < 0.0 {
      assert result == value + Shift(1 - d, cpr);
    } else {
      assert result == value + Shift(-d, cpr);
    }
  }

  lemma BalancedIsResidue(value: real, cpr: real)
    requires 0.0 < cpr
    ensures -0.5 * cpr <= WrapBalancedCpr(value, cpr) < 0.5 * cpr
    ensures Congruent(WrapBalancedCpr(value, cpr), value, cpr)
  {
    WrapCprIsResidue(value + 1.5 * cpr, cpr);
    var a :| WrapCpr(value + 1.5 * cpr, cpr) == value + 1.5 * cpr + Shift(a, cpr);
    ShiftAdds(a, 1, cpr);
    assert WrapBalancedCpr(value, cpr) == value + Shift(a + 1, cpr);
  }

  lemma WholePeriods(count: int, period: real)
    requires 0.0 < period
    ensures count >= 1 ==> Shift(count, period) >= period
    ensures count <= -1 ==> Shift(count, period) <= -period
  {
    assert count >= 1 ==> (count - 1) as real * period >= 0.0;
    assert count <= -1 ==> (-1 - count) as real * period >= 0.0;
  }

  /** Two congruent values less than a period apart are equal. */
  lemma ResidueIsUnique(x: real, y: real, period: real)
    requires 0.0 < period && Congruent(x, y, period) && -period < x - y < period
    ensures x == y
  {
    var a :| x == y + Shift(a, period);
    WholePeriods(a, period);
  }

  lemma BalancedIsCanonical(x: real, y: real, period: real)
    requires 0.0 < period && Congruent(x, y, period)
    ensures WrapBalancedCpr(x, period) == WrapBalancedCpr(y, period)
  {
    BalancedIsResidue(x, period);
    BalancedIsResidue(y, period);
    CongruentTransitive(WrapBalancedCpr(x, period), x, y, period);
    CongruentSymmetric(WrapBalancedCpr(y, period), y, period);
    CongruentTransitive(WrapBalancedCpr(x, period), y, WrapBalancedCpr(y, period), period);
    ResidueIsUnique(WrapBalancedCpr(x, period), WrapBalancedCpr(y, period), period);
  }

  // ---------------------------------------------------------------------
  // The output encoder and the reference
  // ---------------------------------------------------------------------

  /** Configuration of the output encoder; `ratio` is both its gear ratio and its ambiguity. */
  datatype Output = Output(sign: int, ratio: real, cpr: real, offset: real) {
    predicate Valid() { (sign == 1 || sign == -1) && 0.0 < ratio && 0.0 < cpr }
  }

  function OutputAngle(c: Output, filtered: real): real
    requires c.Valid()
  {
    (filtered / c.cpr * c.ratio + c.offset) * c.sign as real
  }

  function OutputValue(c: Output, filtered: real): real
    requires c.Valid()
  {
    WrapBalancedCpr(OutputAngle(c, filtered), c.ratio)
  }

  function ReferenceAngle(c: Output, reference: real): real { (reference + c.offset) * c.sign as real }

  function ReferenceValue(c: Output, reference: real): real {
    WrapBalancedCpr(ReferenceAngle(c, reference), 1.0)
  }

  /** Of the two output angles around the reference, the closer one. */
  function FirstDisambiguation(ratio: real, reference: real, output: real): real
    requires 0.0 < ratio
  {
    var lower := (reference / ratio).Floor;
    var below := Shift(lower, ratio) + output;
    var above := Shift(lower + 1, ratio) + output;
    if Abs(below - reference) < Abs(above - reference) then below else above
  }

  function NearestTurn(value: real, first: real): real { first + Round(value - first) as real }

  function NearestStep(value: real, output: real, ratio: real): real
    requires 0.0 < ratio
  {
    output + Shift(Round((value - output) / ratio), ratio)
  }

  /** ISR_SetOutputPositionNearestHelper; `reference` is the reading of an active reference source. */
  function NearestPosition(c: Output, filtered: real, absolute: bool, reference: Option<real>, value: real): real
    requires c.Valid()
  {
    if reference.Some? && absolute && c.ratio < 1.0 then
      NearestTurn(value,
        FirstDisambiguation(c.ratio, ReferenceValue(c, reference.value), OutputValue(c, filtered)))
    else if reference.Some? && !absolute then ReferenceValue(c, reference.value)
    else NearestStep(value, OutputValue(c, filtered), c.ratio)
  }

  // ---------------------------------------------------------------------
  // What homing promises
  // ---------------------------------------------------------------------

  /** Within half a period means no congruent value is closer. */
  lemma HalfPeriodIsNearest(x: real, y: real, target: real, period: real, count: int)
    requires 0.0 < period && Congruent(x, y, period) && Abs(x - target) <= 0.5 * period
    ensures Abs(x - target) <= Abs(y + Shift(count, period) - target)
  {
    var a :| x == y + Shift(a, period);
    var other := y + Shift(count, period);
    ShiftAdds(count, -a, period);
    ShiftAdds(a, 0, period);
    assert other - x == Shift(count - a, period);
    WholePeriods(count - a, period);
  }

  /** The nearest whole number, and of two equally near ones that further from zero. */
  lemma RoundIsNear(x: real)
    ensures Abs(x - Round(x) as real) <= 0.5
    ensures Abs(x - Round(x) as real) == 0.5 ==> Abs(Round(x) as real) > Abs(x)
  {
  }

  /** The reference picks the one output angle within half a reduction step of it. */
  lemma DisambiguationIsNearest(ratio: real, reference: real, output: real)
    requires 0.0 < ratio && -0.5 * ratio <= output <= 0.5 * ratio
    ensures Congruent(FirstDisambiguation(ratio, reference, output), output, ratio)
    ensures Abs(FirstDisambiguation(ratio, reference, output) - reference) <= 0.5 * ratio
  {
    var x := reference / ratio;
    var lower := x.Floor;
    var frac := x - lower as real;
    assert reference == x * ratio;
    assert reference - Shift(lower, ratio) == frac * ratio;
    assert 0.0 <= frac * ratio <= ratio;
    ShiftAdds(lower, 1, ratio);
    assert Shift(lower + 1, ratio) == Shift(lower, ratio) + ratio;
    assert Shift(lower, ratio) + output == output + Shift(lower, ratio);
    assert Shift(lower + 1, ratio) + output == output + Shift(lower + 1, ratio);
  }

  lemma TurnIsNearest(value: real, first: real)
    ensures Congruent(NearestTurn(value, first), first, 1.0)
    ensures Abs(NearestTurn(value, first) - value) <= 0.5
  {
    RoundIsNear(value - first);
    assert NearestTurn(value, first) == first + Shift(Round(value - first), 1.0);
  }

  lemma StepIsNearest(value: real, output: real, ratio: real)
    requires 0.0 < ratio
    ensures Congruent(NearestStep(value, output, ratio), output, ratio)
    ensures Abs(NearestStep(value, output, ratio) - value) <= 0.5 * ratio
  {
    var x := (value - output) / ratio;
    var n := Round(x);
    RoundIsNear(x);
    assert value - output == x * ratio;
    var gap := x - n as real;
    FractionOfPeriod(gap, ratio);
    assert value - NearestStep(value, output, ratio) == gap * ratio;
  }

  /** With an absolute reduced encoder and a reference: some whole number of turns away from the
      final position lies the encoder angle nearest the reference, and the final position is the
      one of that family nearest the request. */
  lemma HomesToReference(c: Output, filtered: real, reference: real, value: real)
    requires c.Valid() && c.ratio < 1.0
    ensures exists first: real ::
      && Congruent(first, OutputAngle(c, filtered), c.ratio)
      && Abs(first - ReferenceValue(c, reference)) <= 0.5 * c.ratio
      && Congruent(NearestPosition(c, filtered, true, Some(reference), value), first, 1.0)
    ensures Abs(NearestPosition(c, filtered, true, Some(reference), value) - value) <= 0.5
  {
    var r := ReferenceValue(c, reference);
    var o := OutputValue(c, filtered);
    BalancedIsResidue(OutputAngle(c, filtered), c.ratio);
    DisambiguationIsNearest(c.ratio, r, o);
    var first := FirstDisambiguation(c.ratio, r, o);
    CongruentTransitive(first, o, OutputAngle(c, filtered), c.ratio);
    TurnIsNearest(value, first);
  }

  lemma TurnsAreSteps(turns: int, steps: int, ratio: real)
    requires Shift(steps, ratio) == 1.0
    ensures Shift(turns, 1.0) == Shift(turns * steps, ratio)
  {
    var s, t := steps as real, turns as real;
    assert (turns * steps) as real == t * s;
    assert t * s * ratio == t * (s * ratio);
  }

  lemma TurnsKeepAngle(position: real, first: real, angle: real, ratio: real, steps: int)
    requires Congruent(position, first, 1.0) && Congruent(first, angle, ratio) && Shift(steps, ratio) == 1.0
    ensures Congruent(position, angle, ratio)
  {
    var turns :| position == first + Shift(turns, 1.0);
    TurnsAreSteps(turns, steps, ratio);
    assert position == first + Shift(turns * steps, ratio);
    CongruentTransitive(position, first, angle, ratio);
  }

  /** When the reduction divides a turn, the final position is also an angle of the encoder. */
  lemma KeepsEncoderAngle(c: Output, filtered: real, reference: real, value: real, steps: int)
    requires c.Valid() && c.ratio < 1.0 && Shift(steps, c.ratio) == 1.0
    ensures Congruent(NearestPosition(c, filtered, true, Some(reference), value), OutputAngle(c, filtered), c.ratio)
  {
    HomesToReference(c, filtered, reference, value);
    var first: real :| Congruent(first, OutputAngle(c, filtered), c.ratio)
      && Congruent(NearestPosition(c, filtered, true, Some(reference), value), first, 1.0);
    TurnsKeepAngle(NearestPosition(c, filtered, true, Some(reference), value), first, OutputAngle(c, filtered),
      c.ratio, steps);
  }

  /** Counting whole turns keeps the encoder's angle for every request exactly when the
      reduction divides a turn. */
  lemma EncoderAngleKeptIff(c: Output, filtered: real, reference: real)
    requires c.Valid() && c.ratio < 1.0
    ensures (exists steps :: Shift(steps, c.ratio) == 1.0) <==>
      (forall value: real ::
        Congruent(NearestPosition(c, filtered, true, Some(reference), value), OutputAngle(c, filtered), c.ratio))
  {
    if steps :| Shift(steps, c.ratio) == 1.0 {
      forall value: real
        ensures Congruent(NearestPosition(c, filtered, true, Some(reference), value), OutputAngle(c, filtered), c.ratio)
      {
        KeepsEncoderAngle(c, filtered, reference, value, steps);
      }
    } else {
      var first := FirstDisambiguation(c.ratio, ReferenceValue(c, reference), OutputValue(c, filtered));
      var angle := OutputAngle(c, filtered);
      var position := NearestPosition(c, filtered, true, Some(reference), first + 1.0);
      assert position == NearestTurn(first + 1.0, first) == first + 1.0;
      BalancedIsResidue(angle, c.ratio);
      DisambiguationIsNearest(c.ratio, ReferenceValue(c, reference), OutputValue(c, filtered));
      CongruentTransitive(first, OutputValue(c, filtered), angle, c.ratio);
      if Congruent(first + 1.0, angle, c.ratio) {
        OneTurnIsSteps(first, angle, c.ratio);
      }
    }
  }

  lemma OneTurnIsSteps(first: real, angle: real, ratio: real)
    requires Congruent(first, angle, ratio) && Congruent(first + 1.0, angle, ratio)
    ensures exists steps :: Shift(steps, ratio) == 1.0
  {
    CongruentSymmetric(first, angle, ratio);
    CongruentTransitive(first + 1.0, angle, first, ratio);
    var k :| first + 1.0 == first + Shift(k, ratio);
    assert Shift(k, ratio) == 1.0;
  }

  /** A reduction of two fifths does not divide a turn: for such an encoder, whatever it and the
      reference read, some request is answered with a position that is none of its angles. */
  lemma TwoFifthsLosesAngle(c: Output, filtered: real, reference: real)
    requires c.Valid() && c.ratio == 0.4
    ensures exists value: real ::
      !Congruent(NearestPosition(c, filtered, true, Some(reference), value), OutputAngle(c, filtered), c.ratio)
  {
    EncoderAngleKeptIff(c, filtered, reference);
    forall steps: int ensures Shift(steps, c.ratio) != 1.0 {
      NotTwoAndAHalf(steps);
    }
  }

  lemma NotTwoAndAHalf(steps: int)
    ensures Shift(steps, 0.4) != 1.0
  {
    assert steps as real <= 2.0 || 3.0 <= steps as real;
  }

  /** Without a usable reference: the encoder angle nearest the request, modulo the reduction. */
  lemma HomesWithoutReference(c: Output, filtered: real, absolute: bool, reference: Option<real>, value: real)
    requires c.Valid() && (reference.None? || (absolute && c.ratio >= 1.0))
    ensures Congruent(NearestPosition(c, filtered, absolute, reference, value), OutputAngle(c, filtered), c.ratio)
    ensures Abs(NearestPosition(c, filtered, absolute, reference, value) - value) <= 0.5 * c.ratio
  {
    var o := OutputValue(c, filtered);
    BalancedIsResidue(OutputAngle(c, filtered), c.ratio);
    StepIsNearest(value, o, c.ratio);
    CongruentTransitive(NearestStep(value, o, c.ratio), o, OutputAngle(c, filtered), c.ratio);
  }

  /** With a relative encoder the position is the reference angle itself, in half a turn of zero. */
  lemma HomesRelativeEncoder(c: Output, filtered: real, reference: real, value: real)
    requires c.Valid()
    ensures Congruent(NearestPosition(c, filtered, false, Some(reference), value), ReferenceAngle(c, reference), 1.0)
    ensures -0.5 <= NearestPosition(c, filtered, false, Some(reference), value) < 0.5
  {
    BalancedIsResidue(ReferenceAngle(c, reference), 1.0);
    var some := Some(reference);
    assert NearestPosition(c, filtered, false, some, value) == ReferenceValue(c, some.value);
  }

  // ---------------------------------------------------------------------
  // The rotor latch uses the same angle
  // ---------------------------------------------------------------------

  /** encoder_ratio: the fraction of a turn, counted backwards for a negative sign. */
  function EncoderRatio(c: Output, filtered: real): real
    requires c.Valid()
  {
    if c.sign == 1 then filtered / c.cpr else 1.0 - filtered / c.cpr
  }

  /** scaled_encoder_ratio, as the firmware computes it from output_cpr_scale_. */
  function ScaledRatio(c: Output, filtered: real): real
    requires c.Valid()
  {
    var scale := c.sign as real * c.ratio / c.cpr;
    if c.sign == 1 then filtered * scale else (c.cpr - filtered) * Abs(scale)
  }

  /** The position latched from an absolute rotor encoder. */
  function LatchedPosition(c: Output, filtered: real): real
    requires c.Valid()
  {
    WrapBalancedCpr(ScaledRatio(c, filtered) + c.offset * c.sign as real, c.ratio)
  }

  lemma Scales(f: real, ratio: real, cpr: real)
    requires 0.0 < cpr && 0.0 < ratio
    ensures f * (1.0 * ratio / cpr) == f / cpr * ratio
    ensures Abs(-1.0 * ratio / cpr) == ratio / cpr
    ensures (cpr - f) * (ratio / cpr) == (1.0 - f / cpr) * ratio
  {
    var x := f / cpr;
    assert f == x * cpr;
    var y := ratio / cpr;
    assert ratio == y * cpr;
    assert -1.0 * ratio / cpr == -y by { assert -1.0 * ratio == -y * cpr; }
    assert y > 0.0;
    assert f * y == x * ratio by { assert f * y == x * cpr * y; }
    assert cpr * y == ratio;
  }

  lemma ScaledIsRatio(c: Output, filtered: real)
    requires c.Valid()
    ensures ScaledRatio(c, filtered) == EncoderRatio(c, filtered) * c.ratio
  {
    Scales(filtered, c.ratio, c.cpr);
  }

  /** Latching at power-on and homing later start from the same angle of the encoder. */
  lemma LatchAgreesWithHoming(c: Output, filtered: real)
    requires c.Valid()
    ensures LatchedPosition(c, filtered) == OutputValue(c, filtered)
  {
    ScaledIsRatio(c, filtered);
    var latched := ScaledRatio(c, filtered) + c.offset * c.sign as real;
    var x := filtered / c.cpr;
    if c.sign == 1 {
      assert latched == OutputAngle(c, filtered) + Shift(0, c.ratio);
    } else {
      assert (1.0 - x) * c.ratio == c.ratio - x * c.ratio;
      assert latched == OutputAngle(c, filtered) + Shift(1, c.ratio);
    }
    BalancedIsCanonical(latched, OutputAngle(c, filtered), c.ratio);
  }
}
