/** What one update of the output position leaves behind: which position is stored when the
    servo homes, which it keeps, and the difference that is published. */
module OutputOutcomes {
  import opened Common
  import opened OutputUnwrap
  import opened Homing
  import opened OutputPosition

  /** 2^48 raw units are one turn. */
  const TURN: real := 281474976710656.0

  // ---------------------------------------------------------------------
  // Raw units
  // ---------------------------------------------------------------------

  lemma TruncIsBelow(x: real)
    ensures -1.0 < Trunc(x) as real - x < 1.0 && Abs(Trunc(x) as real) <= Abs(x)
  {
  }

  /** Stored positions are the turns they stand for, up to what each conversion truncates. */
  lemma StoredIsNear(value: real)
    ensures -4294967296.0 < FloatToInt(value) as real - value * TURN < 4294967296.0
    ensures -16777216.0 < Quantise(value) as real - value * TURN < 16777216.0
    ensures -1.0 < DoubleToInt(value) as real - value * TURN < 1.0
  {
    TruncIsBelow(65536.0 * value);
    TruncIsBelow(16777216.0 * value);
    TruncIsBelow(value * TURN);
  }

  // ---------------------------------------------------------------------
  // Homing states
  // ---------------------------------------------------------------------

  /** Neither a velocity nor an angle: the position is lost. */
  predicate Lost(r: Reading) { !r.velocity && !r.theta }

  /** An absolute encoder is latched. */
  predicate Latches(p: Position, r: Reading) { r.velocity && r.absolute && p.homed == Relative }

  /** The reference source homes a position that is valid and not home. */
  predicate Homes(p: Position, r: Reading) {
    !Lost(r) && r.reference.Some? && (r.velocity || p.relativeValid) && p.homed != Home
  }

  function After(c: Output, step: int, p: Position, r: Reading): Position
    requires c.Valid()
  {
    Update(step, p, Digest(c, r))
  }

  /** Exactly how an update changes the homing state and what is valid. */
  lemma StateIs(c: Output, step: int, p: Position, r: Reading)
    requires c.Valid()
    ensures var u := After(c, step, p, r);
      && u.homed == (if Lost(r) then Relative else if Homes(p, r) then Home else if Latches(p, r) then Rotor else p.homed)
      && u.relativeValid == (!Lost(r) && (r.velocity || p.relativeValid))
      && u.thetaValid == (!Lost(r) && p.thetaValid)
      && u.everValid == (r.velocity || p.everValid)
  {
  }

  // ---------------------------------------------------------------------
  // The position that is stored
  // ---------------------------------------------------------------------

  /** The encoder's angle at the output, and the reference's. */
  function EncoderAngle(c: Output, r: Reading): real
    requires c.Valid()
  {
    (r.filtered / c.cpr * c.ratio + c.offset) * c.sign as real
  }

  function SourceAngle(c: Output, r: Reading): real
    requires r.reference.Some?
  {
    (r.reference.value + c.offset) * c.sign as real
  }

  /** In half a turn of zero, and whole turns from the angle `y`. */
  ghost predicate NearTurn(x: real, y: real) { Abs(x) <= 0.5 && Congruent(x, y, 1.0) }

  lemma AnglesAre(c: Output, r: Reading)
    requires c.Valid()
    ensures OutputAngle(c, r.filtered) == EncoderAngle(c, r)
    ensures r.reference.Some? ==> ReferenceAngle(c, r.reference.value) == SourceAngle(c, r)
  {
  }

  /** The stored position is whole turns from an angle of the encoder that lies within half a
      reduction step of the reference, and is itself within half a turn of zero. */
  ghost predicate HomedByBoth(raw: int, ratio: real, encoder: real, source: real) {
    exists position, angle, reference: real ::
      && raw == FloatToInt(position) && NearTurn(position, angle)
      && Congruent(angle, encoder, ratio) && Abs(angle - reference) <= 0.5 * ratio
      && NearTurn(reference, source)
  }

  /** The stored position is the encoder's own angle, within half of its ratio of zero. */
  ghost predicate HomedByEncoder(raw: int, ratio: real, encoder: real) {
    exists position: real :: raw == FloatToInt(position) && Congruent(position, encoder, ratio) && Abs(position) <= 0.5 * ratio
  }

  ghost predicate LatchedAt(raw: int, ratio: real, encoder: real) {
    exists position: real :: raw == Quantise(position) && Congruent(position, encoder, ratio) && Abs(position) <= 0.5 * ratio
  }

  ghost predicate HomedBySource(raw: int, source: real) {
    exists position: real :: raw == FloatToInt(position) && NearTurn(position, source)
  }

  lemma NearestIsStored(c: Output, step: int, p: Position, r: Reading)
    requires c.Valid() && Homes(p, r) && (p.homed == Rotor || Latches(p, r))
    ensures After(c, step, p, r).raw == FloatToInt(NearestPosition(c, r.filtered, r.absolute, r.reference, 0.0))
  {
  }

  lemma ReferenceIsNear(c: Output, reference: real)
    requires c.Valid()
    ensures NearTurn(ReferenceValue(c, reference), ReferenceAngle(c, reference))
  {
    BalancedIsResidue(ReferenceAngle(c, reference), 1.0);
  }

  lemma NearestIsByBoth(c: Output, filtered: real, reference: real, raw: int)
    requires c.Valid() && c.ratio < 1.0 && raw == FloatToInt(NearestPosition(c, filtered, true, Some(reference), 0.0))
    ensures HomedByBoth(raw, c.ratio, OutputAngle(c, filtered), ReferenceAngle(c, reference))
  {
    HomesToReference(c, filtered, reference, 0.0);
    ReferenceIsNear(c, reference);
    var first: real :| Congruent(first, OutputAngle(c, filtered), c.ratio)
      && Abs(first - ReferenceValue(c, reference)) <= 0.5 * c.ratio
      && Congruent(NearestPosition(c, filtered, true, Some(reference), 0.0), first, 1.0);
    BothAre(raw, c.ratio, OutputAngle(c, filtered), ReferenceAngle(c, reference),
            NearestPosition(c, filtered, true, Some(reference), 0.0), first, ReferenceValue(c, reference));
  }

  lemma BothAre(raw: int, ratio: real, encoder: real, source: real, position: real, angle: real, reference: real)
    requires raw == FloatToInt(position) && Congruent(angle, encoder, ratio) && NearTurn(reference, source)
    requires Congruent(position, angle, 1.0) && Abs(position - 0.0) <= 0.5 && Abs(angle - reference) <= 0.5 * ratio
    ensures HomedByBoth(raw, ratio, encoder, source)
  {
    assert NearTurn(position, angle);
  }

  /** A latched absolute encoder behind a reduction homes by both sources. */
  lemma LatchedHomesByBoth(c: Output, step: int, p: Position, r: Reading)
    requires c.Valid() && Homes(p, r) && (p.homed == Rotor || Latches(p, r)) && r.absolute && c.ratio < 1.0
    ensures HomedByBoth(After(c, step, p, r).raw, c.ratio, EncoderAngle(c, r), SourceAngle(c, r))
  {
    NearestIsStored(c, step, p, r);
    AnglesAre(c, r);
    assert r.reference == Some(r.reference.value);
    NearestIsByBoth(c, r.filtered, r.reference.value, After(c, step, p, r).raw);
  }

  lemma NearestIsByEncoder(c: Output, filtered: real, reference: Option<real>, raw: int)
    requires c.Valid() && 1.0 <= c.ratio && raw == FloatToInt(NearestPosition(c, filtered, true, reference, 0.0))
    ensures HomedByEncoder(raw, c.ratio, OutputAngle(c, filtered))
  {
    HomesWithoutReference(c, filtered, true, reference, 0.0);
    EncoderIs(raw, c.ratio, OutputAngle(c, filtered), NearestPosition(c, filtered, true, reference, 0.0));
  }

  lemma EncoderIs(raw: int, ratio: real, encoder: real, position: real)
    requires raw == FloatToInt(position) && Congruent(position, encoder, ratio) && Abs(position - 0.0) <= 0.5 * ratio
    ensures HomedByEncoder(raw, ratio, encoder)
  {
    assert position - 0.0 == position;
  }

  /** Without a reduction the encoder's own angle is stored. */
  lemma UnreducedHomesByEncoder(c: Output, step: int, p: Position, r: Reading)
    requires c.Valid() && Homes(p, r) && (p.homed == Rotor || Latches(p, r)) && r.absolute && 1.0 <= c.ratio
    ensures HomedByEncoder(After(c, step, p, r).raw, c.ratio, EncoderAngle(c, r))
  {
    NearestIsStored(c, step, p, r);
    AnglesAre(c, r);
    NearestIsByEncoder(c, r.filtered, r.reference, After(c, step, p, r).raw);
  }

  /** An encoder that was latched and is not absolute any more homes by the reference alone. */
  lemma RelativeEncoderHomesByReference(c: Output, step: int, p: Position, r: Reading)
    requires c.Valid() && Homes(p, r) && p.homed == Rotor && !r.absolute
    ensures HomedBySource(After(c, step, p, r).raw, SourceAngle(c, r))
  {
    NearestIsStored(c, step, p, r);
    AnglesAre(c, r);
    ReferenceIsNear(c, r.reference.value);
  }

  /** A position that was never latched homes by the reference alone. */
  lemma RelativeHomesByReference(c: Output, step: int, p: Position, r: Reading)
    requires c.Valid() && Homes(p, r) && p.homed == Relative && !Latches(p, r)
    ensures exists position: real :: After(c, step, p, r).raw == DoubleToInt(position) && NearTurn(position, SourceAngle(c, r))
  {
    AnglesAre(c, r);
    ReferenceIsNear(c, r.reference.value);
    assert After(c, step, p, r).raw == DoubleToInt(ReferenceValue(c, r.reference.value));
  }

  lemma LatchIsAngle(c: Output, filtered: real, raw: int)
    requires c.Valid() && raw == Quantise(LatchedPosition(c, filtered))
    ensures LatchedAt(raw, c.ratio, OutputAngle(c, filtered))
  {
    LatchAgreesWithHoming(c, filtered);
    BalancedIsResidue(OutputAngle(c, filtered), c.ratio);
  }

  /** Latching stores the encoder's own angle, within half a reduction step of zero. */
  lemma LatchStoresAngle(c: Output, step: int, p: Position, r: Reading)
    requires c.Valid() && Latches(p, r) && !Homes(p, r)
    ensures LatchedAt(After(c, step, p, r).raw, c.ratio, EncoderAngle(c, r))
  {
    AnglesAre(c, r);
    LatchIsAngle(c, r.filtered, After(c, step, p, r).raw);
  }

  /** Anything else keeps the absolute position in step with the relative one: it moves by exactly
      as much, and stays where it is without a velocity. */
  lemma OtherwiseMovesAlong(c: Output, step: int, p: Position, r: Reading)
    requires c.Valid() && !Latches(p, r) && !Homes(p, r)
    ensures var u := After(c, step, p, r);
      if r.velocity then u.raw == WrappingAdd(p.raw, WrappingSub(u.relative, p.relative))
      else u.raw == p.raw && u.relative == p.relative && u.modulo == p.modulo
  {
  }

  /** Homing changes the absolute position only. */
  lemma RelativeIsTracked(c: Output, step: int, p: Position, r: Reading)
    requires c.Valid() && r.velocity
    ensures var u, t := After(c, step, p, r), Track(step, p, Digest(c, r)); u.relative == t.relative && u.modulo == t.modulo
  {
  }

  // ---------------------------------------------------------------------
  // The published difference
  // ---------------------------------------------------------------------

  /** The high word of absolute minus relative. */
  function Difference(p: Position): int { WrappingSub(p.raw, p.relative) / 0x1_0000_0000 }

  /** The published difference is that of the positions stored, except in the one cycle that
      homes: there it is that of the position before homing. */
  lemma DifferenceIsPublished(c: Output, step: int, p: Position, r: Reading)
    requires c.Valid() && !Lost(r) && !Homes(p, r)
    ensures After(c, step, p, r).delta == Difference(After(c, step, p, r))
  {
  }

  /** So it catches up in the cycle after, and a source that is lost leaves it as it was. */
  lemma DifferenceLagsHoming(c: Output, step: int, p: Position, r: Reading, next: Reading)
    requires c.Valid() && Homes(p, r)
    ensures var u := After(c, step, p, r);
      && (!Latches(p, r) && !r.velocity ==> u.delta == Difference(p))
      && (!Lost(next) ==> After(c, step, u, next).delta == Difference(After(c, step, u, next)))
      && (Lost(next) && !next.velocity ==> After(c, step, u, next).delta == u.delta)
  {
    StateIs(c, step, p, r);
    if !Lost(next) {
      DifferenceIsPublished(c, step, After(c, step, p, r), next);
    }
  }
}
