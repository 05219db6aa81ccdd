/** The output position of a servo: unwrapped relative position, absolute position and homing. */
module OutputPosition {
  import opened Common
  import opened OutputUnwrap
  import opened Homing

  datatype Homed = Relative | Rotor | Home

  /** What one cycle sees: the output encoder and, when it is active, the reference source. */
  datatype Reading = Reading(
    filtered: real,
    theta: bool,
    velocity: bool,
    absolute: bool,
    reference: Option<real>)

  /** A reading in raw units: its fraction of a turn and the positions it can stand for. */
  datatype Sample = Sample(
    theta: bool,
    velocity: bool,
    absolute: bool,
    referenced: bool,
    ratio: real,       // encoder_ratio
    quantised: int,    // scaled_int_encoder_ratio
    latched: int,      // position of an absolute rotor encoder at power-on
    nearest: int,      // position nearest to zero
    referenceAngle: int)

  function FloatToInt(value: real): int { 0x1_0000_0000 * Trunc(65536.0 * value) }

  function DoubleToInt(value: real): int { Trunc(value * 281474976710656.0) }

  function Digest(c: Output, r: Reading): Sample
    requires c.Valid()
  {
    Sample(r.theta, r.velocity, r.absolute, r.reference.Some?,
      EncoderRatio(c, r.filtered), Quantise(ScaledRatio(c, r.filtered)), Quantise(LatchedPosition(c, r.filtered)),
      FloatToInt(NearestPosition(c, r.filtered, r.absolute, r.reference, 0.0)),
      if r.reference.Some? then DoubleToInt(ReferenceValue(c, r.reference.value)) else 0)
  }

  /** The position fields of MotorPosition::Status. */
  datatype Position = Position(
    everValid: bool,
    relativeValid: bool,
    thetaValid: bool,
    modulo: int,
    relative: int,
    raw: int,
    homed: Homed,
    delta: int)

  // ---------------------------------------------------------------------
  // Specification of one cycle
  // ---------------------------------------------------------------------

  /** Positions for a new modulo and quantised reading. */
  function Follow(p: Position, modulo: int, q: int): Position {
    var relative := WrappingAdd(modulo, q);
    p.(everValid := true, relativeValid := true, modulo := modulo, relative := relative,
       raw := WrappingAdd(p.raw, WrappingSub(relative, p.relative)))
  }

  /** The relative part: unwrap the encoder and move both positions by the same amount. */
  function Track(step: int, p: Position, x: Sample): Position {
    Follow(p, Rebase(step, x.ratio, if p.everValid then p.modulo else -x.quantised, p.relative), x.quantised)
  }

  function Latch(p: Position, x: Sample): Position {
    if x.absolute && p.homed == Relative then p.(raw := x.latched, homed := Rotor) else p
  }

  function Reference(p: Position, x: Sample): Position {
    if !x.referenced || !p.relativeValid || p.homed == Home then p
    else p.(raw := if p.homed == Rotor then x.nearest else x.referenceAngle, homed := Home)
  }

  function Update(step: int, p: Position, x: Sample): Position {
    var t := if x.velocity then Latch(Track(step, p, x), x) else p;
    if !x.velocity && !x.theta then t.(relativeValid := false, thetaValid := false, homed := Relative)
    else Reference(t.(delta := WrappingSub(t.raw, t.relative) / 0x1_0000_0000), x)
  }

  function Next(step: int): (Position, Sample) -> Position { (p, x) => Update(step, p, x) }

  function Fold(next: (Position, Sample) -> Position, p: Position, xs: seq<Sample>): Position {
    if xs == [] then p else next(Fold(next, p, xs[..|xs| - 1]), xs[|xs| - 1])
  }

  /** The state after a run of samples. */
  function Run(step: int, p: Position, xs: seq<Sample>): Position { Fold(Next(step), p, xs) }

  lemma RunStep(step: int, p: Position, xs: seq<Sample>, n: nat)
    requires 0 < n <= |xs|
    ensures Run(step, p, xs[..n]) == Update(step, Run(step, p, xs[..n - 1]), xs[n - 1])
  {
    assert xs[..n][..n - 1] == xs[..n - 1];
  }

  // ---------------------------------------------------------------------
  // The firmware's in-place form
  // ---------------------------------------------------------------------

  class MotorPosition {
    const config: Output
    const step: int
    var everValid: bool
    var relativeValid: bool
    var thetaValid: bool
    var modulo: int
    var relative: int
    var raw: int
    var homed: Homed
    var delta: int

    predicate Valid() { config.Valid() && step == StepOf(config.ratio) }

    function View(): Position
      reads this
    {
      Position(everValid, relativeValid, thetaValid, modulo, relative, raw, homed, delta)
    }

    constructor (c: Output)
      requires c.Valid()
      ensures Valid() && config == c
      ensures View() == Position(false, false, false, 0, 0, 0, Relative, 0)
    {
      config, step := c, StepOf(c.ratio);
      everValid, relativeValid, thetaValid := false, false, false;
      modulo, relative, raw, homed, delta := 0, 0, 0, Relative, 0;
    }

    /** A reading on the other side of the encoder's end moves the modulo by a whole step. */
    method FollowTurn(ratio: real)
      modifies this`modulo
      ensures modulo == Rebase(step, ratio, old(modulo), relative)
    {
      var moduloDelta := WrappingSub(relative, modulo);
      if Low(step, moduloDelta) && ratio > 0.75 {
        modulo := WrappingSub(modulo, step);
      } else if High(step, moduloDelta) && ratio < 0.25 {
        modulo := WrappingAdd(modulo, step);
      }
    }

    /** Takes in a reading already on the position's scale. */
    method TakeIn(ratio: real, scaled: int, ghost x: Sample)
      requires x.ratio == ratio && x.quantised == scaled
      modifies this
      ensures View() == Track(step, old(View()), x)
    {
      if !everValid {
        modulo := -scaled;
      }
      relativeValid := true;
      everValid := true;
      var oldRelative := relative;
      FollowTurn(ratio);
      relative := WrappingAdd(modulo, scaled);
      raw := WrappingAdd(raw, WrappingSub(relative, oldRelative));
    }

    method TrackEncoder(filtered: real, ghost x: Sample)
      requires Valid() && x.ratio == EncoderRatio(config, filtered) && x.quantised == Quantise(ScaledRatio(config, filtered))
      modifies this
      ensures View() == Track(step, old(View()), x)
    {
      TakeIn(EncoderRatio(config, filtered), Quantise(ScaledRatio(config, filtered)), x);
    }

    method SetOutputPosition(value: real)
      modifies this`raw, this`homed
      ensures raw == DoubleToInt(value) && homed == Home
    {
      raw := DoubleToInt(value);
      homed := Home;
    }

    /** Ignored when nothing absolute is active. */
    method SetOutputPositionNearest(r: Reading, value: real)
      requires Valid()
      modifies this`raw, this`homed
      ensures !r.absolute && r.reference.None? ==> View() == old(View())
      ensures r.absolute || r.reference.Some? ==> homed == Home
      ensures r.absolute || r.reference.Some? ==>
        raw == FloatToInt(NearestPosition(config, r.filtered, r.absolute, r.reference, value))
    {
      if !r.absolute && r.reference.None? {
        return;
      }
      raw := FloatToInt(NearestPosition(config, r.filtered, r.absolute, r.reference, value));
      homed := Home;
    }

    method UpdateOutput(r: Reading)
      requires Valid()
      modifies this
      ensures View() == Update(step, old(View()), Digest(config, r))
    {
      if r.velocity {
        TrackEncoder(r.filtered, Digest(config, r));
        if r.absolute && homed == Relative {
          raw := Quantise(LatchedPosition(config, r.filtered));
          homed := Rotor;
        }
      }
      if !r.velocity && !r.theta {
        relativeValid, thetaValid, homed := false, false, Relative;
        return;
      }
      delta := WrappingSub(raw, relative) / 0x1_0000_0000;
      if r.reference.Some? && relativeValid && homed != Home {
        if homed == Rotor {
          SetOutputPositionNearest(r, 0.0);
        } else {
          SetOutputPosition(ReferenceValue(config, r.reference.value));
        }
      }
    }
  }

  // ---------------------------------------------------------------------
  // Unwrapping one sample
  // ---------------------------------------------------------------------

  /** A sample that agrees with its quantised form. */
  predicate Sound(step: int, reach: real, x: Sample) { x.velocity && Sorted(step, reach, x.ratio, x.quantised) }

  lemma FractionOnScale(filtered: real, cpr: real)
    requires 0.0 < cpr && 0.0 <= filtered <= cpr
    ensures 0.0 <= filtered / cpr <= 1.0
  {
  }

  /** Every active reading on the encoder's scale gives a sound sample. */
  lemma DigestIsSound(c: Output, r: Reading, reach: real)
    requires c.Valid() && r.velocity && 0.0 <= r.filtered <= c.cpr && Resolves(StepOf(c.ratio), reach)
    ensures Sound(StepOf(c.ratio), reach, Digest(c, r))
  {
    FractionOnScale(r.filtered, c.cpr);
    ScaledIsRatio(c, r.filtered);
    QuantiseIsNear(EncoderRatio(c, r.filtered), c.ratio, ScaledRatio(c, r.filtered), StepOf(c.ratio));
    Thresholds(StepOf(c.ratio), reach, EncoderRatio(c, r.filtered), Quantise(ScaledRatio(c, r.filtered)));
  }

  /** The tracker agrees with the last accepted sample. */
  predicate Tracks(p: Position, x: Sample) {
    p.everValid && -HALF_WORD <= p.modulo < HALF_WORD && p.relative == Wrap64(p.modulo + x.quantised)
  }

  /** The encoder's unwrapped position after whole turns, in raw units. */
  function Unwrapped(step: int, x: Sample, turn: int): int { Steps(step, turn) + x.quantised }

  /** The encoder moved less than `reach` turns. */
  predicate Close(x: Sample, t0: int, y: Sample, t1: int, reach: real) {
    -reach < (t1 as real + y.ratio) - (t0 as real + x.ratio) < reach
  }

  lemma FollowMoves(p: Position, shift: int, q0: int, q1: int, moved: int)
    requires p.relative == Wrap64(p.modulo + q0) && moved == shift + q1 - q0
    ensures Follow(p, Wrap64(p.modulo + shift), q1).relative == Wrap64(p.relative + moved)
    ensures Follow(p, Wrap64(p.modulo + shift), q1).raw == Wrap64(p.raw + moved)
  {
    RelativeMoves(p.modulo, shift, q0, q1, moved);
    RawMoves(p.raw, p.relative, moved);
  }

  /** Where a sample leads: the modulo by whole encoder steps, both positions by the same distance. */
  predicate Moved(p: Position, next: Position, shift: int, moved: int) {
    next.modulo == Wrap64(p.modulo + shift) && next.relative == Wrap64(p.relative + moved)
    && next.raw == Wrap64(p.raw + moved) && next.homed == p.homed
  }

  lemma RebaseStep(step: int, p: Position, x: Sample, t0: int, y: Sample, t1: int, reach: real)
    requires 0.0 < reach <= 0.25 && Sound(step, reach, x) && Sound(step, reach, y)
    requires Tracks(p, x) && Close(x, t0, y, t1, reach)
    ensures -1 <= t1 - t0 <= 1
    ensures Rebase(step, y.ratio, p.modulo, p.relative) == Wrap64(p.modulo + Crossing(step, t1 - t0))
  {
    RebaseFollows(step, reach, x.ratio, x.quantised, y.ratio, t1 - t0, p.modulo, p.relative);
  }

  lemma RebasedMoves(step: int, p: Position, x: Sample, y: Sample, turn: int, moved: int)
    requires Tracks(p, x) && moved == Crossing(step, turn) + y.quantised - x.quantised
    requires Rebase(step, y.ratio, p.modulo, p.relative) == Wrap64(p.modulo + Crossing(step, turn))
    ensures Tracks(Track(step, p, y), y)
    ensures Moved(p, Track(step, p, y), Crossing(step, turn), moved)
  {
    FollowMoves(p, Crossing(step, turn), x.quantised, y.quantised, moved);
  }

  lemma TravelIsCrossing(step: int, x: Sample, t0: int, y: Sample, t1: int)
    requires -1 <= t1 - t0 <= 1
    ensures Unwrapped(step, y, t1) - Unwrapped(step, x, t0) == Crossing(step, t1 - t0) + y.quantised - x.quantised
  {
    StepsCross(step, t0, t1);
  }

  /** One accepted sample: the modulo moves by at most one whole encoder step, both positions by
      exactly the unwrapped distance. */
  lemma TrackStep(step: int, p: Position, x: Sample, t0: int, y: Sample, t1: int, reach: real, moved: int)
    requires 0.0 < reach <= 0.25 && Sound(step, reach, x) && Sound(step, reach, y)
    requires Tracks(p, x) && Close(x, t0, y, t1, reach)
    requires moved == Unwrapped(step, y, t1) - Unwrapped(step, x, t0)
    ensures Tracks(Track(step, p, y), y)
    ensures -1 <= t1 - t0 <= 1 && Moved(p, Track(step, p, y), Crossing(step, t1 - t0), moved)
  {
    RebaseStep(step, p, x, t0, y, t1, reach);
    TravelIsCrossing(step, x, t0, y, t1);
    RebasedMoves(step, p, x, y, t1 - t0, moved);
  }

  // ---------------------------------------------------------------------
  // Whole runs
  // ---------------------------------------------------------------------

  /** Where travelling `d` raw units leads; the absolute position moves along unless homing. */
  predicate MovedBy(p: Position, s: Position, d: int, homing: bool) {
    s.relative == Wrap64(p.relative + d) && (!homing ==> s.homed == p.homed && Wrap64(s.raw) == Wrap64(p.raw + d))
  }

  lemma MovesAccumulate(p: Position, s: Position, next: Position, d: int, e: int, sum: int, homing: bool)
    requires MovedBy(p, s, d, homing) && MovedBy(s, next, e, homing) && sum == d + e
    ensures MovedBy(p, next, sum, homing)
  {
    WrapMoves(p.relative, d, e);
    WrapMoves(p.raw, d, e);
    WrapAbsorbs(s.raw, e);
  }

  predicate CanHome(homed: Homed, x: Sample) { homed != Home && (x.absolute || x.referenced) }

  /** Homing leaves the relative position and its modulo alone. */
  lemma UpdateMoves(step: int, p: Position, y: Sample, shift: int, moved: int, homing: bool)
    requires y.velocity && (CanHome(p.homed, y) ==> homing)
    requires Tracks(Track(step, p, y), y) && Moved(p, Track(step, p, y), shift, moved)
    ensures Tracks(Update(step, p, y), y) && MovedBy(p, Update(step, p, y), moved, homing)
  {
    WrapIsIdentity(Wrap64(p.raw + moved));
  }

  lemma UpdateStep(step: int, p: Position, x: Sample, t0: int, y: Sample, t1: int, reach: real, moved: int, homing: bool)
    requires 0.0 < reach <= 0.25 && Sound(step, reach, x) && Sound(step, reach, y)
    requires Tracks(p, x) && Close(x, t0, y, t1, reach) && (CanHome(p.homed, y) ==> homing)
    requires moved == Unwrapped(step, y, t1) - Unwrapped(step, x, t0)
    ensures Tracks(Update(step, p, y), y) && MovedBy(p, Update(step, p, y), moved, homing)
  {
    TrackStep(step, p, x, t0, y, t1, reach, moved);
    UpdateMoves(step, p, y, Crossing(step, t1 - t0), moved, homing);
  }

  function SampleAt(x: Sample, xs: seq<Sample>, i: nat): Sample
    requires i <= |xs|
  {
    if i == 0 then x else xs[i - 1]
  }

  function TurnAt(t: int, turns: seq<int>, i: nat): int
    requires i <= |turns|
  {
    if i == 0 then t else turns[i - 1]
  }

  /** A run whose encoder moves less than `reach` turns between samples. */
  ghost predicate Smooth(step: int, x: Sample, t: int, xs: seq<Sample>, turns: seq<int>, reach: real) {
    && |turns| == |xs| && Sound(step, reach, x) && 0.0 < reach <= 0.25
    && (forall i :: 0 <= i < |xs| ==> Sound(step, reach, xs[i]))
    && forall i :: 0 <= i < |xs| ==> Close(SampleAt(x, xs, i), TurnAt(t, turns, i), xs[i], turns[i], reach)
  }

  predicate NeverHomes(homed: Homed, xs: seq<Sample>) { forall i :: 0 <= i < |xs| ==> !CanHome(homed, xs[i]) }

  /** State `s` is where the first `i` samples of a run should lead. */
  ghost predicate FollowsAt(step: int, p: Position, x: Sample, t: int, xs: seq<Sample>, turns: seq<int>, homing: bool,
      s: Position, i: nat)
    requires i <= |xs| && i <= |turns|
  {
    Tracks(s, SampleAt(x, xs, i)) &&
    MovedBy(p, s, Unwrapped(step, SampleAt(x, xs, i), TurnAt(t, turns, i)) - Unwrapped(step, x, t), homing)
  }

  lemma SmoothAt(step: int, x: Sample, t: int, xs: seq<Sample>, turns: seq<int>, reach: real, i: nat)
    requires Smooth(step, x, t, xs, turns, reach) && i < |xs|
    ensures Sound(step, reach, SampleAt(x, xs, i)) && Sound(step, reach, xs[i]) && 0.0 < reach <= 0.25
    ensures Close(SampleAt(x, xs, i), TurnAt(t, turns, i), xs[i], turns[i], reach)
  {
  }

  /** One more sample, from the distance travelled so far. */
  lemma MovesOn(step: int, p: Position, s: Position, last: Sample, turn: int, y: Sample, t1: int, reach: real,
      start: int, middle: int, end: int, homing: bool)
    requires 0.0 < reach <= 0.25 && Sound(step, reach, last) && Sound(step, reach, y) && Close(last, turn, y, t1, reach)
    requires middle == Unwrapped(step, last, turn) && end == Unwrapped(step, y, t1)
    requires Tracks(s, last) && MovedBy(p, s, middle - start, homing) && (CanHome(s.homed, y) ==> homing)
    ensures Tracks(Update(step, s, y), y) && MovedBy(p, Update(step, s, y), end - start, homing)
  {
    UpdateStep(step, s, last, turn, y, t1, reach, end - middle, homing);
    MovesAccumulate(p, s, Update(step, s, y), middle - start, end - middle, end - start, homing);
  }

  lemma FollowsNext(step: int, p: Position, x: Sample, t: int, xs: seq<Sample>, turns: seq<int>, reach: real, homing: bool,
      s: Position, i: nat)
    requires Smooth(step, x, t, xs, turns, reach) && i < |xs| && (!NeverHomes(p.homed, xs) ==> homing)
    requires FollowsAt(step, p, x, t, xs, turns, homing, s, i)
    ensures FollowsAt(step, p, x, t, xs, turns, homing, Update(step, s, xs[i]), i + 1)
  {
    SmoothAt(step, x, t, xs, turns, reach, i);
    var last, turn := SampleAt(x, xs, i), TurnAt(t, turns, i);
    assert CanHome(p.homed, xs[i]) ==> homing;
    MovesOn(step, p, s, last, turn, xs[i], turns[i], reach,
      Unwrapped(step, x, t), Unwrapped(step, last, turn), Unwrapped(step, xs[i], turns[i]), homing);
  }

  /** Over any run the relative position is the exact unwrapped sum of the quantised increments
      modulo 2^64, whatever homing happens on the way. Once homed to the output, or with nothing
      to home to, the absolute position moves by the same sum and homing never repeats. */
  lemma {:induction false} PositionsFollow(step: int, p: Position, x: Sample, t: int, xs: seq<Sample>, turns: seq<int>,
      reach: real, homing: bool, n: nat)
    requires Smooth(step, x, t, xs, turns, reach) && Tracks(p, x) && (!NeverHomes(p.homed, xs) ==> homing)
    requires n <= |xs|
    ensures FollowsAt(step, p, x, t, xs, turns, homing, Run(step, p, xs[..n]), n)
  {
    if n == 0 {
      assert xs[..0] == [];
      StartFollows(step, p, x, t, xs, turns, homing);
    } else {
      PositionsFollow(step, p, x, t, xs, turns, reach, homing, n - 1);
      RunFollowsNext(step, p, x, t, xs, turns, reach, homing, n);
    }
  }

  lemma RunFollowsNext(step: int, p: Position, x: Sample, t: int, xs: seq<Sample>, turns: seq<int>, reach: real,
      homing: bool, n: nat)
    requires Smooth(step, x, t, xs, turns, reach) && 0 < n <= |xs| && (!NeverHomes(p.homed, xs) ==> homing)
    requires FollowsAt(step, p, x, t, xs, turns, homing, Run(step, p, xs[..n - 1]), n - 1)
    ensures FollowsAt(step, p, x, t, xs, turns, homing, Run(step, p, xs[..n]), n)
  {
    FollowsNext(step, p, x, t, xs, turns, reach, homing, Run(step, p, xs[..n - 1]), n - 1);
    RunStep(step, p, xs, n);
  }

  lemma StartFollows(step: int, p: Position, x: Sample, t: int, xs: seq<Sample>, turns: seq<int>, homing: bool)
    requires Tracks(p, x)
    ensures FollowsAt(step, p, x, t, xs, turns, homing, p, 0)
  {
    WrapIsIdentity(p.relative);
  }

  /** Raw minus relative is constant once homing is over. */
  lemma OffsetIsKept(step: int, p: Position, x: Sample, t: int, xs: seq<Sample>, turns: seq<int>, reach: real)
    requires Smooth(step, x, t, xs, turns, reach) && Tracks(p, x) && NeverHomes(p.homed, xs)
    ensures WrappingSub(Run(step, p, xs).raw, Run(step, p, xs).relative) == WrappingSub(p.raw, p.relative)
    ensures Run(step, p, xs).homed == p.homed
  {
    PositionsFollow(step, p, x, t, xs, turns, reach, false, |xs|);
    assert xs[..|xs|] == xs;
    OffsetAt(step, p, x, t, xs, turns, Run(step, p, xs), |xs|);
  }

  lemma OffsetAt(step: int, p: Position, x: Sample, t: int, xs: seq<Sample>, turns: seq<int>, s: Position, i: nat)
    requires i <= |xs| && i <= |turns| && FollowsAt(step, p, x, t, xs, turns, false, s, i)
    ensures WrappingSub(s.raw, s.relative) == WrappingSub(p.raw, p.relative) && s.homed == p.homed
  {
    SameOffset(p, s, Unwrapped(step, SampleAt(x, xs, i), TurnAt(t, turns, i)) - Unwrapped(step, x, t));
  }

  lemma SameOffset(p: Position, s: Position, d: int)
    requires MovedBy(p, s, d, false)
    ensures WrappingSub(s.raw, s.relative) == WrappingSub(p.raw, p.relative)
  {
    WrapAbsorbs(s.raw, -s.relative);
    DifferenceKept(p.raw, p.relative, d);
  }

  /** From power-on, at any angle: the first reading is position zero, and every later relative
      position is the exact distance from it modulo 2^64: whole turns times the encoder's step,
      and the quantised angle between the readings. */
  lemma UnwrapsFromPowerOn(step: int, p: Position, first: Sample, t: int, xs: seq<Sample>, turns: seq<int>, reach: real)
    returns (d: int)
    requires !p.everValid && p.relative == 0 && Smooth(step, first, t, xs, turns, reach)
    ensures d == Travelled(step, TurnAt(t, turns, |xs|) - t, first, SampleAt(first, xs, |xs|))
    ensures Run(step, Update(step, p, first), xs).relative == Wrap64(d)
  {
    var last, turn := SampleAt(first, xs, |xs|), TurnAt(t, turns, |xs|);
    d := Travelled(step, turn - t, first, last);
    DistanceIs(step, first, t, last, turn);
    FollowsFromPowerOn(step, p, first, t, xs, turns, reach, last, turn, d);
  }

  lemma FollowsFromPowerOn(step: int, p: Position, first: Sample, t: int, xs: seq<Sample>, turns: seq<int>, reach: real,
      last: Sample, turn: int, d: int)
    requires !p.everValid && p.relative == 0 && Smooth(step, first, t, xs, turns, reach)
    requires last == SampleAt(first, xs, |xs|) && turn == TurnAt(t, turns, |xs|)
    requires d == Unwrapped(step, last, turn) - Unwrapped(step, first, t)
    ensures Run(step, Update(step, p, first), xs).relative == Wrap64(d)
  {
    FirstSample(step, p, first, reach);
    FollowsFromZero(step, Update(step, p, first), first, t, xs, turns, reach, d);
  }

  /** Whole turns, and the quantised angle between two readings. */
  function Travelled(step: int, turns: int, x: Sample, y: Sample): int { turns * step + y.quantised - x.quantised }

  lemma FollowsFromZero(step: int, p: Position, first: Sample, t: int, xs: seq<Sample>, turns: seq<int>, reach: real,
      d: int)
    requires Tracks(p, first) && p.relative == 0 && Smooth(step, first, t, xs, turns, reach)
    requires d == Unwrapped(step, SampleAt(first, xs, |xs|), TurnAt(t, turns, |xs|)) - Unwrapped(step, first, t)
    ensures Run(step, p, xs).relative == Wrap64(d)
  {
    EndFollows(step, p, first, t, xs, turns, reach);
    MovedFromZero(step, p, first, t, xs, turns, Run(step, p, xs), |xs|);
  }

  lemma DistanceIs(step: int, x: Sample, t0: int, y: Sample, t1: int)
    ensures Unwrapped(step, y, t1) - Unwrapped(step, x, t0) == Travelled(step, t1 - t0, x, y)
  {
    StepsIsProduct(step, t0);
    StepsIsProduct(step, t1);
    assert (t1 - t0) * step == t1 * step - t0 * step;
  }

  lemma EndFollows(step: int, p: Position, x: Sample, t: int, xs: seq<Sample>, turns: seq<int>, reach: real)
    requires Tracks(p, x) && Smooth(step, x, t, xs, turns, reach)
    ensures |turns| == |xs| && FollowsAt(step, p, x, t, xs, turns, true, Run(step, p, xs), |xs|)
  {
    PositionsFollow(step, p, x, t, xs, turns, reach, true, |xs|);
    WholeRun(step, p, xs);
  }

  lemma WholeRun(step: int, p: Position, xs: seq<Sample>)
    ensures Run(step, p, xs[..|xs|]) == Run(step, p, xs)
  {
    assert xs[..|xs|] == xs;
  }

  lemma MovedFromZero(step: int, p: Position, x: Sample, t: int, xs: seq<Sample>, turns: seq<int>, s: Position, i: nat)
    requires i <= |xs| && i <= |turns| && FollowsAt(step, p, x, t, xs, turns, true, s, i) && p.relative == 0
    ensures s.relative == Wrap64(Unwrapped(step, SampleAt(x, xs, i), TurnAt(t, turns, i)) - Unwrapped(step, x, t))
  {
  }

  lemma FirstSample(step: int, p: Position, first: Sample, reach: real)
    requires !p.everValid && p.relative == 0 && 0.0 < reach <= 0.25 && Sound(step, reach, first)
    ensures Tracks(Update(step, p, first), first) && Update(step, p, first).relative == 0
  {
    var started := p.(everValid := true, modulo := -first.quantised);
    WrapIsIdentity(0);
    TrackStep(step, started, first, 0, first, 0, reach, 0);
    assert Track(step, p, first) == Track(step, started, first);
  }

  function Digests(c: Output, rs: seq<Reading>): seq<Sample>
    requires c.Valid()
  {
    seq(|rs|, i requires 0 <= i < |rs| => Digest(c, rs[i]))
  }

  function ReadingAt(r: Reading, rs: seq<Reading>, i: nat): Reading
    requires i <= |rs|
  {
    if i == 0 then r else rs[i - 1]
  }

  predicate Active(c: Output, r: Reading) { r.velocity && 0.0 <= r.filtered <= c.cpr }

  /** Readings on the encoder's scale, less than `reach` turns apart, give a smooth run. */
  lemma ReadingsAreSmooth(c: Output, r: Reading, t: int, rs: seq<Reading>, turns: seq<int>, reach: real)
    requires c.Valid() && Resolves(StepOf(c.ratio), reach) && |turns| == |rs|
    requires Active(c, r) && forall i :: 0 <= i < |rs| ==> Active(c, rs[i])
    requires forall i :: 0 <= i < |rs| ==>
      -reach < (turns[i] as real + EncoderRatio(c, rs[i].filtered))
               - (TurnAt(t, turns, i) as real + EncoderRatio(c, ReadingAt(r, rs, i).filtered)) < reach
    ensures Smooth(StepOf(c.ratio), Digest(c, r), t, Digests(c, rs), turns, reach)
  {
    var step, x, xs := StepOf(c.ratio), Digest(c, r), Digests(c, rs);
    DigestIsSound(c, r, reach);
    forall i | 0 <= i < |xs|
      ensures Sound(step, reach, xs[i])
    {
      DigestIsSound(c, rs[i], reach);
    }
    forall i | 0 <= i < |xs|
      ensures Close(SampleAt(x, xs, i), TurnAt(t, turns, i), xs[i], turns[i], reach)
    {
      assert Active(c, rs[i]);
      assert SampleAt(x, xs, i).ratio == EncoderRatio(c, ReadingAt(r, rs, i).filtered);
    }
  }

  /** Whatever the distance: the modulo follows a true turn of at most one exactly when the last
      reading and the next one make it noticed. */
  lemma TurnFollowedIff(step: int, p: Position, x: Sample, y: Sample, turn: int)
    requires 0 < step < HALF_WORD && 0 <= x.quantised < HALF_WORD && -1 <= turn <= 1 && Tracks(p, x)
    ensures Track(step, p, y).modulo == Wrap64(p.modulo + Crossing(step, turn)) <==>
      match turn
      case -1 => Low(step, x.quantised) && y.ratio > 0.75
      case 1 => High(step, x.quantised) && y.ratio < 0.25
      case _ => !(Low(step, x.quantised) && y.ratio > 0.75) && !(High(step, x.quantised) && y.ratio < 0.25)
  {
    RebaseFollowsIff(step, x.quantised, y.ratio, turn, p.modulo, p.relative);
  }

  /** From 0.24 to 0.76 of the turn before is 0.48 of a turn, and noticed; from 0.26 to 0.99 is
      0.27 of a turn, and missed. */
  lemma QuarterTurnIsMissed(p: Position, x: Sample, y: Sample)
    requires Tracks(p, x)
    ensures x.ratio == 0.24 && y.ratio == 0.76 && Near(0.24, 0x1_0000_0000_0000, x.quantised) ==>
      Track(0x1_0000_0000_0000, p, y).modulo == Wrap64(p.modulo - 0x1_0000_0000_0000)
    ensures x.ratio == 0.26 && y.ratio == 0.99 && Near(0.26, 0x1_0000_0000_0000, x.quantised) ==>
      Close(x, 0, y, -1, 0.28) && Track(0x1_0000_0000_0000, p, y).modulo == p.modulo
           != Wrap64(p.modulo - 0x1_0000_0000_0000)
  {
    if 0 <= x.quantised < HALF_WORD {
      TurnFollowedIff(0x1_0000_0000_0000, p, x, y, -1);
      TurnFollowedIff(0x1_0000_0000_0000, p, x, y, 0);
      WrapIsIdentity(p.modulo);
      WrapsApart(p.modulo - 0x1_0000_0000_0000, 0x1_0000_0000_0000);
    }
  }
}
