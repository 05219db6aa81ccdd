/** Unwrapping of the output encoder into a 64-bit fixed-point position.

    The firmware's int64 positions are integers kept in range by Wrap64; the readings
    and the gear ratio are exact reals. */
module OutputUnwrap {

  const HALF_WORD: int := 0x8000_0000_0000_0000

  /** Reinterpretation of a sum as a signed 64-bit word. */
  function Wrap64(x: int): (w: int)
    ensures -HALF_WORD <= w < HALF_WORD
  {
    (x + HALF_WORD) % 0x1_0000_0000_0000_0000 - HALF_WORD
  }

  function WrappingAdd(a: int, b: int): int { Wrap64(a + b) }

  function WrappingSub(a: int, b: int): int { Wrap64(a - b) }

  lemma WrapShift(a: int, turns: int)
    ensures Wrap64(a + turns * 0x1_0000_0000_0000_0000) == Wrap64(a)
  {
  }

  /** Wrapping an operand first changes nothing: sums of wrapped values are exact modulo 2^64. */
  lemma WrapAbsorbs(a: int, b: int)
    ensures Wrap64(Wrap64(a) + b) == Wrap64(a + b)
    ensures Wrap64(a - Wrap64(b)) == Wrap64(a - b)
  {
    var m := (a + HALF_WORD) / 0x1_0000_0000_0000_0000;
    assert Wrap64(a) == a - m * 0x1_0000_0000_0000_0000;
    WrapShift(a + b, -m);
    var n := (b + HALF_WORD) / 0x1_0000_0000_0000_0000;
    assert Wrap64(b) == b - n * 0x1_0000_0000_0000_0000;
    WrapShift(a - b, n);
  }

  lemma WrapIsIdentity(a: int)
    requires -HALF_WORD <= a < HALF_WORD
    ensures Wrap64(a) == a
  {
  }

  // ---------------------------------------------------------------------
  // Quantisation
  // ---------------------------------------------------------------------

  /** A C++ cast from a floating value to an integer. */
  function Trunc(x: real): int { if x >= 0.0 then x.Floor else -((-x).Floor) }

  function Quantise(x: real): int { 0x100_0000 * Trunc(16777216.0 * x) }

  /** output_encoder_step_: one encoder turn in raw units. */
  function StepOf(ratio: real): int { Quantise(ratio) }

  lemma TruncOfProduct(e: real, y: real, t: int, x: real)
    requires 0.0 <= e <= 1.0 && 0.0 <= y && t == Trunc(y) && x == e * y
    ensures 0 <= Trunc(x) <= t
    ensures e * t as real - 1.0 < Trunc(x) as real <= e * t as real + 1.0
  {
    assert 0.0 <= e * y <= y;
    assert e * t as real <= e * y;
    assert e * (y - t as real) <= 1.0;
    assert e * y == e * t as real + e * (y - t as real);
  }

  /** A quantised reading lies within one unit of its share of the quantised step. */
  predicate Near(e: real, step: int, q: int) {
    0 <= q <= step && e * step as real - 16777216.0 < q as real <= e * step as real + 16777216.0
  }

  lemma QuantiseIsNear(e: real, ratio: real, scaled: real, step: int)
    requires 0.0 <= e <= 1.0 && 0.0 < ratio && scaled == e * ratio && step == StepOf(ratio)
    ensures Near(e, step, Quantise(scaled))
  {
    var y := 16777216.0 * ratio;
    var t := Trunc(y);
    TruncOfProduct(e, y, t, 16777216.0 * scaled);
    assert e * step as real == 16777216.0 * (e * t as real);
  }

  // ---------------------------------------------------------------------
  // One reading
  // ---------------------------------------------------------------------

  /** The new modulo: moved by one encoder step when the reading jumped across the end. */
  function Rebase(step: int, e: real, modulo: int, relative: int): int {
    var q := WrappingSub(relative, modulo);
    if Low(step, q) && e > 0.75 then WrappingSub(modulo, step)
    else if High(step, q) && e < 0.25 then WrappingAdd(modulo, step)
    else modulo
  }

  /** Below a quarter of the step, comparing the high words only. */
  predicate Low(step: int, q: int) { q / 0x1_0000_0000 < step / 4 / 0x1_0000_0000 }

  /** Above three quarters of the step, comparing the high words only. */
  predicate High(step: int, q: int) { q / 0x1_0000_0000 > step / 4 * 3 / 0x1_0000_0000 }

  /** Readings closer than `reach` turns are told apart from a jump across the end. */
  predicate Resolves(step: int, reach: real) {
    0 < step < HALF_WORD && 0.0 < reach <= 0.25 &&
    reach * step as real + 4328521728.0 <= 0.25 * step as real
  }

  /** An eighth of a turn is always resolved once the step is 2^36: reductions up to 4096. */
  lemma EighthResolves(step: int)
    requires 0x10_0000_0000 <= step < HALF_WORD
    ensures Resolves(step, 0.125)
  {
  }

  lemma ScaledLess(x: real, y: real, s: real)
    requires x <= y && 0.0 <= s
    ensures x * s <= y * s
  {
  }

  /** The share of the step that a reading stands for, against the fractions that matter. */
  lemma ShareOfStep(s: real, reach: real, e: real, share: real)
    requires 0.0 < s && reach * s + 4328521728.0 <= 0.25 * s && share == e * s
    ensures e < reach ==> share <= 0.25 * s - 4328521728.0
    ensures e > 1.0 - reach ==> share >= 0.75 * s + 4328521728.0
    ensures e > 0.5 ==> share >= 0.5 * s
    ensures e < 0.5 ==> share <= 0.5 * s
  {
    if e < reach {
      ScaledLess(e, reach, s);
    }
    if e > 1.0 - reach {
      ScaledLess(1.0 - reach, e, s);
      assert (1.0 - reach) * s == s - reach * s;
    }
    if e > 0.5 {
      ScaledLess(0.5, e, s);
    }
    if e < 0.5 {
      ScaledLess(e, 0.5, s);
    }
  }

  lemma LowReading(step: int, q: int)
    requires 4 * q + 4 * 0x1_0000_0000 <= step && 0 <= q
    ensures Low(step, q) && !High(step, q)
  {
    var quarter := step / 4;
    assert (q + 0x1_0000_0000) / 0x1_0000_0000 <= quarter / 0x1_0000_0000;
    assert q <= quarter * 3;
  }

  lemma HighReading(step: int, q: int)
    requires 4 * q >= 3 * step + 4 * 0x1_0000_0000 && 0 <= step
    ensures High(step, q) && !Low(step, q)
  {
    var quarter := step / 4;
    assert (quarter * 3 + 0x1_0000_0000) / 0x1_0000_0000 <= q / 0x1_0000_0000;
    assert quarter <= q;
  }

  lemma MiddleReading(step: int, q: int)
    requires 0x1_0000_0000 <= step
    ensures 2 * q + 2 * 0x100_0000 >= step ==> !Low(step, q)
    ensures 2 * q <= step + 2 * 0x100_0000 ==> !High(step, q)
  {
    var quarter := step / 4;
    assert 2 * q + 2 * 0x100_0000 >= step ==> quarter <= q;
    assert 2 * q <= step + 2 * 0x100_0000 ==> q <= quarter * 3;
  }

  /** Where a quantised reading sits relative to the two thresholds. */
  predicate Sorted(step: int, reach: real, e: real, q: int) {
    && 0.0 <= e <= 1.0 && 0 <= q < HALF_WORD
    && (e < reach ==> Low(step, q)) && (e > 1.0 - reach ==> High(step, q))
    && (e > 0.5 ==> !Low(step, q)) && (e < 0.5 ==> !High(step, q))
  }

  lemma Thresholds(step: int, reach: real, e: real, q: int)
    requires Resolves(step, reach) && 0.0 <= e <= 1.0 && Near(e, step, q)
    ensures Sorted(step, reach, e, q)
  {
    var share := e * step as real;
    ShareOfStep(step as real, reach, e, share);
    ReadingAgainstShare(step, reach, e, q, share);
  }

  lemma ReadingAgainstShare(step: int, reach: real, e: real, q: int, share: real)
    requires 0x1_0000_0000 <= step && 0 <= q
    requires share - 16777216.0 < q as real <= share + 16777216.0
    requires e < reach ==> share <= 0.25 * step as real - 4328521728.0
    requires e > 1.0 - reach ==> share >= 0.75 * step as real + 4328521728.0
    requires e > 0.5 ==> share >= 0.5 * step as real
    requires e < 0.5 ==> share <= 0.5 * step as real
    ensures e < reach ==> Low(step, q)
    ensures e > 1.0 - reach ==> High(step, q)
    ensures e > 0.5 ==> !Low(step, q)
    ensures e < 0.5 ==> !High(step, q)
  {
    MiddleReading(step, q);
    if e < reach {
      assert 4.0 * q as real + 4.0 * 4294967296.0 <= step as real;
      LowReading(step, q);
    }
    if e > 1.0 - reach {
      assert 4.0 * q as real >= 3.0 * step as real + 4.0 * 4294967296.0;
      HighReading(step, q);
    }
    if e > 0.5 {
      assert 2.0 * q as real + 2.0 * 16777216.0 >= step as real;
    }
    if e < 0.5 {
      assert 2.0 * q as real <= step as real + 2.0 * 16777216.0;
    }
  }

  /** The modulo's move when at most one end of the scale is crossed. */
  function Crossing(step: int, turn: int): int { if turn > 0 then step else if turn < 0 then -step else 0 }

  /** Whole turns in raw units, one encoder step at a time. */
  function Steps(step: int, turn: int): int
    decreases if turn < 0 then -turn else turn
  {
    if turn > 0 then Steps(step, turn - 1) + step
    else if turn < 0 then Steps(step, turn + 1) - step
    else 0
  }

  lemma StepsCross(step: int, t0: int, t1: int)
    requires -1 <= t1 - t0 <= 1
    ensures Steps(step, t1) - Steps(step, t0) == Crossing(step, t1 - t0)
  {
  }

  lemma {:induction false} StepsIsProduct(step: int, turn: int)
    ensures Steps(step, turn) == turn * step
    decreases if turn < 0 then -turn else turn
  {
    if turn > 0 {
      StepsIsProduct(step, turn - 1);
      assert (turn - 1) * step + step == turn * step;
    } else if turn < 0 {
      StepsIsProduct(step, turn + 1);
      assert (turn + 1) * step - step == turn * step;
    }
  }

  /** One step: the modulo follows the whole turn crossed, in either direction or not at all. */
  lemma RebaseFollows(step: int, reach: real, e0: real, q0: int, e1: real, turn: int, modulo: int, relative: int)
    requires 0.0 < reach <= 0.25 && 0.0 <= e1 <= 1.0 && Sorted(step, reach, e0, q0)
    requires -reach < turn as real + e1 - e0 < reach
    requires -HALF_WORD <= modulo < HALF_WORD && relative == Wrap64(modulo + q0)
    ensures -1 <= turn <= 1
    ensures Rebase(step, e1, modulo, relative) == Wrap64(modulo + Crossing(step, turn))
  {
    assert WrappingSub(relative, modulo) == q0 by {
      WrapAbsorbs(modulo + q0, -modulo);
      WrapIsIdentity(q0);
    }
    WrapIsIdentity(modulo);
    if turn == 0 {
      assert !(e1 > 0.75 && e0 <= 0.5) && !(e1 < 0.25 && e0 >= 0.5);
    }
  }

  /** Positions less than a whole word apart wrap to different words. */
  lemma WrapsApart(a: int, d: int)
    requires 0 < d < 0x1_0000_0000_0000_0000
    ensures Wrap64(a + d) != Wrap64(a)
  {
    ResiduesApart(a + HALF_WORD, d);
  }

  lemma ResiduesApart(a: int, d: int)
    requires 0 < d < 0x1_0000_0000_0000_0000
    ensures (a + d) % 0x1_0000_0000_0000_0000 != a % 0x1_0000_0000_0000_0000
  {
    var m, n := a / 0x1_0000_0000_0000_0000, (a + d) / 0x1_0000_0000_0000_0000;
    assert m == n || n >= m + 1;
  }

  /** What a reading is taken for: a turn back, a turn on, or none. */
  function Noticed(step: int, q0: int, e1: real): int {
    if Low(step, q0) && e1 > 0.75 then -1 else if High(step, q0) && e1 < 0.25 then 1 else 0
  }

  /** Exactly when the modulo follows a true turn of at most one: a turn back is noticed from a
      low reading to one above 0.75, a turn on from a high reading to one below 0.25, and no
      turn is mistaken for one when neither is the case. */
  lemma RebaseFollowsIff(step: int, q0: int, e1: real, turn: int, modulo: int, relative: int)
    requires 0 < step < HALF_WORD && 0 <= q0 < HALF_WORD && -1 <= turn <= 1
    requires -HALF_WORD <= modulo < HALF_WORD && relative == Wrap64(modulo + q0)
    ensures Rebase(step, e1, modulo, relative) == Wrap64(modulo + Crossing(step, Noticed(step, q0, e1)))
    ensures Rebase(step, e1, modulo, relative) == Wrap64(modulo + Crossing(step, turn)) <==> turn == Noticed(step, q0, e1)
  {
    assert WrappingSub(relative, modulo) == q0 by {
      WrapAbsorbs(modulo + q0, -modulo);
      WrapIsIdentity(q0);
    }
    WrapIsIdentity(modulo);
    WrapsApart(modulo, step);
    WrapsApart(modulo - step, step);
    WrapsApart(modulo - step, 2 * step);
  }

  // ---------------------------------------------------------------------
  // Wrapped positions that move together
  // ---------------------------------------------------------------------

  lemma WrapMoves(a: int, x: int, y: int)
    ensures Wrap64(Wrap64(a + x) + y) == Wrap64(a + (x + y))
  {
    WrapAbsorbs(a + x, y);
  }

  /** The encoder's new position in terms of its old one. */
  lemma RelativeMoves(m0: int, shift: int, q0: int, q1: int, moved: int)
    requires moved == shift + q1 - q0
    ensures Wrap64(Wrap64(m0 + shift) + q1) == Wrap64(Wrap64(m0 + q0) + moved)
  {
    WrapMoves(m0, shift, q1);
    WrapMoves(m0, q0, moved);
  }

  /** Adding a wrapped difference adds the difference. */
  lemma RawMoves(raw: int, relative: int, moved: int)
    ensures Wrap64(raw + Wrap64(Wrap64(relative + moved) - relative)) == Wrap64(raw + moved)
  {
    WrapAbsorbs(relative + moved, -relative);
    WrapAbsorbs(moved, raw);
  }

  /** Two positions moved by the same amount keep their difference. */
  lemma DifferenceKept(a: int, b: int, moved: int)
    ensures Wrap64(Wrap64(a + moved) - Wrap64(b + moved)) == Wrap64(a - b)
  {
    WrapAbsorbs(a + moved, -Wrap64(b + moved));
    WrapAbsorbs(a + moved, b + moved);
  }
}
