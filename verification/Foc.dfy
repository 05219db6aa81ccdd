/** The DQ transforms of the field oriented controller, over exact reals.

    k stands for the constant kSqrt3_4.  The identities need k * k == 3/4; the
    firmware's decimal is slightly below that, which is all the voltage bound
    needs. */
module Foc {

  datatype SinCos = SinCos(s: real, c: real) {
    function Norm(): real { s * s + c * c }
  }

  datatype Dq = Dq(d: real, q: real) {
    function Norm(): real { d * d + q * q }
  }

  datatype Phases = Phases(a: real, b: real, c: real)

  datatype Xy = Xy(x: real, y: real)

  const SQRT3_4: real := 0.86602540378

  function DqTransform(k: real, sc: SinCos, v: Phases): Dq {
    Dq((2.0 / 3.0) * (v.a * sc.c + (k * sc.s - 0.5 * sc.c) * v.b + (-k * sc.s - 0.5 * sc.c) * v.c),
       (2.0 / 3.0) * (-sc.s * v.a - (-k * sc.c - 0.5 * sc.s) * v.b - (k * sc.c - 0.5 * sc.s) * v.c))
  }

  function InverseDqTransform(k: real, sc: SinCos, v: Dq): Phases {
    Phases(sc.c * v.d - sc.s * v.q,
           (k * sc.s - 0.5 * sc.c) * v.d - (-k * sc.c - 0.5 * sc.s) * v.q,
           (-k * sc.s - 0.5 * sc.c) * v.d - (k * sc.c - 0.5 * sc.s) * v.q)
  }

  function ClarkTransform(sqrt3: real, v: Phases): Xy
    requires sqrt3 != 0.0
  {
    Xy((2.0 * v.a - v.b - v.c) * (1.0 / 3.0), (v.b - v.c) * (1.0 / sqrt3))
  }

  function InverseClarkTransform(sqrt3: real, v: Xy): Phases {
    Phases(v.x, (-v.x + sqrt3 * v.y) / 2.0, (-v.x - sqrt3 * v.y) / 2.0)
  }

  function ParkTransform(sc: SinCos, v: Xy): Dq {
    Dq(sc.c * v.x + sc.s * v.y, sc.c * v.y - sc.s * v.x)
  }

  function InverseParkTransform(sc: SinCos, v: Dq): Xy {
    Xy(sc.c * v.d - sc.s * v.q, sc.c * v.q + sc.s * v.d)
  }

  // ---------------------------------------------------------------------
  // The one-step transforms are Clark followed by Park
  // ---------------------------------------------------------------------

  lemma InverseIsParkThenClark(k: real, sc: SinCos, v: Dq)
    ensures InverseDqTransform(k, sc, v) == InverseClarkTransform(2.0 * k, InverseParkTransform(sc, v))
  {
  }

  lemma ForwardIsClarkThenPark(k: real, sc: SinCos, v: Phases)
    requires k * k == 0.75
    ensures DqTransform(k, sc, v) == ParkTransform(sc, ClarkTransform(2.0 * k, v))
  {
    var y := v.b - v.c;
    assert 1.0 / (2.0 * k) == 2.0 * k / 3.0;
    assert y * (1.0 / (2.0 * k)) == (2.0 / 3.0) * (k * y);
  }

  lemma Clark(k: real, v: Xy)
    requires k * k == 0.75
    ensures ClarkTransform(2.0 * k, InverseClarkTransform(2.0 * k, v)) == v
  {
    var p := InverseClarkTransform(2.0 * k, v);
    assert p.b - p.c == 2.0 * k * v.y;
    assert 2.0 * k * v.y * (1.0 / (2.0 * k)) == v.y;
  }

  lemma InverseClark(k: real, v: Phases)
    requires k * k == 0.75 && v.a + v.b + v.c == 0.0
    ensures InverseClarkTransform(2.0 * k, ClarkTransform(2.0 * k, v)) == v
  {
    var xy := ClarkTransform(2.0 * k, v);
    assert 2.0 * k * xy.y == v.b - v.c;
  }

  lemma Park(sc: SinCos, v: Dq)
    requires sc.Norm() == 1.0
    ensures ParkTransform(sc, InverseParkTransform(sc, v)) == v
  {
    Rotate(sc.s, sc.c, v.d, v.q);
  }

  lemma Rotate(s: real, c: real, d: real, q: real)
    requires s * s + c * c == 1.0
    ensures c * (c * d - s * q) + s * (c * q + s * d) == d
    ensures c * (c * q + s * d) - s * (c * d - s * q) == q
  {
    assert c * (c * d - s * q) + s * (c * q + s * d) == (s * s + c * c) * d;
    assert c * (c * q + s * d) - s * (c * d - s * q) == (s * s + c * c) * q;
  }

  lemma InversePark(sc: SinCos, v: Xy)
    requires sc.Norm() == 1.0
    ensures InverseParkTransform(sc, ParkTransform(sc, v)) == v
  {
    Rotate(-sc.s, sc.c, v.x, v.y);
  }

  /** Measuring what was driven: DQ -> phases -> DQ is the identity. */
  lemma DqRoundTrip(k: real, sc: SinCos, v: Dq)
    requires k * k == 0.75 && sc.Norm() == 1.0
    ensures DqTransform(k, sc, InverseDqTransform(k, sc, v)) == v
  {
    InverseIsParkThenClark(k, sc, v);
    ForwardIsClarkThenPark(k, sc, InverseDqTransform(k, sc, v));
    Clark(k, InverseParkTransform(sc, v));
    Park(sc, v);
  }

  /** Phases -> DQ -> phases is the identity on balanced phases. */
  lemma PhaseRoundTrip(k: real, sc: SinCos, v: Phases)
    requires k * k == 0.75 && sc.Norm() == 1.0 && v.a + v.b + v.c == 0.0
    ensures InverseDqTransform(k, sc, DqTransform(k, sc, v)) == v
  {
    ForwardIsClarkThenPark(k, sc, v);
    InverseIsParkThenClark(k, sc, DqTransform(k, sc, v));
    InversePark(sc, ClarkTransform(2.0 * k, v));
    InverseClark(k, v);
  }

  // ---------------------------------------------------------------------
  // No two phases are further apart than sqrt(3) times the DQ vector
  // ---------------------------------------------------------------------

  lemma Cauchy(x: real, y: real, d: real, q: real)
    ensures (x * d + y * q) * (x * d + y * q) <= (x * x + y * y) * (d * d + q * q)
  {
    var w := x * q - y * d;
    assert (x * x + y * y) * (d * d + q * q) - (x * d + y * q) * (x * d + y * q) == w * w;
  }

  lemma Product(a: real, b: real, c: real, e: real)
    requires 0.0 <= a <= b && 0.0 <= c <= e
    ensures a * c <= b * e
  {
    assert a * c <= b * c <= b * e;
  }

  lemma PositiveProduct(a: real, b: real)
    requires 0.0 < a && 0.0 < b
    ensures 0.0 < a * b
  {
  }

  lemma NonNegativeProduct(a: real, b: real, product: real)
    requires 0.0 <= a && 0.0 <= b && product == a * b
    ensures 0.0 <= product
  {
  }

  lemma NegativeProduct(a: real, b: real, product: real)
    requires a < 0.0 && 0.0 < b && product == a * b
    ensures product < 0.0
  {
    PositiveProduct(-a, b);
    assert (-a) * b == -product;
  }

  lemma DifferenceOfSquares(x: real, y: real, product: real)
    requires product == (y - x) * (y + x)
    ensures y * y - x * x == product
  {
  }

  lemma SquareOrder(x: real, y: real)
    requires 0.0 <= y
    ensures -y <= x <= y <==> x * x <= y * y
  {
    var product := (y - x) * (y + x);
    DifferenceOfSquares(x, y, product);
    if x > y {
      NegativeProduct(y - x, y + x, product);
    } else if x < -y {
      NegativeProduct(y + x, y - x, product);
    } else {
      NonNegativeProduct(y - x, y + x, product);
    }
  }

  /** The squared length of the longest row of the phase differences at a unit angle. */
  function RowSquare(k: real): real { 2.25 + k * k }

  /** One phase difference, given the squared length of its row. */
  lemma RowBound(x: real, y: real, v: Dq, length: real, full: real, diff: real)
    requires x * x + y * y <= length && length * v.Norm() <= full * full && 0.0 <= full
    requires diff == x * v.d + y * v.q
    ensures -full <= diff <= full
  {
    Cauchy(x, y, v.d, v.q);
    assert 0.0 <= v.d * v.d && 0.0 <= v.q * v.q && 0.0 <= x * x && 0.0 <= y * y;
    Product(x * x + y * y, length, v.Norm(), v.Norm());
    SquareOrder(diff, full);
  }

  lemma RowLength(k: real, s: real, c: real)
    requires k * k <= 0.75 && s * s + c * c <= 1.0
    ensures (1.5 * c - k * s) * (1.5 * c - k * s) + (1.5 * s + k * c) * (1.5 * s + k * c) <= RowSquare(k)
    ensures (2.0 * k * s) * (2.0 * k * s) + (2.0 * k * c) * (2.0 * k * c) <= RowSquare(k)
  {
    var n := s * s + c * c;
    assert (1.5 * c - k * s) * (1.5 * c - k * s) + (1.5 * s + k * c) * (1.5 * s + k * c) == (2.25 + k * k) * n;
    assert (2.0 * k * s) * (2.0 * k * s) + (2.0 * k * c) * (2.0 * k * c) == (4.0 * (k * k)) * n;
    Product(2.25 + k * k, 2.25 + k * k, n, 1.0);
    Product(4.0 * (k * k), 2.25 + k * k, n, 1.0);
  }

  lemma OppositeRowLength(k: real, s: real, c: real)
    requires k * k <= 0.75 && s * s + c * c <= 1.0
    ensures (1.5 * c + k * s) * (1.5 * c + k * s) + (k * c - 1.5 * s) * (k * c - 1.5 * s) <= RowSquare(k)
  {
    var n := s * s + c * c;
    assert (1.5 * c + k * s) * (1.5 * c + k * s) + (k * c - 1.5 * s) * (k * c - 1.5 * s) == (2.25 + k * k) * n;
    Product(2.25 + k * k, 2.25 + k * k, n, 1.0);
  }

  lemma RowAB(k: real, s: real, c: real, d: real, q: real)
    ensures (c * d - s * q) - ((k * s - 0.5 * c) * d - (-k * c - 0.5 * s) * q)
      == (1.5 * c - k * s) * d + -(1.5 * s + k * c) * q
  {
  }

  lemma RowAC(k: real, s: real, c: real, d: real, q: real)
    ensures (c * d - s * q) - ((-k * s - 0.5 * c) * d - (k * c - 0.5 * s) * q)
      == (1.5 * c + k * s) * d + (k * c - 1.5 * s) * q
  {
  }

  lemma RowBC(k: real, s: real, c: real, d: real, q: real)
    ensures ((k * s - 0.5 * c) * d - (-k * c - 0.5 * s) * q) - ((-k * s - 0.5 * c) * d - (k * c - 0.5 * s) * q)
      == 2.0 * k * s * d + 2.0 * k * c * q
  {
  }

  lemma NegatedSquare(x: real)
    ensures (-x) * (-x) == x * x
  {
  }

  /** A DQ vector that the longest row stretches to at most full keeps every phase difference
      within full. */
  predicate Reaches(k: real, v: Dq, full: real) { 0.0 <= full && RowSquare(k) * v.Norm() <= full * full }

  lemma SpreadAB(k: real, sc: SinCos, v: Dq, full: real)
    requires k * k <= 0.75 && sc.Norm() <= 1.0 && Reaches(k, v, full)
    ensures var p := InverseDqTransform(k, sc, v); -full <= p.a - p.b <= full
  {
    var p := InverseDqTransform(k, sc, v);
    var x, y := 1.5 * sc.c - k * sc.s, 1.5 * sc.s + k * sc.c;
    RowLength(k, sc.s, sc.c);
    NegatedSquare(y);
    RowAB(k, sc.s, sc.c, v.d, v.q);
    RowBound(x, -y, v, RowSquare(k), full, p.a - p.b);
  }

  lemma SpreadAC(k: real, sc: SinCos, v: Dq, full: real)
    requires k * k <= 0.75 && sc.Norm() <= 1.0 && Reaches(k, v, full)
    ensures var p := InverseDqTransform(k, sc, v); -full <= p.a - p.c <= full
  {
    var p := InverseDqTransform(k, sc, v);
    OppositeRowLength(k, sc.s, sc.c);
    RowAC(k, sc.s, sc.c, v.d, v.q);
    RowBound(1.5 * sc.c + k * sc.s, k * sc.c - 1.5 * sc.s, v, RowSquare(k), full, p.a - p.c);
  }

  lemma SpreadBC(k: real, sc: SinCos, v: Dq, full: real)
    requires k * k <= 0.75 && sc.Norm() <= 1.0 && Reaches(k, v, full)
    ensures var p := InverseDqTransform(k, sc, v); -full <= p.b - p.c <= full
  {
    var p := InverseDqTransform(k, sc, v);
    RowLength(k, sc.s, sc.c);
    RowBC(k, sc.s, sc.c, v.d, v.q);
    RowBound(2.0 * k * sc.s, 2.0 * k * sc.c, v, RowSquare(k), full, p.b - p.c);
  }

  // A longer vector has an angle at which two phases are further apart.

  /** The angle that turns the first two phases' row along the vector, times t. */
  function AngleAlong(k: real, v: Dq, t: real): SinCos {
    SinCos(t * (-1.5 * v.q - k * v.d) * (1.0 / RowSquare(k)), t * (1.5 * v.d - k * v.q) * (1.0 / RowSquare(k)))
  }

  lemma AlongIs(k: real, d: real, q: real, t: real, l: real, s: real, c: real)
    requires l == 2.25 + k * k && l * s == t * (-1.5 * q - k * d) && l * c == t * (1.5 * d - k * q)
    ensures l * (1.5 * c - k * s) == l * (t * d) && l * (1.5 * s + k * c) == l * (-(t * q))
    ensures l * l * (s * s + c * c) == l * (t * t * (d * d + q * q))
  {
    assert l * (1.5 * c - k * s) == 1.5 * (l * c) - k * (l * s);
    assert l * (1.5 * s + k * c) == 1.5 * (l * s) + k * (l * c);
    assert l * l * (s * s + c * c) == (l * s) * (l * s) + (l * c) * (l * c);
    assert (-1.5 * q - k * d) * (-1.5 * q - k * d) + (1.5 * d - k * q) * (1.5 * d - k * q) == (2.25 + k * k) * (d * d + q * q);
    assert (t * (-1.5 * q - k * d)) * (t * (-1.5 * q - k * d)) + (t * (1.5 * d - k * q)) * (t * (1.5 * d - k * q))
      == t * t * ((-1.5 * q - k * d) * (-1.5 * q - k * d) + (1.5 * d - k * q) * (1.5 * d - k * q));
  }

  lemma Cancel(l: real, x: real, y: real)
    requires 0.0 < l && l * x == l * y
    ensures x == y
  {
    var d := x - y;
    assert l * d == 0.0;
  }

  /** At that angle the first two phases are t times the squared vector apart. */
  lemma ApartAlong(k: real, v: Dq, t: real)
    ensures var p := InverseDqTransform(k, AngleAlong(k, v, t), v);
      p.a - p.b == t * v.Norm() && RowSquare(k) * AngleAlong(k, v, t).Norm() == t * t * v.Norm()
  {
    var l, sc := RowSquare(k), AngleAlong(k, v, t);
    assert 0.0 <= k * k;
    Unscaled(l, t * (-1.5 * v.q - k * v.d));
    Unscaled(l, t * (1.5 * v.d - k * v.q));
    AlignedRow(k, v.d, v.q, t, l, sc.s, sc.c);
    RowAB(k, sc.s, sc.c, v.d, v.q);
  }

  lemma AlignedRow(k: real, d: real, q: real, t: real, l: real, s: real, c: real)
    requires l == 2.25 + k * k && 0.0 < l && l * s == t * (-1.5 * q - k * d) && l * c == t * (1.5 * d - k * q)
    ensures (1.5 * c - k * s) * d + -(1.5 * s + k * c) * q == t * (d * d + q * q)
    ensures l * (s * s + c * c) == t * t * (d * d + q * q)
  {
    AlongIs(k, d, q, t, l, s, c);
    Cancel(l, 1.5 * c - k * s, t * d);
    Cancel(l, 1.5 * s + k * c, -(t * q));
    Cancel(l, l * (s * s + c * c), t * t * (d * d + q * q));
    Collected(t, d, q, 1.5 * c - k * s, 1.5 * s + k * c);
  }

  lemma Collected(t: real, d: real, q: real, x: real, y: real)
    requires x == t * d && y == -(t * q)
    ensures x * d + -y * q == t * (d * d + q * q)
  {
  }

  lemma Unscaled(l: real, x: real)
    requires 0.0 < l
    ensures l * (x * (1.0 / l)) == x
  {
  }

  /** A number a little above t whose square is still below m. */
  lemma Between(t: real, m: real) returns (r: real)
    requires 0.0 <= t && t * t < m
    ensures t < r && r * r <= m
  {
    var room := m - t * t;
    var e := if room < 2.0 * t + 1.0 then room * (1.0 / (2.0 * t + 1.0)) else 1.0;
    Unscaled(2.0 * t + 1.0, room);
    assert 0.0 < 1.0 / (2.0 * t + 1.0);
    if room < 2.0 * t + 1.0 {
      PositiveProduct(room, 1.0 / (2.0 * t + 1.0));
      assert e <= 1.0 by {
        if e > 1.0 { PositiveProduct(2.0 * t + 1.0, e - 1.0); }
      }
    }
    assert (2.0 * t + 1.0) * e <= room;
    Product(e, e, e, 1.0);
    r := t + e;
    assert r * r == t * t + 2.0 * t * e + e * e;
  }

  /** Unless the longest row keeps it within full, there is an angle at which the vector takes
      two phases further apart than full. */
  lemma SomeAngleIsApart(k: real, v: Dq, full: real) returns (sc: SinCos)
    requires 0.0 <= full && !Reaches(k, v, full)
    ensures sc.Norm() <= 1.0 && full < InverseDqTransform(k, sc, v).a - InverseDqTransform(k, sc, v).b
  {
    var l, n := RowSquare(k), v.Norm();
    assert 0.0 <= k * k && 0.0 <= v.d * v.d && 0.0 <= v.q * v.q && 0.0 <= full * full;
    assert n != 0.0;
    var inverse := 1.0 / n;
    assert inverse * n == 1.0 && 0.0 < inverse;
    var start := full * inverse;
    StartFits(l, n, full, inverse, start);
    var t := Between(start, l * inverse);
    sc := AngleAlong(k, v, t);
    ApartAlong(k, v, t);
    ReachedApart(l, n, full, inverse, start, t, sc.Norm());
  }

  lemma StartFits(l: real, n: real, full: real, inverse: real, start: real)
    requires 0.0 <= full && full * full < l * n && inverse * n == 1.0 && 0.0 < inverse && start == full * inverse
    ensures 0.0 <= start && start * start < l * inverse
  {
    NonNegativeProduct(full, inverse, start);
    var square := inverse * inverse;
    PositiveProduct(inverse, inverse);
    PositiveProduct(l * n - full * full, square);
    assert (l * n) * square == l * inverse * (inverse * n);
    assert start * start == full * full * square;
  }

  lemma ReachedApart(l: real, n: real, full: real, inverse: real, start: real, t: real, norm: real)
    requires 0.0 < l && 0.0 < n && inverse * n == 1.0 && start == full * inverse && start < t && t * t <= l * inverse
    requires l * norm == t * t * n
    ensures full < t * n && norm <= 1.0
  {
    PositiveProduct(t - start, n);
    assert start * n == full * (inverse * n);
    Product2(t * t, l * inverse, n);
    assert l * inverse * n == l * (inverse * n);
    if norm > 1.0 { PositiveProduct(l, norm - 1.0); }
  }

  lemma Product2(x: real, y: real, n: real)
    requires x <= y && 0.0 < n
    ensures x * n <= y * n
  {
    if x < y { PositiveProduct(y - x, n); }
  }
}
