/** What the CRC-6 register computes, and which wire errors it catches.

    Polynomials over GF(2) are bit strings, most significant coefficient first;
    P is x^6 + x + 1. */
module Crc6Algebra {
  import opened BitStrings
  import opened Crc6

  // ---------------------------------------------------------------------
  // The CRC is the remainder of message * x^6 by P
  // ---------------------------------------------------------------------

  predicate At(s: seq<bool>, i: int) {
    0 <= i < |s| && s[i]
  }

  /** Coefficient i of q * P, where q * P is written with |q| + 6 coefficients. */
  predicate ProductAt(q: seq<bool>, i: int) {
    (At(q, i) != At(q, i - 5)) != At(q, i - 6)
  }

  /** Coefficient 5 - k of a remainder. */
  predicate RemainderAt(r: Six, k: int) {
    match k
    case 0 => r.b5
    case 1 => r.b4
    case 2 => r.b3
    case 3 => r.b2
    case 4 => r.b1
    case 5 => r.b0
    case _ => false
  }

  /** message * x^6 == q * P + r for some quotient q, with deg r < 6. */
  ghost predicate IsQuotient(message: seq<bool>, q: seq<bool>, r: Six) {
    |q| == |message| &&
    forall i :: 0 <= i < |message| + 6 ==>
      At(message, i) == (ProductAt(q, i) != RemainderAt(r, i - |message|))
  }

  ghost predicate IsRemainder(message: seq<bool>, r: Six) {
    exists q :: IsQuotient(message, q, r)
  }

  function Quotient(message: seq<bool>): (q: seq<bool>)
    ensures |q| == |message|
  {
    if |message| == 0 then [] else
      var front := message[..|message| - 1];
      Quotient(front) + [CrcOf(front).b5 != message[|message| - 1]]
  }

  lemma {:induction false} CrcDivides(message: seq<bool>)
    ensures IsQuotient(message, Quotient(message), CrcOf(message))
  {
    if |message| > 0 {
      var n := |message| - 1;
      var front, bit := message[..n], message[n];
      var q0, q, r0, r := Quotient(front), Quotient(message), CrcOf(front), CrcOf(message);
      CrcDivides(front);
      assert r == Step(r0, bit);
      forall i | 0 <= i < n + 7
        ensures At(message, i) == (ProductAt(q, i) != RemainderAt(r, i - (n + 1)))
      {
        QuotientGrows(q0, r0.b5 != bit, i);
        if i < n + 6 {
          assert At(front, i) == (ProductAt(q0, i) != RemainderAt(r0, i - n));
        }
      }
    }
  }

  lemma QuotientGrows(q: seq<bool>, top: bool, i: int)
    ensures ProductAt(q + [top], i) ==
            (ProductAt(q, i) != (top && (i == |q| || i == |q| + 5 || i == |q| + 6)))
  {
  }

  /** Two divisions of the same message agree: the leading coefficients fix the
      quotient one after the other. */
  lemma {:induction false} QuotientsAgree(message: seq<bool>, q1: seq<bool>, r1: Six, q2: seq<bool>, r2: Six, i: int)
    requires IsQuotient(message, q1, r1) && IsQuotient(message, q2, r2)
    requires i <= |message|
    ensures forall j :: j < i ==> At(q1, j) == At(q2, j)
    decreases i
  {
    if i > 0 {
      QuotientsAgree(message, q1, r1, q2, r2, i - 1);
      assert ProductAt(q1, i - 1) == ProductAt(q2, i - 1);
    }
  }

  lemma RemainderIsUnique(message: seq<bool>, r1: Six, r2: Six)
    requires IsRemainder(message, r1) && IsRemainder(message, r2)
    ensures r1 == r2
  {
    var n := |message|;
    var q1 :| IsQuotient(message, q1, r1);
    var q2 :| IsQuotient(message, q2, r2);
    QuotientsAgree(message, q1, r1, q2, r2, n);
    forall j: int
      ensures ProductAt(q1, j) == ProductAt(q2, j)
    {
    }
    forall k | 0 <= k < 6
      ensures RemainderAt(r1, k) == RemainderAt(r2, k)
    {
      assert At(message, n + k) == (ProductAt(q1, n + k) != RemainderAt(r1, k));
      assert At(message, n + k) == (ProductAt(q2, n + k) != RemainderAt(r2, k));
    }
    assert RemainderAt(r1, 0) == RemainderAt(r2, 0) && RemainderAt(r1, 1) == RemainderAt(r2, 1)
        && RemainderAt(r1, 2) == RemainderAt(r2, 2) && RemainderAt(r1, 3) == RemainderAt(r2, 3)
        && RemainderAt(r1, 4) == RemainderAt(r2, 4) && RemainderAt(r1, 5) == RemainderAt(r2, 5);
  }

  lemma CrcIsRemainder(message: seq<bool>, r: Six)
    ensures IsRemainder(message, r) <==> r == CrcOf(message)
  {
    CrcDivides(message);
    if IsRemainder(message, r) {
      RemainderIsUnique(message, r, CrcOf(message));
    }
  }

  // ---------------------------------------------------------------------
  // Linearity and the syndrome of an error pattern
  // ---------------------------------------------------------------------

  function XorBits(a: seq<bool>, b: seq<bool>): (c: seq<bool>)
    requires |a| == |b|
    ensures |c| == |a|
  {
    seq(|a|, i requires 0 <= i < |a| => a[i] != b[i])
  }

  lemma XorConcat(a: seq<bool>, b: seq<bool>, c: seq<bool>, d: seq<bool>)
    requires |a| == |c| && |b| == |d|
    ensures XorBits(a + b, c + d) == XorBits(a, c) + XorBits(b, d)
  {
  }

  lemma {:induction false} CrcIsLinear(a: seq<bool>, b: seq<bool>)
    requires |a| == |b|
    ensures CrcOf(XorBits(a, b)) == CrcOf(a).Xor(CrcOf(b))
  {
    if |a| > 0 {
      var n := |a| - 1;
      assert XorBits(a, b)[..n] == XorBits(a[..n], b[..n]);
      CrcIsLinear(a[..n], b[..n]);
    }
  }

  /** Plain division by P: append a coefficient to the dividend. */
  function Divide(s: Six, bit: bool): Six {
    Six(s.b4, s.b3, s.b2, s.b1, s.b0 != s.b5, bit != s.b5)
  }

  /** The whole codeword, message and check bits, reduced modulo P. */
  function Syndrome(codeword: seq<bool>): Six {
    Run(Divide, ZERO, codeword)
  }

  lemma {:induction false} CrcIsShiftedRemainder(message: seq<bool>)
    ensures CrcOf(message) == TimesX6(Syndrome(message))
  {
    if |message| > 0 {
      CrcIsShiftedRemainder(message[..|message| - 1]);
    }
  }

  /** s * x^3 + w, reduced. */
  function ThreeMore(s: Six, w2: bool, w1: bool, w0: bool): Six {
    Six(s.b2, s.b1, s.b0 != s.b5, (s.b5 != s.b4) != w2, (s.b4 != s.b3) != w1, s.b3 != w0)
  }

  lemma DivideThreeBits(s: Six, w2: bool, w1: bool, w0: bool)
    ensures Run(Divide, s, [w2, w1, w0]) == ThreeMore(s, w2, w1, w0)
  {
    RunThree(Divide, s, w2, w1, w0);
  }

  lemma SixMore(s: Six, w: Six)
    ensures ThreeMore(ThreeMore(s, w.b5, w.b4, w.b3), w.b2, w.b1, w.b0) == TimesX6(s).Xor(w)
  {
  }

  lemma DivideSixBits(s: Six, w: Six)
    ensures Run(Divide, s, AsBits(w)) == TimesX6(s).Xor(w)
  {
    RunConcat(Divide, s, [w.b5, w.b4, w.b3], [w.b2, w.b1, w.b0]);
    DivideThreeBits(s, w.b5, w.b4, w.b3);
    DivideThreeBits(ThreeMore(s, w.b5, w.b4, w.b3), w.b2, w.b1, w.b0);
    SixMore(s, w);
  }

  /** A message followed by six check bits divides evenly iff they are its CRC. */
  lemma SyndromeChecks(message: seq<bool>, check: Six)
    ensures Syndrome(message + AsBits(check)) == CrcOf(message).Xor(check)
  {
    var s := Syndrome(message);
    RunConcat(Divide, ZERO, message, AsBits(check));
    DivideSixBits(s, check);
    CrcIsShiftedRemainder(message);
  }

  // ---------------------------------------------------------------------
  // Which error patterns divide evenly
  // ---------------------------------------------------------------------

  function Zeros(n: nat): (z: seq<bool>)
    ensures |z| == n
  {
    seq(n, _ => false)
  }

  lemma {:induction false} ZerosStay(n: nat)
    ensures Run(Divide, ZERO, Zeros(n)) == ZERO
  {
    if n > 0 {
      assert Zeros(n)[..n - 1] == Zeros(n - 1);
      ZerosStay(n - 1);
    }
  }

  /** Multiplying by x is injective modulo P, so n times is too. */
  lemma {:induction false} ShiftIsInjective(s: Six, t: Six, n: nat)
    requires Run(Divide, s, Zeros(n)) == Run(Divide, t, Zeros(n))
    ensures s == t
  {
    if n > 0 {
      assert Zeros(n)[..n - 1] == Zeros(n - 1);
      ShiftIsInjective(s, t, n - 1);
    }
  }

  /** Any error confined to six consecutive bits has a non-zero syndrome. */
  lemma BurstIsCaught(before: nat, burst: Six, after: nat)
    requires burst != ZERO
    ensures Syndrome(Zeros(before) + AsBits(burst) + Zeros(after)) != ZERO
  {
    var head := Zeros(before) + AsBits(burst);
    RunConcat(Divide, ZERO, head, Zeros(after));
    SyndromeChecks(Zeros(before), burst);
    ZerosStay(before);
    CrcIsShiftedRemainder(Zeros(before));
    assert Syndrome(head) == burst;
    ZerosStay(after);
    if Run(Divide, burst, Zeros(after)) == Run(Divide, ZERO, Zeros(after)) {
      ShiftIsInjective(burst, ZERO, after);
    }
  }

  // Multiplication by x^2, x^4, ... x^32 modulo P.

  function Times1(s: Six): Six { Divide(s, false) }
  function Times2(s: Six): Six { Six(s.b3, s.b2, s.b1, s.b0 != s.b5, s.b5 != s.b4, s.b4) }
  function Times4(s: Six): Six { Six(s.b1, s.b0 != s.b5, s.b5 != s.b4, s.b4 != s.b3, s.b3 != s.b2, s.b2) }
  function Times8(s: Six): Six {
    Six(s.b3 != s.b2, s.b2 != s.b1, (s.b1 != s.b0) != s.b5, s.b0 != s.b4, s.b5 != s.b3, s.b4 != s.b3)
  }
  function Times16(s: Six): Six {
    var high, low := s.b5 != s.b4, s.b2 != s.b1;
    Six(high != s.b1, (high != s.b3) != s.b0, high != (s.b3 != s.b2), (s.b4 != s.b3) != low,
        (low != s.b3) != (s.b5 != s.b0), (s.b5 != s.b0) != s.b2)
  }
  function Times32(s: Six): Six {
    Six(s.b5 != s.b2, s.b4 != s.b1, (s.b5 != s.b3) != s.b0, (s.b5 != s.b4) != s.b2, (s.b4 != s.b3) != s.b1, s.b3 != s.b0)
  }

  lemma TimesDouble(s: Six)
    ensures Times4(Times4(s)) == Times8(s)
    ensures Times8(Times8(s)) == Times16(s)
    ensures Times16(Times16(s)) == Times32(s)
  {
    TwiceTimes4(s);
    TwiceTimes8(s);
    TwiceTimes16(s);
  }

  lemma TwiceTimes4(s: Six)
    ensures Times4(Times4(s)) == Times8(s)
  {
  }

  lemma TwiceTimes8(s: Six)
    ensures Times8(Times8(s)) == Times16(s)
  {
  }

  lemma TwiceTimes16(s: Six)
    ensures Times16(Times16(s)) == Times32(s)
  {
    var t, u, w := Times16(s), Times16(Times16(s)), Times32(s);
    assert u.b5 == w.b5 && u.b4 == w.b4;
    assert u.b3 == w.b3 && u.b2 == w.b2;
    assert u.b1 == w.b1 && u.b0 == w.b0;
  }

  lemma Zeros4(s: Six)
    ensures Run(Divide, s, Zeros(1)) == Times1(s)
    ensures Run(Divide, s, Zeros(2)) == Times2(s)
    ensures Run(Divide, s, Zeros(4)) == Times4(s)
  {
    Zeros1(s);
    Zeros2(s);
    Zeros2(Times2(s));
    ZerosAdd(s, 2, 2);
  }

  lemma Zeros1(s: Six)
    ensures Run(Divide, s, Zeros(1)) == Times1(s)
  {
    assert Zeros(1)[..0] == [];
  }

  lemma Zeros2(s: Six)
    ensures Run(Divide, s, Zeros(2)) == Times2(s)
  {
    Zeros1(s);
    Zeros1(Times1(s));
    ZerosAdd(s, 1, 1);
  }

  lemma Zeros32(s: Six)
    ensures Run(Divide, s, Zeros(8)) == Times8(s)
    ensures Run(Divide, s, Zeros(16)) == Times16(s)
    ensures Run(Divide, s, Zeros(32)) == Times32(s)
  {
    Zeros8(s);
    Zeros8(Times8(s));
    ZerosAdd(s, 8, 8);
    TimesDouble(s);
    Zeros8(Times16(s));
    Zeros8(Times8(Times16(s)));
    ZerosAdd(Times16(s), 8, 8);
    TimesDouble(Times16(s));
    ZerosAdd(s, 16, 16);
  }

  lemma Zeros8(s: Six)
    ensures Run(Divide, s, Zeros(8)) == Times8(s)
  {
    Zeros4(s);
    Zeros4(Times4(s));
    ZerosAdd(s, 4, 4);
    TimesDouble(s);
  }

  lemma ZerosAdd(s: Six, m: nat, n: nat)
    ensures Run(Divide, s, Zeros(m + n)) == Run(Divide, Run(Divide, s, Zeros(m)), Zeros(n))
  {
    assert Zeros(m + n) == Zeros(m) + Zeros(n);
    RunConcat(Divide, s, Zeros(m), Zeros(n));
  }

  const ONE := Six(false, false, false, false, false, true)

  /** x^k modulo P. */
  function Power(k: nat): Six {
    Run(Divide, ONE, Zeros(k))
  }

  lemma PowerAdds(m: nat, n: nat)
    ensures Power(m + n) == Run(Divide, Power(m), Zeros(n))
  {
    ZerosAdd(ONE, m, n);
  }

  /** x^5, x^9 and x^21 by repeated squaring; k is the exponent. */
  lemma Power5(k: nat)
    requires k == 5
    ensures Power(k) == Six(true, false, false, false, false, false)
  {
    Zeros4(ONE);
    Zeros4(Times1(ONE));
    PowerAdds(k - 4, k - 1);
  }

  lemma Power9(k: nat)
    requires k == 9
    ensures Power(k) == Six(false, true, true, false, false, false)
  {
    Zeros4(ONE);
    Zeros8(Times1(ONE));
    PowerAdds(k - 8, k - 1);
  }

  lemma Power21(k: nat)
    requires k == 21
    ensures Power(k) == Six(true, true, true, false, true, true)
  {
    Power5(k - 16);
    Zeros32(Six(true, false, false, false, false, false));
    PowerAdds(k - 16, k - 5);
  }

  lemma Power63(k: nat)
    requires k == 63
    ensures Power(k) == ONE
  {
    Zeros32(ONE);
    Zeros32(Times32(ONE));
    PowerAdds(k - 31, k - 31);
    Zeros4(ONE);
    Zeros4(Power(k));
    PowerAdds(k, k - 62);
    ShiftIsInjective(Power(k), ONE, k - 62);
  }

  lemma {:induction false} Multiples(g: nat, m: nat)
    requires Power(g) == ONE
    ensures Power(m * g) == ONE
  {
    if m > 0 {
      Multiples(g, m - 1);
      PowerAdds((m - 1) * g, g);
    }
  }

  lemma Difference(a: nat, b: nat)
    requires b <= a && Power(a) == ONE && Power(b) == ONE
    ensures Power(a - b) == ONE
  {
    PowerAdds(a - b, b);
    ShiftIsInjective(Power(a - b), ONE, b);
  }

  /** Exponents at which x^k is 1 are closed under Euclid's algorithm. */
  lemma {:induction false} CommonDivisor(a: nat, b: nat) returns (g: nat, m: nat, n: nat)
    requires a > 0 && b > 0 && Power(a) == ONE && Power(b) == ONE
    ensures a == m * g && b == n * g && 0 < g && Power(g) == ONE
    decreases a + b
  {
    if a == b {
      g, m, n := a, 1, 1;
    } else if a > b {
      Difference(a, b);
      g, m, n := CommonDivisor(a - b, b);
      m := m + n;
    } else {
      Difference(b, a);
      g, m, n := CommonDivisor(a, b - a);
      n := n + m;
    }
  }

  lemma DivisorsOf63(g: nat, m: nat)
    requires m * g == 63 && g < 63
    ensures g == 1 || g == 3 || g == 9 || g == 7 || g == 21
  {
    assert m >= 2;
    assert g <= 31;
    if m <= 31 {
      assert m == 3 || m == 7 || m == 9 || m == 21;
    }
  }

  lemma OrderIs63(d: nat)
    requires 0 < d < 63
    ensures Power(d) != ONE
  {
    if Power(d) == ONE {
      var k := d + (63 - d);
      Power63(k);
      var g, m, n := CommonDivisor(k, d);
      DivisorsOf63(g, m);
      if g == 1 || g == 3 || g == 9 {
        Multiples(g, 9 / g);
        Power9(9 / g * g);
      } else {
        Multiples(g, 21 / g);
        Power21(21 / g * g);
      }
      assert false;
    }
  }

  /** x has multiplicative order 63: P is primitive. */
  lemma {:induction false} PowerIsOne(k: nat)
    ensures Power(k) == ONE <==> k % 63 == 0
  {
    if k >= 63 {
      var c := k - (k - 63);
      Power63(c);
      PowerAdds(c, k - c);
      PowerIsOne(k - 63);
    } else if k > 0 {
      OrderIs63(k);
    }
  }

  lemma PowersCollide(m: nat, n: nat)
    requires m <= n
    ensures Power(m) == Power(n) <==> (n - m) % 63 == 0
  {
    PowerAdds(n - m, m);
    PowerIsOne(n - m);
    if Power(m) == Power(n) {
      ShiftIsInjective(ONE, Power(n - m), m);
    }
  }

  lemma {:induction false} SyndromeIsLinear(a: seq<bool>, b: seq<bool>)
    requires |a| == |b|
    ensures Syndrome(XorBits(a, b)) == Syndrome(a).Xor(Syndrome(b))
  {
    if |a| > 0 {
      var n := |a| - 1;
      assert XorBits(a, b)[..n] == XorBits(a[..n], b[..n]);
      SyndromeIsLinear(a[..n], b[..n]);
    }
  }

  function OneBit(before: nat, after: nat): (e: seq<bool>)
    ensures |e| == before + 1 + after
  {
    Zeros(before) + [true] + Zeros(after)
  }

  lemma OneBitSyndrome(before: nat, after: nat)
    ensures Syndrome(OneBit(before, after)) == Power(after)
  {
    ZerosStay(before);
    RunAppend(Divide, ZERO, Zeros(before), true);
    RunConcat(Divide, ZERO, Zeros(before) + [true], Zeros(after));
  }

  function TwoBits(first: nat, second: nat, length: nat): (e: seq<bool>)
    requires first < second < length
    ensures |e| == length
  {
    XorBits(OneBit(first, length - 1 - first), OneBit(second, length - 1 - second))
  }

  /** Two flipped bits escape the CRC exactly when their distance is a multiple of 63. */
  lemma TwoBitsCaught(first: nat, second: nat, length: nat)
    requires first < second < length
    ensures Syndrome(TwoBits(first, second, length)) == ZERO <==> (second - first) % 63 == 0
  {
    SyndromeIsLinear(OneBit(first, length - 1 - first), OneBit(second, length - 1 - second));
    OneBitSyndrome(first, length - 1 - first);
    OneBitSyndrome(second, length - 1 - second);
    PowersCollide(length - 1 - second, length - 1 - first);
  }
}
