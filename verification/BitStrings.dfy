/** Numbers as bit strings, most significant bit first, and registers that
    consume a bit string one bit at a time. */
module BitStrings {

  function Pow2(n: nat): (p: nat)
    ensures p > 0
  {
    if n == 0 then 1 else 2 * Pow2(n - 1)
  }

  function Unit(b: bool): (r: nat)
    ensures r <= 1
  {
    if b then 1 else 0
  }

  function Number(bits: seq<bool>): nat {
    if |bits| == 0 then 0 else 2 * Number(bits[..|bits| - 1]) + Unit(bits[|bits| - 1])
  }

  function Bits(v: nat, n: nat): (bits: seq<bool>)
    ensures |bits| == n
  {
    if n == 0 then [] else Bits(v / 2, n - 1) + [v % 2 == 1]
  }

  /** Reading a bit string as a number loses nothing. */
  lemma {:induction false} BitsOfNumber(bits: seq<bool>)
    ensures Number(bits) < Pow2(|bits|)
    ensures Bits(Number(bits), |bits|) == bits
  {
    if |bits| > 0 {
      var n := |bits| - 1;
      BitsOfNumber(bits[..n]);
      assert bits == bits[..n] + [bits[n]];
    }
  }

  lemma {:induction false} NumberOfBits(v: nat, n: nat)
    requires v < Pow2(n)
    ensures Number(Bits(v, n)) == v
  {
    if n > 0 {
      NumberOfBits(v / 2, n - 1);
      assert Bits(v, n)[..n - 1] == Bits(v / 2, n - 1);
    }
  }

  lemma Pow2Add8(n: nat)
    ensures Pow2(n + 8) == 256 * Pow2(n)
  {
    assert Pow2(n + 2) == 4 * Pow2(n);
    assert Pow2(n + 4) == 4 * Pow2(n + 2);
    assert Pow2(n + 6) == 4 * Pow2(n + 4);
  }

  lemma {:induction false} Pow2Adds(m: nat, n: nat)
    ensures Pow2(m + n) == Pow2(m) * Pow2(n)
  {
    if n > 0 {
      Pow2Adds(m, n - 1);
      assert Pow2(m) * Pow2(n) == 2 * (Pow2(m) * Pow2(n - 1));
    }
  }

  lemma Pow2Words()
    ensures Pow2(32) == 0x1_0000_0000
    ensures Pow2(64) == 0x1_0000_0000_0000_0000
  {
    Pow2Add8(0);
    Pow2Add8(8);
    Pow2Add8(16);
    Pow2Add8(24);
    Pow2Add8(32);
    Pow2Add8(40);
    Pow2Add8(48);
    Pow2Add8(56);
  }

  /** Four more bits at the low end. */
  lemma NumberOfFour(bits: seq<bool>, n: nat)
    requires n + 4 <= |bits|
    ensures Number(bits[..n + 4]) == 16 * Number(bits[..n]) +
              (8 * Unit(bits[n]) + 4 * Unit(bits[n + 1]) + 2 * Unit(bits[n + 2]) + Unit(bits[n + 3]))
  {
    NumberOfOne(bits, n);
    NumberOfOne(bits, n + 1);
    NumberOfOne(bits, n + 2);
    NumberOfOne(bits, n + 3);
  }

  lemma NumberOfOne(bits: seq<bool>, n: nat)
    requires n < |bits|
    ensures Number(bits[..n + 1]) == 2 * Number(bits[..n]) + Unit(bits[n])
  {
    assert bits[..n + 1][..n] == bits[..n];
  }

  lemma {:induction false} Pow2Grows(n: nat, m: nat)
    requires n <= m
    ensures Pow2(n) <= Pow2(m)
  {
    if n < m {
      Pow2Grows(n, m - 1);
    }
  }

  // ---------------------------------------------------------------------
  // Registers
  // ---------------------------------------------------------------------

  /** The register after the whole bit string has been shifted in. */
  function Run<S>(step: (S, bool) -> S, start: S, bits: seq<bool>): S {
    if |bits| == 0 then start
    else step(Run(step, start, bits[..|bits| - 1]), bits[|bits| - 1])
  }

  lemma {:induction false} RunConcat<S>(step: (S, bool) -> S, start: S, a: seq<bool>, b: seq<bool>)
    ensures Run(step, start, a + b) == Run(step, Run(step, start, a), b)
  {
    if |b| == 0 {
      assert a + b == a;
    } else {
      var k := |b| - 1;
      assert (a + b)[..|a| + k] == a + b[..k];
      RunConcat(step, start, a, b[..k]);
    }
  }

  lemma BitsAppend(h: nat, b: bool, n: nat)
    ensures Bits(2 * h + Unit(b), n + 1) == Bits(h, n) + [b]
  {
  }

  lemma RunAppend<S>(step: (S, bool) -> S, start: S, bits: seq<bool>, b: bool)
    ensures Run(step, start, bits + [b]) == step(Run(step, start, bits), b)
  {
    assert (bits + [b])[..|bits|] == bits;
  }

  lemma {:induction false} BitsWiden(v: nat, n: nat, m: nat)
    requires n <= m && v < Pow2(n)
    ensures Bits(v, m) == Bits(0, m - n) + Bits(v, n)
  {
    if n > 0 {
      BitsWiden(v / 2, n - 1, m - 1);
    }
  }

  /** Leading zeros leave a register that a zero bit does not disturb at its start. */
  lemma {:induction false} RunZeros<S>(step: (S, bool) -> S, start: S, n: nat)
    requires step(start, false) == start
    ensures Run(step, start, Bits(0, n)) == start
  {
    if n > 0 {
      RunZeros(step, start, n - 1);
      BitsAppend(0, false, n - 1);
      assert Bits(0, n)[..n - 1] == Bits(0, n - 1);
    }
  }

  lemma RunLeadingZeros<S>(step: (S, bool) -> S, start: S, v: nat, n: nat, m: nat)
    requires n <= m && v < Pow2(n)
    requires step(start, false) == start
    ensures Run(step, start, Bits(v, m)) == Run(step, start, Bits(v, n))
  {
    BitsWiden(v, n, m);
    RunConcat(step, start, Bits(0, m - n), Bits(v, n));
    RunZeros(step, start, m - n);
  }

  lemma RunThree<S>(step: (S, bool) -> S, start: S, b2: bool, b1: bool, b0: bool)
    ensures Run(step, start, [b2, b1, b0]) == step(step(step(start, b2), b1), b0)
  {
    assert [b2, b1, b0] == [b2, b1] + [b0] && [b2, b1] == [b2] + [b1] && [b2] == [] + [b2];
    RunAppend(step, start, [], b2);
    RunAppend(step, start, [b2], b1);
    RunAppend(step, start, [b2, b1], b0);
  }

  lemma RunSixBits<S>(step: (S, bool) -> S, start: S,
                      b5: bool, b4: bool, b3: bool, b2: bool, b1: bool, b0: bool)
    ensures Run(step, start, [b5, b4, b3] + [b2, b1, b0]) ==
            step(step(step(step(step(step(start, b5), b4), b3), b2), b1), b0)
  {
    RunConcat(step, start, [b5, b4, b3], [b2, b1, b0]);
    RunThree(step, start, b5, b4, b3);
    RunThree(step, step(step(step(start, b5), b4), b3), b2, b1, b0);
  }

  lemma LowThreeBits(v: nat, n: nat)
    ensures Bits(v, n + 3) == Bits(v / 8, n) + [v / 2 / 2 % 2 == 1, v / 2 % 2 == 1, v % 2 == 1]
  {
    assert v / 2 / 2 / 2 == v / 8;
    assert Bits(v / 2 / 2, n + 1) == Bits(v / 8, n) + [v / 2 / 2 % 2 == 1];
    assert Bits(v / 2, n + 2) == Bits(v / 2 / 2, n + 1) + [v / 2 % 2 == 1];
  }
}
