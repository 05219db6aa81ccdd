/** The CRC-8 that protects the lines of the serial protocol: polynomial x^8 + 0x97, most
    significant bit first, computed four bits at a time from a 16-entry table. */
module Crc8 {

  const LOW_ROW: seq<nat> := [0x00, 0x97, 0xb9, 0x2e, 0xe5, 0x72, 0x5c, 0xcb]
  const HIGH_ROW: seq<nat> := [0x5d, 0xca, 0xe4, 0x73, 0xb8, 0x2f, 0x01, 0x96]

  datatype Nibble = Nibble(b3: bool, b2: bool, b1: bool, b0: bool) {
    function Low(): (v: nat)
      ensures v < 8
    {
      if b2 then (if b1 then (if b0 then 7 else 6) else (if b0 then 5 else 4))
      else (if b1 then (if b0 then 3 else 2) else (if b0 then 1 else 0))
    }

    function Value(): (v: nat)
      ensures v < 16
    {
      if b3 then 8 + Low() else Low()
    }

    function Xor(other: Nibble): Nibble {
      Nibble(b3 != other.b3, b2 != other.b2, b1 != other.b1, b0 != other.b0)
    }
  }

  function NibbleOf(v: nat): Nibble {
    Nibble(v / 2 / 2 / 2 % 2 == 1, v / 2 / 2 % 2 == 1, v / 2 % 2 == 1, v % 2 == 1)
  }

  /** A byte, as its two nibbles. */
  datatype Octet = Octet(hi: Nibble, lo: Nibble) {
    function Value(): nat { 16 * hi.Value() + lo.Value() }

    function Xor(other: Octet): Octet { Octet(hi.Xor(other.hi), lo.Xor(other.lo)) }
  }

  const CLEAR := Nibble(false, false, false, false)
  const ZERO := Octet(CLEAR, CLEAR)

  function OctetOf(v: nat): Octet { Octet(NibbleOf(v / 16), NibbleOf(v)) }

  /** The byte of a character. */
  function ByteOf(c: char): Octet { OctetOf(c as int % 256) }

  lemma NibbleRoundTrip(v: nat)
    ensures NibbleOf(v).Value() == v % 16
  {
    Halves(v, v / 2, v / 2 / 2, v / 2 / 2 / 2);
    NibbleValue(NibbleOf(v));
  }

  lemma NibbleValue(n: Nibble)
    ensures n.Value() == (if n.b3 then 8 else 0) + (if n.b2 then 4 else 0) + (if n.b1 then 2 else 0) + (if n.b0 then 1 else 0)
  {
  }

  lemma Halves(v: nat, h: nat, q: nat, e: nat)
    requires h == v / 2 && q == h / 2 && e == q / 2
    ensures v % 16 == 8 * (e % 2) + 4 * (q % 2) + 2 * (h % 2) + v % 2
  {
    assert v == 16 * (e / 2) + (8 * (e % 2) + 4 * (q % 2) + 2 * (h % 2) + v % 2);
  }

  lemma OctetRoundTrip(v: nat)
    requires v < 256
    ensures OctetOf(v).Value() == v
  {
    NibbleRoundTrip(v / 16);
    NibbleRoundTrip(v);
    OctetValue(OctetOf(v), v);
  }

  lemma OctetValue(o: Octet, v: nat)
    requires v < 256 && o.hi.Value() == v / 16 % 16 && o.lo.Value() == v % 16
    ensures o.Value() == v
  {
  }

  // ---------------------------------------------------------------------
  // Bit-serial division
  // ---------------------------------------------------------------------

  /** Shift in one message bit; a bit leaving at the top comes back as 0x97. */
  function Step(crc: Octet, bit: bool): Octet {
    var out := crc.hi.b3 != bit;
    Octet(Nibble(crc.hi.b2 != out, crc.hi.b1, crc.hi.b0, crc.lo.b3 != out),
          Nibble(crc.lo.b2, crc.lo.b1 != out, crc.lo.b0 != out, out))
  }

  function StepNibble(crc: Octet, n: Nibble): Octet { Step(Step(Step(Step(crc, n.b3), n.b2), n.b1), n.b0) }

  function StepByte(crc: Octet, b: Octet): Octet { StepNibble(StepNibble(crc, b.hi), b.lo) }

  function Fold(step: (Octet, char) -> Octet, start: Octet, text: seq<char>): Octet {
    if text == [] then start else step(Fold(step, start, text[..|text| - 1]), text[|text| - 1])
  }

  const NEXT: (Octet, char) -> Octet := (crc, c) => StepByte(crc, ByteOf(c))

  /** The remainder of a whole text, one bit at a time. */
  function Divide(text: seq<char>): Octet { Fold(NEXT, ZERO, text) }

  // ---------------------------------------------------------------------
  // The table path
  // ---------------------------------------------------------------------

  function Lookup(n: Nibble): Octet { OctetOf(if n.b3 then HIGH_ROW[n.Low()] else LOW_ROW[n.Low()]) }

  /** kCrc8Table[((crc >> 4) ^ n) & 0x0f] ^ (crc << 4) */
  function TableNibble(crc: Octet, n: Nibble): Octet { Lookup(crc.hi.Xor(n)).Xor(Octet(crc.lo, CLEAR)) }

  /** Every table entry is what four bit steps make of its index. */
  lemma LookupIsDivision(n: Nibble)
    ensures Lookup(n) == StepNibble(ZERO, n)
  {
    if n.b3 {
      HighRow(n);
    } else {
      LowRow(n);
    }
  }

  lemma LowRow(n: Nibble)
    requires !n.b3
    ensures Lookup(n) == StepNibble(ZERO, n)
  {
    var v := LOW_ROW[n.Low()];
    assert v == if n.b2 then (if n.b1 then (if n.b0 then 0xcb else 0x5c) else (if n.b0 then 0x72 else 0xe5))
                else (if n.b1 then (if n.b0 then 0x2e else 0xb9) else (if n.b0 then 0x97 else 0x00));
  }

  lemma HighRow(n: Nibble)
    requires n.b3
    ensures Lookup(n) == StepNibble(ZERO, n)
  {
    var v := HIGH_ROW[n.Low()];
    assert v == if n.b2 then (if n.b1 then (if n.b0 then 0x96 else 0x01) else (if n.b0 then 0x2f else 0xb8))
                else (if n.b1 then (if n.b0 then 0x73 else 0xe4) else (if n.b0 then 0xca else 0x5d));
  }

  /** x * x^8 modulo the polynomial, for the four bits of x. */
  function Spread(x: Nibble): Octet {
    Octet(Nibble((x.b0 != x.b1) != x.b2, x.b2 != x.b3, x.b1 != x.b2, (x.b0 != x.b1) != x.b3),
          Nibble(x.b1 != x.b3, (x.b0 != x.b2) != x.b3, x.b0, ((x.b0 != x.b1) != x.b2) != x.b3))
  }

  /** Division is linear: the register's high nibble may be added to the message. */
  lemma AbsorbNibble(crc: Octet, n: Nibble)
    ensures StepNibble(crc, n) == Spread(crc.hi.Xor(n)).Xor(Octet(crc.lo, CLEAR))
  {
    var x := crc.hi.Xor(n);
    TwoSteps(crc, n.b3, n.b2);
    TwoSteps(Step(Step(crc, n.b3), n.b2), n.b1, n.b0);
  }

  lemma TwoSteps(crc: Octet, p: bool, q: bool)
    ensures Step(Step(crc, p), q) == Doubled(crc, crc.hi.b3 != p, crc.hi.b2 != q)
  {
  }

  /** The register after two steps, given what the message adds to its top bits. */
  function Doubled(crc: Octet, x: bool, z: bool): Octet {
    var y := z != x;
    Octet(Nibble(crc.hi.b1 != y, crc.hi.b0, crc.lo.b3 != x, crc.lo.b2 != y),
          Nibble(crc.lo.b1 != x, (crc.lo.b0 != x) != y, z, y))
  }

  lemma TableIsDivision(crc: Octet, n: Nibble)
    ensures TableNibble(crc, n) == StepNibble(crc, n)
  {
    LookupIsDivision(crc.hi.Xor(n));
    AbsorbNibble(crc, n);
  }

  /** The firmware's loop, on any text. */
  method ComputeCrc8(text: seq<char>) returns (crc: Octet)
    ensures crc == Divide(text)
  {
    crc := ZERO;
    for i := 0 to |text|
      invariant crc == Divide(text[..i])
    {
      var b := ByteOf(text[i]);
      TableIsDivision(crc, b.hi);
      crc := TableNibble(crc, b.hi);
      TableIsDivision(crc, b.lo);
      crc := TableNibble(crc, b.lo);
      assert text[..i + 1][..i] == text[..i];
    }
    assert text[..|text|] == text;
  }

  // ---------------------------------------------------------------------
  // Error detection
  // ---------------------------------------------------------------------

  lemma SpreadInjective(x: Nibble, y: Nibble)
    requires Spread(x).lo == Spread(y).lo
    ensures x == y
  {
  }

  lemma XorCancels(a: Nibble, b: Nibble, c: Nibble)
    requires a.Xor(c) == b.Xor(c) || c.Xor(a) == c.Xor(b)
    ensures a == b
  {
  }

  /** A nibble step never merges two registers or two messages. */
  lemma StepNibbleInjective(c: Octet, d: Octet, n: Nibble, m: Nibble)
    requires StepNibble(c, n) == StepNibble(d, m)
    ensures c.hi.Xor(n) == d.hi.Xor(m)
    ensures Spread(c.hi.Xor(n)).hi.Xor(c.lo) == Spread(d.hi.Xor(m)).hi.Xor(d.lo)
    ensures c.lo == d.lo
  {
    AbsorbNibble(c, n);
    AbsorbNibble(d, m);
    SpreadIsLow(c, n);
    SpreadIsLow(d, m);
    SpreadInjective(c.hi.Xor(n), d.hi.Xor(m));
    XorCancels(c.lo, d.lo, Spread(c.hi.Xor(n)).hi);
  }

  lemma SpreadIsLow(c: Octet, n: Nibble)
    ensures Spread(c.hi.Xor(n)).Xor(Octet(c.lo, CLEAR)) ==
      Octet(Spread(c.hi.Xor(n)).hi.Xor(c.lo), Spread(c.hi.Xor(n)).lo)
    ensures Spread(c.hi.Xor(n)).hi.Xor(c.lo) == c.lo.Xor(Spread(c.hi.Xor(n)).hi)
  {
  }

  /** Equal message bytes keep different remainders apart, different ones part equal remainders. */
  lemma StepByteInjective(c: Octet, d: Octet, b: Octet, a: Octet)
    requires StepByte(c, b) == StepByte(d, a)
    ensures b == a ==> c == d
    ensures c == d ==> b == a
  {
    var x, y := StepNibble(c, b.hi), StepNibble(d, a.hi);
    StepNibbleInjective(x, y, b.lo, a.lo);
    AbsorbNibble(c, b.hi);
    AbsorbNibble(d, a.hi);
    SpreadIsLow(c, b.hi);
    SpreadIsLow(d, a.hi);
    SpreadInjective(c.hi.Xor(b.hi), d.hi.Xor(a.hi));
    ByteFromNibbles(c, d, b, a, x.hi, y.hi);
  }

  lemma ByteFromNibbles(c: Octet, d: Octet, b: Octet, a: Octet, x: Nibble, y: Nibble)
    requires c.hi.Xor(b.hi) == d.hi.Xor(a.hi) && x.Xor(b.lo) == y.Xor(a.lo)
    requires x == Spread(c.hi.Xor(b.hi)).hi.Xor(c.lo) && y == Spread(d.hi.Xor(a.hi)).hi.Xor(d.lo)
    ensures b == a ==> c == d
    ensures c == d ==> b == a
  {
    if b == a {
      XorCancels(c.hi, d.hi, b.hi);
      XorCancels(x, y, b.lo);
      XorCancels(c.lo, d.lo, Spread(c.hi.Xor(b.hi)).hi);
    }
    if c == d {
      XorCancels(b.hi, a.hi, c.hi);
      XorCancels(b.lo, a.lo, x);
    }
  }

  lemma DifferentBytes(c: char, d: char)
    requires c != d && c as int < 256 && d as int < 256
    ensures ByteOf(c) != ByteOf(d)
  {
    ByteValue(c);
    ByteValue(d);
  }

  lemma ByteValue(c: char)
    requires c as int < 256
    ensures ByteOf(c).Value() == c as int
  {
    var v := c as int;
    assert v % 256 == v;
    OctetRoundTrip(v);
  }

  /** A step that keeps registers apart and parts two characters tells their texts apart. */
  lemma {:induction false} FoldDiffers(step: (Octet, char) -> Octet, start: Octet, s: seq<char>, i: nat, c: char)
    requires i < |s|
    requires forall x, y, d :: x != y ==> step(x, d) != step(y, d)
    requires forall x :: step(x, s[i]) != step(x, c)
    ensures Fold(step, start, s) != Fold(step, start, s[i := c])
  {
    var n := |s| - 1;
    if i == n {
      assert s[i := c][..n] == s[..n];
    } else {
      FoldDiffers(step, start, s[..n], i, c);
      assert s[i := c][..n] == s[..n][i := c];
    }
  }

  /** A single corrupted byte anywhere in a text always changes its CRC. */
  lemma CorruptionIsSeen(s: seq<char>, i: nat, c: char)
    requires i < |s| && s[i] != c && s[i] as int < 256 && c as int < 256
    ensures Divide(s) != Divide(s[i := c])
  {
    DifferentBytes(s[i], c);
    forall x, y, d | x != y
      ensures NEXT(x, d) != NEXT(y, d)
    {
      DifferentSteps(x, y, ByteOf(d), ByteOf(d));
    }
    forall x
      ensures NEXT(x, s[i]) != NEXT(x, c)
    {
      DifferentSteps(x, x, ByteOf(s[i]), ByteOf(c));
    }
    FoldDiffers(NEXT, ZERO, s, i, c);
  }

  lemma DifferentSteps(x: Octet, y: Octet, b: Octet, a: Octet)
    requires (x != y && b == a) || (x == y && b != a)
    ensures StepByte(x, b) != StepByte(y, a)
  {
    if StepByte(x, b) == StepByte(y, a) {
      StepByteInjective(x, y, b, a);
    }
  }
}
