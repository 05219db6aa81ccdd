/** CRC-6 with polynomial x^6 + x + 1, as used by BiSS-C encoders.

    The firmware computes it with a 64-entry table, six message bits per lookup.
    Here the table path is tied to bit-serial division, and division to the
    polynomial remainder it stands for. */
module Crc6 {
  import opened BitStrings

  /** The 64 table entries, in rows of eight. */
  const ROWS: seq<seq<bv8>> := [
    [0x00, 0x03, 0x06, 0x05, 0x0C, 0x0F, 0x0A, 0x09],
    [0x18, 0x1B, 0x1E, 0x1D, 0x14, 0x17, 0x12, 0x11],
    [0x30, 0x33, 0x36, 0x35, 0x3C, 0x3F, 0x3A, 0x39],
    [0x28, 0x2B, 0x2E, 0x2D, 0x24, 0x27, 0x22, 0x21],
    [0x23, 0x20, 0x25, 0x26, 0x2F, 0x2C, 0x29, 0x2A],
    [0x3B, 0x38, 0x3D, 0x3E, 0x37, 0x34, 0x31, 0x32],
    [0x13, 0x10, 0x15, 0x16, 0x1F, 0x1C, 0x19, 0x1A],
    [0x0B, 0x08, 0x0D, 0x0E, 0x07, 0x04, 0x01, 0x02]
  ]

  /** Six bits of a machine word, most significant first. */
  datatype Six = Six(b5: bool, b4: bool, b3: bool, b2: bool, b1: bool, b0: bool) {
    function Row(): (v: nat)
      ensures v < 8
    {
      if b5 then (if b4 then (if b3 then 7 else 6) else (if b3 then 5 else 4))
      else (if b4 then (if b3 then 3 else 2) else (if b3 then 1 else 0))
    }

    function Column(): (v: nat)
      ensures v < 8
    {
      if b2 then (if b1 then (if b0 then 7 else 6) else (if b0 then 5 else 4))
      else (if b1 then (if b0 then 3 else 2) else (if b0 then 1 else 0))
    }

    function Xor(other: Six): Six {
      Six(b5 != other.b5, b4 != other.b4, b3 != other.b3, b2 != other.b2, b1 != other.b1, b0 != other.b0)
    }
  }

  const ZERO := Six(false, false, false, false, false, false)

  /** v & 0x3F */
  function LowSix(v: nat): Six {
    var high := v / 8;
    Six(high / 2 / 2 % 2 == 1, high / 2 % 2 == 1, high % 2 == 1, v / 2 / 2 % 2 == 1, v / 2 % 2 == 1, v % 2 == 1)
  }

  // ---------------------------------------------------------------------
  // The bit-serial register
  // ---------------------------------------------------------------------

  /** Take in one more message bit.  The register holds message * x^6 mod p,
      so a bit shifted out of the top comes back as x + 1. */
  function Step(crc: Six, bit: bool): Six {
    var out := crc.b5 != bit;
    Six(crc.b4, crc.b3, crc.b2, crc.b1, crc.b0 != out, out)
  }

  function CrcOf(bits: seq<bool>): Six {
    Run(Step, ZERO, bits)
  }

  function StepSix(crc: Six, w: Six): Six {
    Step(Step(Step(Step(Step(Step(crc, w.b5), w.b4), w.b3), w.b2), w.b1), w.b0)
  }

  /** x * x^6 = x * (x + 1) modulo the polynomial. */
  function TimesX6(x: Six): Six {
    Six(x.b5 != x.b4, x.b4 != x.b3, x.b3 != x.b2, x.b2 != x.b1, (x.b1 != x.b0) != x.b5, x.b0 != x.b5)
  }

  /** Six message bits at once are xored into the register. */
  lemma AbsorbSix(crc: Six, w: Six)
    ensures StepSix(crc, w) == TimesX6(w.Xor(crc))
  {
  }

  function AsBits(w: Six): seq<bool> {
    [w.b5, w.b4, w.b3] + [w.b2, w.b1, w.b0]
  }

  lemma LowSixBits(v: nat, n: nat)
    ensures Bits(v, n + 6) == Bits(v / 64, n) + AsBits(LowSix(v))
  {
    Triples(v, v / 8, v / 64, n);
  }

  lemma Triples(v: nat, h: nat, g: nat, n: nat)
    requires h == v / 8 && g == h / 8
    ensures Bits(v, n + 6) == Bits(g, n) + AsBits(LowSix(v))
  {
    var w := LowSix(v);
    LowThreeBits(v, n + 3);
    LowThreeBits(h, n);
    assert Bits(h, n + 3) == Bits(g, n) + [w.b5, w.b4, w.b3];
    Associates(Bits(g, n), [w.b5, w.b4, w.b3], [w.b2, w.b1, w.b0]);
  }

  lemma Associates(a: seq<bool>, b: seq<bool>, c: seq<bool>)
    ensures a + b + c == a + (b + c)
  {
  }

  lemma CrcSixBits(v: nat, n: nat)
    ensures CrcOf(Bits(v, n + 6)) == TimesX6(LowSix(v).Xor(CrcOf(Bits(v / 64, n))))
  {
    var crc := CrcOf(Bits(v / 64, n));
    LowSixBits(v, n);
    RunConcat(Step, ZERO, Bits(v / 64, n), AsBits(LowSix(v)));
    var w := LowSix(v);
    RunSixBits(Step, crc, w.b5, w.b4, w.b3, w.b2, w.b1, w.b0);
    AbsorbSix(crc, LowSix(v));
  }

  lemma LeadingZeros(v: nat, n: nat, m: nat)
    requires n <= m && v < Pow2(n)
    ensures CrcOf(Bits(v, m)) == CrcOf(Bits(v, n))
  {
    RunLeadingZeros(Step, ZERO, v, n, m);
  }

  // ---------------------------------------------------------------------
  // The table path
  // ---------------------------------------------------------------------

  function FromByte(x: bv8): Six {
    Six(x & 0x20 != 0, x & 0x10 != 0, x & 0x08 != 0, x & 0x04 != 0, x & 0x02 != 0, x & 0x01 != 0)
  }

  function Lookup(x: Six): Six {
    FromByte(ROWS[x.Row()][x.Column()])
  }

  lemma LookupIsDivision(x: Six)
    ensures Lookup(x) == TimesX6(x)
  {
  }

  lemma LookupStep(v: nat, n: nat)
    ensures Lookup(LowSix(v).Xor(CrcOf(Bits(v / 64, n)))) == CrcOf(Bits(v, n + 6))
  {
    CrcSixBits(v, n);
    LookupIsDivision(LowSix(v).Xor(CrcOf(Bits(v / 64, n))));
  }

  /** One lookup: shift the next six message bits into the register. */
  method TableStep(v: nat, crc: Six, ghost n: nat) returns (next: Six)
    requires crc == CrcOf(Bits(v / 64, n))
    ensures next == CrcOf(Bits(v, n + 6))
  {
    next := Lookup(LowSix(v).Xor(crc));
    LookupStep(v, n);
  }

  lemma ShiftsCompose(d: nat)
    ensures d / 0x1_0000_0000_0000 / 64 == d / 0x40_0000_0000_0000
    ensures d / 0x400_0000_0000 / 64 == d / 0x1_0000_0000_0000
    ensures d / 0x10_0000_0000 / 64 == d / 0x400_0000_0000
    ensures d / 0x4000_0000 / 64 == d / 0x10_0000_0000
    ensures d / 0x100_0000 / 64 == d / 0x4000_0000
    ensures d / 0x4_0000 / 64 == d / 0x100_0000
    ensures d / 0x1000 / 64 == d / 0x4_0000
    ensures d / 0x40 / 64 == d / 0x1000
  {
  }

  /** The firmware's CRC: ten lookups, or only the last five when the message
      has at most 30 bits. */
  method ComputeBisscCrc(data: nat, dataBits: nat) returns (crc: Six)
    requires data < 0x1_0000_0000_0000_0000
    ensures crc == CrcOf(Bits(data, if dataBits > 30 then 60 else 30))
    ensures dataBits <= 60 && data < Pow2(dataBits) ==> crc == CrcOf(Bits(data, dataBits))
  {
    crc := ZERO;
    if dataBits > 30 {
      crc := HighSteps(data);
    }
    crc := LowSteps(data, crc, if dataBits > 30 then 30 else 0);
    if dataBits <= 60 && data < Pow2(dataBits) {
      LeadingZeros(data, dataBits, if dataBits > 30 then 60 else 30);
    }
  }

  /** The five lookups for bits 30 to 59. */
  method HighSteps(data: nat) returns (crc: Six)
    requires data < 0x1_0000_0000_0000_0000
    ensures crc == CrcOf(Bits(data / 0x4000_0000, 30))
  {
    ShiftsCompose(data);
    crc := TableStep(data / 0x40_0000_0000_0000, ZERO, 0);
    crc := TableStep(data / 0x1_0000_0000_0000, crc, 6);
    crc := TableStep(data / 0x400_0000_0000, crc, 12);
    crc := TableStep(data / 0x10_0000_0000, crc, 18);
    crc := TableStep(data / 0x4000_0000, crc, 24);
  }

  /** The five lookups for the low thirty bits. */
  method LowSteps(data: nat, before: Six, ghost done: nat) returns (crc: Six)
    requires before == CrcOf(Bits(data / 0x4000_0000, done))
    ensures crc == CrcOf(Bits(data, done + 30))
  {
    ShiftsCompose(data);
    crc := TableStep(data / 0x100_0000, before, done);
    crc := TableStep(data / 0x4_0000, crc, done + 6);
    crc := TableStep(data / 0x1000, crc, done + 12);
    crc := TableStep(data / 0x40, crc, done + 18);
    crc := TableStep(data, crc, done + 24);
  }
}
