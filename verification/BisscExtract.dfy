/** BiSS-C frame extraction from DMA-captured 8-bit port samples.

    One sample is one port read; the encoder line is one bit of it.  The firmware
    scans and collects four samples at a time; the reference decoder here looks
    at one line level after the other. */
module BisscExtract {
  import opened BitStrings
  import opened Crc6

  // ---------------------------------------------------------------------
  // Samples and the line they carry
  // ---------------------------------------------------------------------

  function PinMask(pin: nat): (m: bv8)
    requires pin <= 7
  {
    if pin == 0 then 0x01 else if pin == 1 then 0x02 else if pin == 2 then 0x04 else if pin == 3 then 0x08
    else if pin == 4 then 0x10 else if pin == 5 then 0x20 else if pin == 6 then 0x40 else 0x80
  }

  predicate Level(sample: bv8, mask: bv8) {
    sample & mask != 0
  }

  function Line(samples: seq<bv8>, mask: bv8): (line: seq<bool>)
    ensures |line| == |samples|
  {
    seq(|samples|, i requires 0 <= i < |samples| => Level(samples[i], mask))
  }

  // ---------------------------------------------------------------------
  // Four samples as one little-endian word
  // ---------------------------------------------------------------------

  function Word(b0: bv8, b1: bv8, b2: bv8, b3: bv8): bv32 {
    (b0 as bv32) | ((b1 as bv32) << 8) | ((b2 as bv32) << 16) | ((b3 as bv32) << 24)
  }

  /** The pin's mask repeated in all four bytes. */
  function Mask4(pin: nat): bv32
    requires pin <= 7
  {
    (PinMask(pin) as bv32) * 0x0101_0101
  }

  function ShiftDown(w: bv32, pin: nat): bv32
    requires pin <= 7
  {
    if pin == 0 then w else if pin == 1 then w >> 1 else if pin == 2 then w >> 2 else if pin == 3 then w >> 3
    else if pin == 4 then w >> 4 else if pin == 5 then w >> 5 else if pin == 6 then w >> 6 else w >> 7
  }

  /** The multiplication trick: bits at 0, 8, 16, 24 gathered at 27..24. */
  function GatherBits(samples: bv32, pin: nat): bv32
    requires pin <= 7
  {
    (ShiftDown(samples & Mask4(pin), pin) * 0x0804_0201) >> 24
  }

  lemma Normalized(b0: bv8, b1: bv8, b2: bv8, b3: bv8, pin: nat)
    requires pin <= 7
    ensures ShiftDown(Word(b0, b1, b2, b3) & Mask4(pin), pin) ==
            Spread(Level(b0, PinMask(pin)), Level(b1, PinMask(pin)), Level(b2, PinMask(pin)), Level(b3, PinMask(pin)))
  {
    if pin <= 3 {
      LowPins(b0, b1, b2, b3, pin);
    } else {
      HighPins(b0, b1, b2, b3, pin);
    }
  }

  lemma LowPins(b0: bv8, b1: bv8, b2: bv8, b3: bv8, pin: nat)
    requires pin <= 3
    ensures ShiftDown(Word(b0, b1, b2, b3) & Mask4(pin), pin) ==
            Spread(Level(b0, PinMask(pin)), Level(b1, PinMask(pin)), Level(b2, PinMask(pin)), Level(b3, PinMask(pin)))
  {
  }

  lemma HighPins(b0: bv8, b1: bv8, b2: bv8, b3: bv8, pin: nat)
    requires 4 <= pin <= 7
    ensures ShiftDown(Word(b0, b1, b2, b3) & Mask4(pin), pin) ==
            Spread(Level(b0, PinMask(pin)), Level(b1, PinMask(pin)), Level(b2, PinMask(pin)), Level(b3, PinMask(pin)))
  {
  }

  function Spread(l0: bool, l1: bool, l2: bool, l3: bool): bv32 {
    (if l0 then 0x0000_0001 else 0) | (if l1 then 0x0000_0100 else 0) |
    (if l2 then 0x0001_0000 else 0) | (if l3 then 0x0100_0000 else 0)
  }

  lemma MultiplyGathers(l0: bool, l1: bool, l2: bool, l3: bool)
    ensures ((Spread(l0, l1, l2, l3) * 0x0804_0201) >> 24) as nat == 8 * Unit(l0) + 4 * Unit(l1) + 2 * Unit(l2) + Unit(l3)
  {
  }

  lemma GatheredValue(b0: bv8, b1: bv8, b2: bv8, b3: bv8, pin: nat)
    requires pin <= 7
    ensures GatherBits(Word(b0, b1, b2, b3), pin) as nat ==
            8 * Unit(Level(b0, PinMask(pin))) + 4 * Unit(Level(b1, PinMask(pin))) + 2 * Unit(Level(b2, PinMask(pin))) + Unit(Level(b3, PinMask(pin)))
  {
    Normalized(b0, b1, b2, b3, pin);
    MultiplyGathers(Level(b0, PinMask(pin)), Level(b1, PinMask(pin)), Level(b2, PinMask(pin)), Level(b3, PinMask(pin)));
  }

  // ---------------------------------------------------------------------
  // Finding the START bit
  // ---------------------------------------------------------------------

  /** Count trailing zeros. */
  function Ctz(x: bv32): nat
    requires x != 0
    decreases x
  {
    if x & 1 != 0 then 0 else ShiftShrinks(x); 1 + Ctz(x >> 1)
  }

  lemma ShiftShrinks(x: bv32)
    requires x & 1 == 0 && x != 0
    ensures x >> 1 < x && x >> 1 != 0
  {
  }

  lemma CtzPair(x: bv32)
    requires x != 0
    ensures x & 3 != 0 ==> Ctz(x) < 2
    ensures x & 3 == 0 ==> x >> 2 != 0 && Ctz(x) == 2 + Ctz(x >> 2)
  {
    assert (x >> 1) >> 1 == x >> 2;
  }

  lemma CtzNibble(x: bv32)
    requires x != 0
    ensures x & 0xF != 0 ==> Ctz(x) < 4
    ensures x & 0xF == 0 ==> x >> 4 != 0 && Ctz(x) == 4 + Ctz(x >> 4)
  {
    CtzPair(x);
    if x & 3 == 0 {
      CtzPair(x >> 2);
      assert (x >> 2) >> 2 == x >> 4;
    }
  }

  lemma CtzByte(x: bv32)
    requires x != 0
    ensures x & 0xFF != 0 ==> Ctz(x) < 8
    ensures x & 0xFF == 0 ==> x >> 8 != 0 && Ctz(x) == 8 + Ctz(x >> 8)
  {
    CtzNibble(x);
    if x & 0xF == 0 {
      CtzNibble(x >> 4);
      assert (x >> 4) >> 4 == x >> 8;
    }
  }

  function FirstHigh(l0: bool, l1: bool, l2: bool): nat {
    if l0 then 0 else if l1 then 1 else if l2 then 2 else 3
  }

  /** A high level in byte k leaves something in byte k of the masked word. */
  lemma MaskedBytes(b0: bv8, b1: bv8, b2: bv8, b3: bv8, pin: nat, x: bv32)
    requires pin <= 7
    requires x == Word(b0, b1, b2, b3) & Mask4(pin)
    ensures (x & 0xFF != 0) == Level(b0, PinMask(pin))
    ensures (x & 0xFF00 != 0) == Level(b1, PinMask(pin))
    ensures (x & 0xFF_0000 != 0) == Level(b2, PinMask(pin))
    ensures (x & 0xFF00_0000 != 0) == Level(b3, PinMask(pin))
  {
    if pin <= 3 {
      PlacedLow(b0, b1, b2, b3, pin);
    } else {
      PlacedHigh(b0, b1, b2, b3, pin);
    }
    PlacedBytes(Level(b0, PinMask(pin)), Level(b1, PinMask(pin)), Level(b2, PinMask(pin)), Level(b3, PinMask(pin)), pin, x);
  }

  /** The masked word, from the four levels alone. */
  function Place(l0: bool, l1: bool, l2: bool, l3: bool, pin: nat): bv32
    requires pin <= 7
  {
    var m := PinMask(pin);
    Word(if l0 then m else 0, if l1 then m else 0, if l2 then m else 0, if l3 then m else 0)
  }

  lemma PlacedLow(b0: bv8, b1: bv8, b2: bv8, b3: bv8, pin: nat)
    requires pin <= 3
    ensures Word(b0, b1, b2, b3) & Mask4(pin) ==
            Place(Level(b0, PinMask(pin)), Level(b1, PinMask(pin)), Level(b2, PinMask(pin)), Level(b3, PinMask(pin)), pin)
  {
  }

  lemma PlacedHigh(b0: bv8, b1: bv8, b2: bv8, b3: bv8, pin: nat)
    requires 4 <= pin <= 7
    ensures Word(b0, b1, b2, b3) & Mask4(pin) ==
            Place(Level(b0, PinMask(pin)), Level(b1, PinMask(pin)), Level(b2, PinMask(pin)), Level(b3, PinMask(pin)), pin)
  {
  }

  lemma PlacedBytes(l0: bool, l1: bool, l2: bool, l3: bool, pin: nat, x: bv32)
    requires pin <= 7 && x == Place(l0, l1, l2, l3, pin)
    ensures (x & 0xFF != 0) == l0
    ensures (x & 0xFF00 != 0) == l1
    ensures (x & 0xFF_0000 != 0) == l2
    ensures (x & 0xFF00_0000 != 0) == l3
  {
  }

  lemma CtzOfBytes(x: bv32)
    ensures x == 0 <==> x & 0xFF == 0 && x & 0xFF00 == 0 && x & 0xFF_0000 == 0 && x & 0xFF00_0000 == 0
    ensures x != 0 ==> Ctz(x) / 8 == FirstHigh(x & 0xFF != 0, x & 0xFF00 != 0, x & 0xFF_0000 != 0)
  {
    if x != 0 {
      var x1 := x >> 8;
      var x2 := x1 >> 8;
      var x3 := x2 >> 8;
      BytesOfWord(x, x1, x2, x3);
      CtzByte(x);
      if x & 0xFF == 0 {
        CtzByte(x1);
        if x1 & 0xFF == 0 {
          CtzByte(x2);
          if x2 & 0xFF == 0 {
            CtzByte(x3);
          }
        }
      }
    }
  }

  lemma BytesOfWord(x: bv32, x1: bv32, x2: bv32, x3: bv32)
    requires x1 == x >> 8 && x2 == x1 >> 8 && x3 == x2 >> 8
    ensures (x1 & 0xFF == 0) == (x & 0xFF00 == 0)
    ensures (x2 & 0xFF == 0) == (x & 0xFF_0000 == 0)
    ensures (x3 & 0xFF == 0) == (x & 0xFF00_0000 == 0)
    ensures x3 >> 8 == 0
  {
  }

  /** Four samples at once: counting trailing zeros of the masked word finds the
      first high one. */
  method FirstHighOfFour(b0: bv8, b1: bv8, b2: bv8, b3: bv8, pin: nat) returns (offset: nat)
    requires pin <= 7
    ensures if Level(b0, PinMask(pin)) || Level(b1, PinMask(pin)) || Level(b2, PinMask(pin)) || Level(b3, PinMask(pin))
            then offset == FirstHigh(Level(b0, PinMask(pin)), Level(b1, PinMask(pin)), Level(b2, PinMask(pin))) else offset == 4
  {
    var masked := Word(b0, b1, b2, b3) & Mask4(pin);
    MaskedBytes(b0, b1, b2, b3, pin, masked);
    CtzOfBytes(masked);
    offset := if masked != 0 then Ctz(masked) / 8 else 4;
  }

  /** Reference scan: index of the first high level after a low one, else -1. */
  function Scan(line: seq<bool>, i: nat, seenLow: bool): int
    requires i <= |line|
    decreases |line| - i
  {
    if i == |line| then -1
    else if seenLow && line[i] then i
    else Scan(line, i + 1, seenLow || !line[i])
  }

  /** address & ~3u */
  function AlignDown(address: nat): (r: nat)
    ensures r <= address && r % 4 == 0
  {
    address / 4 * 4
  }

  lemma AlignedGap(a: nat, b: nat)
    requires a % 4 == 0 && b % 4 == 0 && a < b
    ensures a + 4 <= b && (a + 4) % 4 == 0
  {
  }

  /** Whole aligned words from start up to the last one below end, then single samples. */
  method FindHighAligned(buffer: array<bv8>, base: nat, pin: nat, start: nat, end: nat, ghost line: seq<bool>)
    returns (index: int)
    requires pin <= 7 && start <= end <= buffer.Length
    requires (base + start) % 4 == 0 || start == end
    requires line == Line(buffer[..end], PinMask(pin))
    ensures index == Scan(line, start, true)
  {
    var ptr32, end32 := start, AlignDown(base + end) - base;
    while ptr32 < end32
      invariant start <= ptr32 <= end
      invariant ptr32 < end32 ==> (base + ptr32) % 4 == 0
      invariant Scan(line, start, true) == Scan(line, ptr32, true)
      decreases end - ptr32
    {
      AlignedGap(base + ptr32, AlignDown(base + end));
      var byteOffset := FirstHighOfFour(buffer[ptr32], buffer[ptr32 + 1], buffer[ptr32 + 2], buffer[ptr32 + 3], pin);
      FourScans(line, ptr32);
      if byteOffset < 4 {
        return ptr32 + byteOffset;
      }
      ptr32 := ptr32 + 4;
    }

    var ptr := ptr32;
    while ptr < end
      invariant ptr32 <= ptr <= end
      invariant Scan(line, start, true) == Scan(line, ptr, true)
    {
      if Level(buffer[ptr], PinMask(pin)) { return ptr; }
      ptr := ptr + 1;
    }
    return -1;
  }

  method FindStartBit(buffer: array<bv8>, base: nat, pin: nat, maxSearch: nat) returns (index: int)
    requires pin <= 7
    ensures var limit := if maxSearch < buffer.Length then maxSearch else buffer.Length;
            index == Scan(Line(buffer[..limit], PinMask(pin)), 0, false)
  {
    var end := if maxSearch < buffer.Length then maxSearch else buffer.Length;
    var mask := PinMask(pin);
    ghost var line := Line(buffer[..end], mask);
    var ptr := 0;
    while ptr < end && Level(buffer[ptr], mask)
      invariant 0 <= ptr <= end
      invariant Scan(line, 0, false) == Scan(line, ptr, false)
    {
      ptr := ptr + 1;
    }
    if ptr >= end { return -1; }

    ghost var ack := ptr;
    while (base + ptr) % 4 != 0 && ptr < end
      invariant ack <= ptr <= end
      invariant Scan(line, 0, false) == Scan(line, ptr, true)
      decreases end - ptr
    {
      if Level(buffer[ptr], mask) { return ptr; }
      ptr := ptr + 1;
    }
    index := FindHighAligned(buffer, base, pin, ptr, end, line);
  }

  lemma FourScans(line: seq<bool>, i: nat)
    requires i + 4 <= |line|
    ensures Scan(line, i, true) ==
            if line[i] || line[i + 1] || line[i + 2] || line[i + 3]
            then i + FirstHigh(line[i], line[i + 1], line[i + 2]) else Scan(line, i + 4, true)
  {
    OneScan(line, i);
    OneScan(line, i + 1);
    OneScan(line, i + 2);
    OneScan(line, i + 3);
  }

  lemma OneScan(line: seq<bool>, i: nat)
    requires i < |line|
    ensures Scan(line, i, true) == if line[i] then i else Scan(line, i + 1, true)
  {
  }

  // ---------------------------------------------------------------------
  // Collecting data and CRC bits
  // ---------------------------------------------------------------------

  method GatherFour(buffer: array<bv8>, p: nat, pin: nat, ghost line: seq<bool>) returns (fourBits: nat)
    requires pin <= 7 && p + 4 <= buffer.Length
    requires line == Line(buffer[..], PinMask(pin))
    ensures fourBits == 8 * Unit(line[p]) + 4 * Unit(line[p + 1]) + 2 * Unit(line[p + 2]) + Unit(line[p + 3])
  {
    GatheredValue(buffer[p], buffer[p + 1], buffer[p + 2], buffer[p + 3], pin);
    fourBits := GatherBits(Word(buffer[p], buffer[p + 1], buffer[p + 2], buffer[p + 3]), pin) as nat;
  }

  method ExtractBit(buffer: array<bv8>, p: nat, pin: nat, ghost line: seq<bool>) returns (bit: nat)
    requires pin <= 7 && p < buffer.Length
    requires line == Line(buffer[..], PinMask(pin))
    ensures bit == Unit(line[p])
  {
    bit := Unit(Level(buffer[p], PinMask(pin)));
  }

  /** The accumulator type: uint32_t up to 32 data bits, uint64_t above. */
  function Modulus(dataBits: nat): nat {
    if dataBits <= 32 then 0x1_0000_0000 else 0x1_0000_0000_0000_0000
  }

  /** The first n + k bits still fit the accumulator: shifting k places drops nothing. */
  lemma NoWrap(bits: seq<bool>, n: nat, k: nat)
    requires n + k <= |bits| <= 64
    ensures Number(bits[..n]) * Pow2(k) < Modulus(|bits|)
  {
    Pow2Words();
    BitsOfNumber(bits[..n]);
    Pow2Adds(n, k);
    Pow2Grows(n + k, if |bits| <= 32 then 32 else 64);
    ScaleBound(Number(bits[..n]), Pow2(n), Pow2(k));
  }

  lemma ScaleBound(a: nat, b: nat, c: nat)
    requires a < b && c > 0
    ensures a * c < b * c
  {
  }

  /** (accumulator << 4) | fourBits */
  method AppendFour(value: nat, fourBits: nat, dataBits: nat, ghost bits: seq<bool>, ghost n: nat) returns (next: nat)
    requires n + 4 <= |bits| == dataBits <= 64
    requires value == Number(bits[..n])
    requires fourBits == 8 * Unit(bits[n]) + 4 * Unit(bits[n + 1]) + 2 * Unit(bits[n + 2]) + Unit(bits[n + 3])
    ensures next == Number(bits[..n + 4])
  {
    NoWrap(bits, n, 4);
    assert Pow2(2) == 4 && Pow2(3) == 8 && Pow2(4) == 16;
    NumberOfFour(bits, n);
    var modulus := Modulus(dataBits);
    assert value * 16 < modulus;
    next := value * 16 % modulus + fourBits;
  }

  /** (accumulator << 1) | bit */
  method AppendOne(value: nat, bit: nat, dataBits: nat, ghost bits: seq<bool>, ghost n: nat) returns (next: nat)
    requires n + 1 <= |bits| == dataBits <= 64
    requires value == Number(bits[..n]) && bit == Unit(bits[n])
    ensures next == Number(bits[..n + 1])
  {
    NoWrap(bits, n, 1);
    assert Pow2(1) == 2;
    NumberOfOne(bits, n);
    var modulus := Modulus(dataBits);
    assert value * 2 < modulus;
    next := value * 2 % modulus + bit;
  }

  /** Four samples per multiplication, then the rest one by one. */
  method ExtractDataBits(buffer: array<bv8>, start: nat, dataBits: nat, pin: nat, ghost line: seq<bool>)
    returns (value: nat)
    requires pin <= 7 && dataBits <= 64 && start + dataBits <= buffer.Length
    requires line == Line(buffer[..], PinMask(pin))
    ensures value == Number(line[start..start + dataBits])
  {
    ghost var bits := line[start..start + dataBits];
    value := 0;
    var p, remaining := start, dataBits;
    while remaining >= 4
      invariant start <= p <= start + dataBits && p + remaining == start + dataBits
      invariant value == Number(bits[..p - start])
    {
      value := TakeFour(buffer, p, value, dataBits, pin, line, bits, p - start);
      p, remaining := p + 4, remaining - 4;
    }
    while remaining > 0
      invariant start <= p <= start + dataBits && p + remaining == start + dataBits
      invariant value == Number(bits[..p - start])
    {
      var bit := ExtractBit(buffer, p, pin, line);
      value := AppendOne(value, bit, dataBits, bits, p - start);
      p, remaining := p + 1, remaining - 1;
    }
    assert bits[..dataBits] == bits;
  }

  method TakeFour(buffer: array<bv8>, p: nat, value: nat, dataBits: nat, pin: nat, ghost line: seq<bool>, ghost bits: seq<bool>,
                  ghost n: nat)
    returns (next: nat)
    requires pin <= 7 && n + 4 <= |bits| == dataBits <= 64 && n <= p && p - n + |bits| <= buffer.Length
    requires line == Line(buffer[..], PinMask(pin)) && bits == line[p - n..p - n + |bits|]
    requires value == Number(bits[..n])
    ensures next == Number(bits[..n + 4])
  {
    var fourBits := GatherFour(buffer, p, pin, line);
    next := AppendFour(value, fourBits, dataBits, bits, n);
  }

  /** Six bits inverted on the wire. */
  function Inverted(line: seq<bool>, start: nat): Six
    requires start + 6 <= |line|
  {
    Six(!line[start], !line[start + 1], !line[start + 2], !line[start + 3], !line[start + 4], !line[start + 5])
  }

  /** ((fourBits ^ 0xf) << 2) | (bit4 << 1) | bit5, the last two already inverted. */
  function CombineCrc(fourBits: nat, bit4: nat, bit5: nat): nat
    requires fourBits <= 15
  {
    (15 - fourBits) * 4 + bit4 * 2 + bit5
  }

  lemma ThreeUnits(a: bool, b: bool, c: bool, h: nat)
    ensures var v := 8 * h + (4 * Unit(a) + 2 * Unit(b) + Unit(c));
            v / 8 == h && (v / 2 / 2 % 2 == 1) == a && (v / 2 % 2 == 1) == b && (v % 2 == 1) == c
  {
  }

  lemma CombinedBits(l0: bool, l1: bool, l2: bool, l3: bool, l4: bool, l5: bool, four: nat)
    requires four == 8 * Unit(l0) + 4 * Unit(l1) + 2 * Unit(l2) + Unit(l3)
    ensures LowSix(CombineCrc(four, 1 - Unit(l4), 1 - Unit(l5))) == Six(!l0, !l1, !l2, !l3, !l4, !l5)
  {
    var high := 4 * Unit(!l0) + 2 * Unit(!l1) + Unit(!l2);
    ThreeUnits(!l0, !l1, !l2, 0);
    ThreeUnits(!l3, !l4, !l5, high);
    assert CombineCrc(four, 1 - Unit(l4), 1 - Unit(l5)) == 8 * high + (4 * Unit(!l3) + 2 * Unit(!l4) + Unit(!l5));
  }

  method ExtractCrcBits(buffer: array<bv8>, start: nat, pin: nat, ghost line: seq<bool>) returns (crc: Six)
    requires pin <= 7 && start + 6 <= buffer.Length
    requires line == Line(buffer[..], PinMask(pin))
    ensures crc == Inverted(line, start)
  {
    var fourBits := GatherFour(buffer, start, pin, line);
    var bit4 := ExtractBit(buffer, start + 4, pin, line);
    var bit5 := ExtractBit(buffer, start + 5, pin, line);
    CombinedBits(line[start], line[start + 1], line[start + 2], line[start + 3], line[start + 4], line[start + 5], fourBits);
    crc := LowSix(CombineCrc(fourBits, 1 - bit4, 1 - bit5));
  }

  // ---------------------------------------------------------------------
  // Frames
  // ---------------------------------------------------------------------

  datatype FrameError = NoError | StartBitNotFound | BufferTooSmall | CrcMismatch

  datatype Frame = Frame(error: FrameError, dataValue: nat, errorFlag: bool, warningFlag: bool,
                         crcReceived: Six, crcComputed: Six, startBitIndex: int)

  const EMPTY := Frame(NoError, 0, false, false, ZERO, ZERO, -1)

  /** kBisscMaxAckBits + 5 */
  const MAX_SEARCH: nat := 25

  /** The reference decoder: one line level at a time. */
  function Decode(line: seq<bool>, dataBits: nat, storeDebug: bool): Frame {
    var limit := if MAX_SEARCH < |line| then MAX_SEARCH else |line|;
    var start := Scan(line[..limit], 0, false);
    if start < 0 then EMPTY.(error := StartBitNotFound)
    else if start + 2 + dataBits + 2 + 6 > |line| then EMPTY.(error := BufferTooSmall)
    else DecodeBody(line, start, dataBits, storeDebug)
  }

  function DecodeBody(line: seq<bool>, start: nat, dataBits: nat, storeDebug: bool): Frame
    requires start + dataBits + 10 <= |line|
  {
    var data := start + 2;
    var status := data + dataBits;
    Judge(start, Inverted(line, status + 2), CrcOf(line[data..status + 2]),
      Number(line[data..status]), Unit(line[status]), Unit(line[status + 1]), storeDebug)
  }

  /** The frame for a received and a computed CRC; the error and warning lines are active low. */
  function Judge(start: nat, received: Six, computed: Six, dataValue: nat, rawError: nat, rawWarning: nat,
                 storeDebug: bool): Frame
  {
    var debug := if storeDebug
                 then EMPTY.(startBitIndex := start, crcReceived := received, crcComputed := computed)
                 else EMPTY;
    if received != computed then debug.(error := CrcMismatch)
    else debug.(dataValue := dataValue, errorFlag := rawError == 0, warningFlag := rawWarning == 0)
  }

  lemma ScanInRange(line: seq<bool>, i: nat, seenLow: bool)
    requires i <= |line|
    ensures -1 <= Scan(line, i, seenLow) < |line|
    decreases |line| - i
  {
  }

  /** The CRC over data, error and warning bits as one word. */
  method ComputeFrameCrc(dataValue: nat, rawError: nat, rawWarning: nat, dataBits: nat, ghost payload: seq<bool>)
    returns (crc: Six)
    requires dataBits <= 58 && |payload| == dataBits + 2
    requires dataValue == Number(payload[..dataBits])
    requires rawError == Unit(payload[dataBits]) && rawWarning == Unit(payload[dataBits + 1])
    ensures crc == CrcOf(payload)
  {
    PayloadNumber(payload, dataBits);
    crc := ComputeBisscCrc(dataValue * 4 + rawError * 2 + rawWarning, dataBits + 2);
  }

  /** Data and status bits, with the CRC computed over them. */
  method ExtractPayload(buffer: array<bv8>, dataStart: nat, statusStart: nat, crcStart: nat, dataBits: nat, pin: nat,
                        ghost line: seq<bool>)
    returns (dataValue: nat, rawError: nat, rawWarning: nat, crc: Six)
    requires pin <= 7 && dataBits <= 58 && statusStart == dataStart + dataBits && crcStart == statusStart + 2
    requires crcStart <= buffer.Length && line == Line(buffer[..], PinMask(pin))
    ensures dataValue == Number(line[dataStart..statusStart])
    ensures rawError == Unit(line[statusStart]) && rawWarning == Unit(line[statusStart + 1])
    ensures crc == CrcOf(line[dataStart..crcStart])
  {
    ghost var payload := line[dataStart..crcStart];
    dataValue := ExtractDataBits(buffer, dataStart, dataBits, pin, line);
    rawError := ExtractBit(buffer, statusStart, pin, line);
    rawWarning := ExtractBit(buffer, statusStart + 1, pin, line);
    assert payload[..dataBits] == line[dataStart..statusStart];
    assert payload[dataBits] == line[statusStart] && payload[dataBits + 1] == line[statusStart + 1];
    crc := ComputeFrameCrc(dataValue, rawError, rawWarning, dataBits, payload);
  }

  /** The reference decoder in terms of the three positions it reads from. */
  lemma BodyAt(line: seq<bool>, start: nat, dataStart: nat, statusStart: nat, crcStart: nat, dataBits: nat,
               storeDebug: bool)
    requires dataStart == start + 2 && statusStart == dataStart + dataBits && crcStart == statusStart + 2
    requires crcStart + 6 <= |line|
    ensures DecodeBody(line, start, dataBits, storeDebug) ==
            Judge(start, Inverted(line, crcStart), CrcOf(line[dataStart..crcStart]),
              Number(line[dataStart..statusStart]), Unit(line[statusStart]), Unit(line[statusStart + 1]), storeDebug)
  {
  }

  method ExtractBody(buffer: array<bv8>, startBitIndex: nat, pin: nat, dataBits: nat, storeDebug: bool,
                     ghost line: seq<bool>)
    returns (result: Frame)
    requires pin <= 7 && dataBits <= 58 && startBitIndex + dataBits + 10 <= buffer.Length
    requires line == Line(buffer[..], PinMask(pin))
    ensures result == DecodeBody(line, startBitIndex, dataBits, storeDebug)
  {
    var dataStart := startBitIndex + 2;
    var statusStart := dataStart + dataBits;
    var crcStart := statusStart + 2;
    var dataValue, rawError, rawWarning, crcComputed :=
      ExtractPayload(buffer, dataStart, statusStart, crcStart, dataBits, pin, line);
    var crcReceived := ExtractCrcBits(buffer, crcStart, pin, line);
    result := FillFrame(startBitIndex, crcReceived, crcComputed, dataValue, rawError, rawWarning, storeDebug);
    BodyAt(line, startBitIndex, dataStart, statusStart, crcStart, dataBits, storeDebug);
  }

  method FillFrame(start: nat, received: Six, computed: Six, dataValue: nat, rawError: nat, rawWarning: nat,
                   storeDebug: bool)
    returns (result: Frame)
    ensures result == Judge(start, received, computed, dataValue, rawError, rawWarning, storeDebug)
  {
    result := EMPTY;
    if storeDebug {
      result := result.(startBitIndex := start, crcReceived := received, crcComputed := computed);
    }
    if received != computed {
      result := result.(error := CrcMismatch);
    } else {
      result := result.(dataValue := dataValue, errorFlag := rawError == 0, warningFlag := rawWarning == 0);
    }
  }

  /** The firmware's extraction agrees with the reference decoder on every buffer. */
  method ExtractBisscFrame(buffer: array<bv8>, base: nat, pin: nat, dataBits: nat, storeDebug: bool)
    returns (result: Frame)
    requires pin <= 7 && 1 <= dataBits <= 58
    ensures result == Decode(Line(buffer[..], PinMask(pin)), dataBits, storeDebug)
  {
    ghost var line := Line(buffer[..], PinMask(pin));
    var startBitIndex := FindStartBit(buffer, base, pin, MAX_SEARCH);
    ghost var limit := if MAX_SEARCH < buffer.Length then MAX_SEARCH else buffer.Length;
    assert line[..limit] == Line(buffer[..limit], PinMask(pin));
    ScanInRange(line[..limit], 0, false);
    if startBitIndex < 0 {
      return EMPTY.(error := StartBitNotFound);
    }
    var totalNeeded := startBitIndex + 2 + dataBits + 2 + 6;
    if totalNeeded > buffer.Length {
      return EMPTY.(error := BufferTooSmall);
    }
    result := ExtractBody(buffer, startBitIndex, pin, dataBits, storeDebug, line);
  }

  /** Data and status bits as the CRC input word. */
  lemma PayloadNumber(payload: seq<bool>, n: nat)
    requires |payload| == n + 2 && n <= 58
    ensures var v := Number(payload[..n]) * 4 + Unit(payload[n]) * 2 + Unit(payload[n + 1]);
            v < 0x1_0000_0000_0000_0000 && v < Pow2(n + 2) && Bits(v, n + 2) == payload
  {
    NumberOfOne(payload, n);
    NumberOfOne(payload, n + 1);
    assert payload[..n + 2] == payload;
    BitsOfNumber(payload);
    Pow2Words();
    Pow2Grows(n + 2, 64);
  }
}
