/** The text form of a CAN frame: hexadecimal printing, the trailing checksum, and parsing. */
module FdcanusbText {
  import opened Common
  import opened Crc8

  // ---------------------------------------------------------------------
  // Hexadecimal digits
  // ---------------------------------------------------------------------

  /** ParseHexDigit: -1 when `c` is no hexadecimal digit. */
  function HexValue(c: char): (d: int)
    ensures -1 <= d < 16
  {
    if '0' <= c <= '9' then c as int - '0' as int
    else if 'a' <= c <= 'f' then c as int - 'a' as int + 10
    else if 'A' <= c <= 'F' then c as int - 'A' as int + 10
    else -1
  }

  function Lower(d: nat): char
    requires d < 16
  {
    if d < 10 then (d + '0' as int) as char else (d - 10 + 'a' as int) as char
  }

  function Upper(d: nat): char
    requires d < 16
  {
    if d < 10 then (d + '0' as int) as char else (d - 10 + 'A' as int) as char
  }

  /** The printed characters: digits that read back, and nothing the parser treats specially. */
  lemma DigitReadsBack(d: nat)
    requires d < 16
    ensures HexValue(Lower(d)) == d && HexValue(Upper(d)) == d
  {
  }

  predicate Plain(c: char) { c != '*' && c != ' ' && c != '\r' && c != '\n' }

  lemma DigitsArePlain(c: char)
    requires HexValue(c) >= 0
    ensures Plain(c)
  {
  }

  function Pow16(n: nat): (p: nat)
    ensures p > 0
  {
    if n == 0 then 1 else 16 * Pow16(n - 1)
  }

  /** The low `n` hexadecimal digits of `v`, most significant first. */
  function HexDigits(v: nat, n: nat): (s: seq<char>)
    ensures |s| == n
  {
    if n == 0 then [] else HexDigits(v / 16, n - 1) + [Lower(v % 16)]
  }

  function HexBytes(payload: seq<nat>): (s: seq<char>)
    ensures |s| == 2 * |payload|
  {
    if payload == [] then [] else [Lower(payload[0] / 16 % 16), Lower(payload[0] % 16)] + HexBytes(payload[1..])
  }

  lemma {:induction false} HexDigitsAre(v: nat, n: nat)
    ensures forall c :: c in HexDigits(v, n) ==> HexValue(c) >= 0
  {
    if n > 0 {
      HexDigitsAre(v / 16, n - 1);
      DigitReadsBack(v % 16);
    }
  }

  lemma {:induction false} HexBytesAre(payload: seq<nat>)
    ensures forall c :: c in HexBytes(payload) ==> HexValue(c) >= 0
  {
    if payload != [] {
      HexBytesAre(payload[1..]);
      DigitReadsBack(payload[0] / 16 % 16);
      DigitReadsBack(payload[0] % 16);
    }
  }

  // ---------------------------------------------------------------------
  // Checksums
  // ---------------------------------------------------------------------

  /** Position of the last '*', or the length when there is none. */
  function LastStar(line: seq<char>): (k: nat)
    ensures k <= |line|
    ensures k < |line| ==> line[k] == '*' && forall i :: k < i < |line| ==> line[i] != '*'
    ensures k == |line| ==> forall i :: 0 <= i < |line| ==> line[i] != '*'
  {
    if line == [] then 0
    else if line[|line| - 1] == '*' then |line| - 1
    else
      var k := LastStar(line[..|line| - 1]);
      if k == |line| - 1 then |line| else k
  }

  function StripSpaces(line: seq<char>): seq<char> {
    if line != [] && line[|line| - 1] == ' ' then StripSpaces(line[..|line| - 1]) else line
  }

  /** What ValidateChecksum finds: no usable checksum, a wrong one, or the line without it. */
  datatype Checked = Absent | Wrong | Good(line: seq<char>)

  function Check(line: seq<char>): Checked {
    var k := LastStar(line);
    if k + 3 != |line| || HexValue(line[k + 1]) < 0 || HexValue(line[k + 2]) < 0 then Absent
    else if !Matches(line[..k], line[k + 1], line[k + 2]) then Wrong
    else Good(StripSpaces(line[..k]))
  }

  /** The two digits claim the CRC of the text. */
  predicate Matches(text: seq<char>, high: char, low: char) {
    HexValue(high) * 16 + HexValue(low) == Divide(text).Value()
  }

  /** AppendCrc: a space, then the CRC of everything before the star. */
  function WithCrc(text: seq<char>): seq<char> {
    var crc := Divide(text + [' ']);
    text + [' ', '*', Upper(crc.hi.Value()), Upper(crc.lo.Value())]
  }

  lemma LastStarIs(line: seq<char>, k: nat)
    requires k < |line| && line[k] == '*' && forall i :: k < i < |line| ==> line[i] != '*'
    ensures LastStar(line) == k
  {
  }

  /** A printed checksum validates, and checking gives the text back. */
  lemma CrcRoundTrip(text: seq<char>)
    requires text != [] && text[|text| - 1] != ' '
    ensures Check(WithCrc(text)) == Good(text)
  {
    var line := WithCrc(text);
    var crc := Divide(text + [' ']);
    var k := |text| + 1;
    DigitReadsBack(crc.hi.Value());
    DigitReadsBack(crc.lo.Value());
    DigitsArePlain(Upper(crc.hi.Value()));
    DigitsArePlain(Upper(crc.lo.Value()));
    LastStarIs(line, k);
    assert line[..k] == text + [' '];
    assert (text + [' '])[..|text|] == text;
    assert StripSpaces(text) == text;
  }

  /** A line with a good checksum is never accepted once one byte before the star is corrupted. */
  lemma CorruptLineIsRejected(line: seq<char>, i: nat, c: char)
    requires Check(line).Good? && i < LastStar(line) && c != line[i] && line[i] as int < 256 && c as int < 256
    ensures Check(line[i := c]) == Wrong
  {
    var k := LastStar(line);
    LastStarIs(line[i := c], k);
    CorruptTextMismatches(line[..k], i, c, line[k + 1], line[k + 2]);
    assert line[i := c][..k] == line[..k][i := c];
  }

  lemma CorruptTextMismatches(text: seq<char>, i: nat, c: char, high: char, low: char)
    requires i < |text| && c != text[i] && text[i] as int < 256 && c as int < 256 && Matches(text, high, low)
    ensures !Matches(text[i := c], high, low)
  {
    CorruptionIsSeen(text, i, c);
    ValueInjective(Divide(text), Divide(text[i := c]));
  }

  lemma ValueInjective(x: Octet, y: Octet)
    requires x != y
    ensures x.Value() != y.Value()
  {
    NibbleInjective(x.hi, y.hi);
    NibbleInjective(x.lo, y.lo);
  }

  lemma NibbleInjective(x: Nibble, y: Nibble)
    ensures x.Value() == y.Value() ==> x == y
  {
  }

  // ---------------------------------------------------------------------
  // Parsing
  // ---------------------------------------------------------------------

  datatype IdField = BadHex | NoData | Id(id: nat, rest: seq<char>)

  /** The identifier, a 32-bit word built up digit by digit to the first space. */
  function ParseId(id: nat, s: seq<char>): IdField
    decreases |s|
  {
    if s == [] then NoData
    else if s[0] == ' ' then Id(id, s[1..])
    else if HexValue(s[0]) < 0 then BadHex
    else ParseId(id * 16 % 0x1_0000_0000 + HexValue(s[0]), s[1..])
  }

  /** Pairs of digits up to a space, the end or the reader's capacity; None when one is no digit. */
  function ParseData(s: seq<char>, capacity: nat): Option<seq<nat>> {
    if |s| < 2 || capacity == 0 || !(s[0] != ' ' && s[0] != '\r' && s[0] != '\n') then Some([])
    else if HexValue(s[0]) < 0 || HexValue(s[1]) < 0 then None
    else
      var rest := ParseData(s[2..], capacity - 1);
      if rest.None? then None else Some([HexValue(s[0]) * 16 + HexValue(s[1])] + rest.value)
  }

  lemma ShiftDigit(v: nat)
    requires v < 0x1_0000_0000
    ensures v / 16 * 16 % 0x1_0000_0000 + v % 16 == v
  {
  }

  /** What is left of `v` above its low `n` digits. */
  function High(v: nat, n: nat): nat { if n == 0 then v else High(v / 16, n - 1) }

  lemma {:induction false} HighIsZero(v: nat, n: nat)
    requires v < Pow16(n)
    ensures High(v, n) == 0
  {
    if n > 0 {
      HighIsZero(v / 16, n - 1);
    }
  }

  lemma ParseLast(v: nat, s: seq<char>)
    requires v < 0x1_0000_0000
    ensures ParseId(v / 16, [Lower(v % 16)] + s) == ParseId(v, s)
  {
    DigitReadsBack(v % 16);
    DigitsArePlain(Lower(v % 16));
    ShiftDigit(v);
    assert ([Lower(v % 16)] + s)[1..] == s;
  }

  /** Reading the printed digits of `v` behind those of its higher part. */
  lemma {:induction false} ParseDigits(v: nat, n: nat, digits: seq<char>, s: seq<char>)
    requires v < 0x1_0000_0000 && digits == HexDigits(v, n)
    ensures ParseId(High(v, n), digits + s) == ParseId(v, s)
  {
    if n == 0 {
      assert digits + s == s;
    } else {
      var high := HexDigits(v / 16, n - 1);
      var last := Lower(v % 16);
      assert digits + s == high + ([last] + s);
      ParseDigits(v / 16, n - 1, high, [last] + s);
      ParseLast(v, s);
    }
  }

  /** The eight printed digits of a 32-bit identifier read back as that identifier. */
  lemma IdRoundTrip(id: nat, rest: seq<char>, k: nat)
    requires id < 0x1_0000_0000 && k == 8
    ensures ParseId(0, HexDigits(id, k) + ([' '] + rest)) == Id(id, rest)
  {
    ParseDigits(id, k, HexDigits(id, k), [' '] + rest);
    assert Pow16(8) == 0x1_0000_0000;
    HighIsZero(id, k);
    assert ([' '] + rest)[1..] == rest;
  }

  lemma ParseOneByte(b: nat, s: seq<char>, capacity: nat)
    requires b < 256 && capacity > 0
    ensures var rest := ParseData(s, capacity - 1);
      ParseData([Lower(b / 16 % 16), Lower(b % 16)] + s, capacity) == if rest.None? then None else Some([b] + rest.value)
  {
    DigitReadsBack(b / 16 % 16);
    DigitReadsBack(b % 16);
    DigitsArePlain(Lower(b / 16 % 16));
    var t := [Lower(b / 16 % 16), Lower(b % 16)] + s;
    assert t[2..] == s;
    assert b / 16 % 16 * 16 + b % 16 == b;
  }

  /** Printed payload bytes read back, up to the reader's capacity. */
  lemma {:induction false} DataRoundTrip(payload: seq<nat>, capacity: nat)
    requires |payload| <= capacity && forall i :: 0 <= i < |payload| ==> payload[i] < 256
    ensures ParseData(HexBytes(payload), capacity) == Some(payload)
  {
    if payload != [] {
      var b := payload[0];
      DataRoundTrip(payload[1..], capacity - 1);
      ParseOneByte(b, HexBytes(payload[1..]), capacity);
      assert HexBytes(payload) == [Lower(b / 16 % 16), Lower(b % 16)] + HexBytes(payload[1..]);
      assert [b] + payload[1..] == payload;
    }
  }
}
