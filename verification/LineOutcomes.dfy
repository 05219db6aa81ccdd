/** What any line at all does to the server, read off its characters. */
module LineOutcomes {
  import opened Common
  import opened Crc8
  import opened FdcanusbText
  import opened FdcanusbServer

  predicate Hex(c: char) { '0' <= c <= '9' || 'a' <= c <= 'f' || 'A' <= c <= 'F' }

  predicate AllHex(s: seq<char>) { forall i :: 0 <= i < |s| ==> Hex(s[i]) }

  lemma HexIs(c: char)
    ensures Hex(c) <==> HexValue(c) >= 0
  {
  }

  // ---------------------------------------------------------------------
  // The checksum
  // ---------------------------------------------------------------------

  /** The line ends in a star and two hexadecimal digits. */
  predicate Marked(line: seq<char>) {
    |line| >= 3 && line[|line| - 3] == '*' && Hex(line[|line| - 2]) && Hex(line[|line| - 1])
  }

  /** Those digits are the CRC of everything before the star. */
  predicate Sealed(line: seq<char>) {
    Marked(line) && Matches(line[..|line| - 3], line[|line| - 2], line[|line| - 1])
  }

  /** `text` is `line` without the spaces it ends in. */
  predicate Trimmed(line: seq<char>, text: seq<char>) {
    && text <= line && (forall i :: |text| <= i < |line| ==> line[i] == ' ')
    && (text != [] ==> text[|text| - 1] != ' ')
  }

  lemma {:induction false} SpacesAreTrimmed(line: seq<char>)
    ensures Trimmed(line, StripSpaces(line))
    decreases |line|
  {
    if line != [] && line[|line| - 1] == ' ' {
      SpacesAreTrimmed(line[..|line| - 1]);
    }
  }

  lemma CheckIs(line: seq<char>)
    ensures Marked(line) <==> !Check(line).Absent?
    ensures Sealed(line) <==> Check(line).Good?
    ensures Sealed(line) ==> Trimmed(line[..|line| - 3], Check(line).line)
  {
    if |line| >= 3 {
      var k := |line| - 3;
      HexIs(line[k + 1]);
      HexIs(line[k + 2]);
      if Marked(line) {
        LastStarIs(line, k);
      }
      SpacesAreTrimmed(line[..k]);
    }
  }

  // ---------------------------------------------------------------------
  // The identifier
  // ---------------------------------------------------------------------

  /** The number that hexadecimal digits stand for, of any length. */
  function Number(digits: seq<char>): nat
    requires AllHex(digits)
  {
    if digits == [] then 0
    else
      var last := |digits| - 1;
      HexIs(digits[last]);
      Number(digits[..last]) * 16 + HexValue(digits[last])
  }

  /** The first space of `s` from `from` on, or its end. */
  predicate FirstSpace(s: seq<char>, from: nat, k: nat) {
    from <= k <= |s| && (forall i :: from <= i < k ==> s[i] != ' ') && (k < |s| ==> s[k] == ' ')
  }

  lemma {:induction false} FindSpace(s: seq<char>, from: nat) returns (k: nat)
    requires from <= |s|
    ensures FirstSpace(s, from, k)
    decreases |s| - from
  {
    if from < |s| && s[from] != ' ' {
      k := FindSpace(s, from + 1);
    } else {
      k := from;
    }
  }

  /** The parser, started with the first `i` characters read. */
  lemma {:induction false} IdIs(s: seq<char>, i: nat, k: nat, id: nat)
    requires FirstSpace(s, 0, k) && i <= k && AllHex(s[..i]) && id == Number(s[..i]) % 0x1_0000_0000
    ensures ParseId(id, s[i..]) ==
      if !AllHex(s[..k]) then BadHex else if k == |s| then NoData else Id(Number(s[..k]) % 0x1_0000_0000, s[k + 1..])
    decreases k - i
  {
    if i == k {
      if k < |s| {
        assert s[i..][1..] == s[k + 1..];
      }
    } else {
      HexIs(s[i]);
      assert s[i..][0] == s[i] && s[i..][1..] == s[i + 1..];
      if Hex(s[i]) {
        assert s[..i + 1][..i] == s[..i];
        var n, d := Number(s[..i]), HexValue(s[i]);
        assert Number(s[..i + 1]) == n * 16 + d;
        ShiftsIn(n, d);
        IdIs(s, i + 1, k, id * 16 % 0x1_0000_0000 + d);
      } else {
        assert s[..k][i] == s[i];
      }
    }
  }

  lemma ShiftsIn(n: nat, d: nat)
    requires d < 16
    ensures n % 0x1_0000_0000 * 16 % 0x1_0000_0000 + d == (n * 16 + d) % 0x1_0000_0000
  {
    var m, r := n / 0x1_0000_0000, n % 0x1_0000_0000;
    var a, b := r / 0x1000_0000, r % 0x1000_0000;
    RemainderIs(r * 16, a, b * 16);
    RemainderIs(n * 16 + d, m * 16 + a, b * 16 + d);
  }

  lemma RemainderIs(x: nat, q: nat, r: nat)
    requires x == q * 0x1_0000_0000 + r && r < 0x1_0000_0000
    ensures x % 0x1_0000_0000 == r
  {
  }

  // ---------------------------------------------------------------------
  // The payload
  // ---------------------------------------------------------------------

  predicate Blank(c: char) { c == ' ' || c == '\r' || c == '\n' }

  /** The number of pairs: as many as the reader takes, up to a blank or the end. */
  predicate Pairs(s: seq<char>, capacity: nat, n: nat) {
    && n <= capacity && 2 * n <= |s| && (forall i :: 0 <= i < n ==> !Blank(s[2 * i]))
    && (n == capacity || 2 * n + 1 >= |s| || Blank(s[2 * n]))
  }

  lemma {:induction false} FindPairs(s: seq<char>, capacity: nat) returns (n: nat)
    ensures Pairs(s, capacity, n)
    decreases capacity
  {
    if capacity == 0 || |s| < 2 || Blank(s[0]) {
      n := 0;
    } else {
      var m := FindPairs(s[2..], capacity - 1);
      n := m + 1;
      forall i | 0 <= i < n
        ensures !Blank(s[2 * i])
      {
        if i > 0 {
          assert s[2 * i] == s[2..][2 * (i - 1)];
        }
      }
    }
  }

  /** The bytes that pairs of digits stand for. */
  predicate Spells(s: seq<char>, n: nat, bytes: seq<nat>) {
    && |bytes| == n && 2 * n <= |s|
    && forall i :: 0 <= i < n ==> bytes[i] == HexValue(s[2 * i]) * 16 + HexValue(s[2 * i + 1])
  }

  lemma {:induction false} DataIs(s: seq<char>, capacity: nat, n: nat)
    requires Pairs(s, capacity, n)
    ensures var r := ParseData(s, capacity);
      if AllHex(s[..2 * n]) then r.Some? && Spells(s, n, r.value) else r.None?
    decreases n
  {
    if n > 0 {
      HexIs(s[0]);
      HexIs(s[1]);
      assert !Blank(s[2 * 0]);
      var t := s[2..];
      forall i | 0 <= i < n - 1
        ensures !Blank(t[2 * i])
      {
        assert t[2 * i] == s[2 * (i + 1)];
      }
      DataIs(t, capacity - 1, n - 1);
      HexPrefix(s, n);
      if AllHex(s[..2 * n]) {
        SpellsOneMore(s, n, ParseData(t, capacity - 1).value);
      }
    } else {
      assert s[..2 * n] == [];
    }
  }

  lemma HexPrefix(s: seq<char>, n: nat)
    requires 0 < n && 2 * n <= |s|
    ensures AllHex(s[..2 * n]) <==> Hex(s[0]) && Hex(s[1]) && AllHex(s[2..][..2 * (n - 1)])
  {
    var u, v := s[..2 * n], s[2..][..2 * (n - 1)];
    assert forall i :: 2 <= i < 2 * n ==> u[i] == v[i - 2];
    assert forall i :: 0 <= i < |v| ==> v[i] == u[i + 2];
    assert u[0] == s[0] && u[1] == s[1];
  }

  lemma SpellsOneMore(s: seq<char>, n: nat, bytes: seq<nat>)
    requires 0 < n && 2 * n <= |s| && Hex(s[0]) && Hex(s[1]) && Spells(s[2..], n - 1, bytes)
    ensures Spells(s, n, [HexValue(s[0]) * 16 + HexValue(s[1])] + bytes)
  {
    var all := [HexValue(s[0]) * 16 + HexValue(s[1])] + bytes;
    forall i | 0 <= i < n
      ensures all[i] == HexValue(s[2 * i]) * 16 + HexValue(s[2 * i + 1])
    {
      if i > 0 {
        assert all[i] == bytes[i - 1];
        assert s[2..][2 * (i - 1)] == s[2 * i] && s[2..][2 * (i - 1) + 1] == s[2 * i + 1];
      }
    }
  }

  // ---------------------------------------------------------------------
  // The whole line
  // ---------------------------------------------------------------------

  /** Only the last 29 bits of the identifier count: 13 of prefix, 8 of source, 8 of destination. */
  predicate ForServer(id: nat, s: Server) { id / 65536 % 8192 == s.prefix }

  lemma FieldsOfNumber(id: nat)
    ensures var w := id % 0x1_0000_0000;
      w / 65536 % 8192 == id / 65536 % 8192 && w / 256 % 256 == id / 256 % 256 && w % 256 == id % 256
  {
    var q, w := id / 0x1_0000_0000, id % 0x1_0000_0000;
    PrefixOf(id, q, w);
    SourceOf(id, q, w);
    DestinationOf(id, q, w);
  }

  lemma PrefixOf(id: nat, q: nat, w: nat)
    requires id == q * 0x1_0000_0000 + w
    ensures w / 65536 % 8192 == id / 65536 % 8192
  {
    var a := w / 65536;
    assert id / 65536 == q * 65536 + a;
    assert (q * 65536 + a) % 8192 == a % 8192;
  }

  lemma SourceOf(id: nat, q: nat, w: nat)
    requires id == q * 0x1_0000_0000 + w
    ensures w / 256 % 256 == id / 256 % 256
  {
    var a := w / 256;
    assert id / 256 == q * 0x100_0000 + a;
    ByteOf(q, a);
  }

  lemma ByteOf(q: nat, a: nat)
    ensures (q * 0x100_0000 + a) % 256 == a % 256
  {
  }

  lemma DestinationOf(id: nat, q: nat, w: nat)
    requires id == q * 0x1_0000_0000 + w
    ensures w % 256 == id % 256
  {
  }

  /** A text that is a frame for somebody: the command, digits and a space at k. */
  predicate Sends(text: seq<char>, k: nat) {
    9 <= k < |text| && text[..9] == "can send " && FirstSpace(text, 9, k) && AllHex(text[9..k])
  }

  /** The outcome of a text that is a frame: `n` is the number of its pairs. */
  predicate Delivers(r: Server, t: Server, text: seq<char>, k: nat, n: nat)
    requires Sends(text, k)
  {
    var id, rest := Number(text[9..k]), text[k + 1..];
    if !ForServer(id, t) then r == t
    else if t.read.None? then r == t.(replies := t.replies + [Ack])
    else
      && Pairs(rest, t.read.value, n)
      && if !AllHex(rest[..2 * n]) then r == t.Fail("malformed data")
         else Arrives(r, t, id, rest, n)
  }

  /** The frame of n bytes at the head of `rest` is delivered, behind those before it. */
  predicate Arrives(r: Server, t: Server, id: nat, rest: seq<char>, n: nat) {
    && r.read.None? && r.replies == t.replies + [Ack] && r.prefix == t.prefix && r.active == t.active
    && |r.delivered| == |t.delivered| + 1 && r.delivered[..|t.delivered|] == t.delivered
    && var frame := r.delivered[|t.delivered|];
    frame.source == id / 256 % 256 && frame.destination == id % 256 && Spells(rest, n, frame.payload)
  }

  lemma ReceiveIs(s: Server, text: seq<char>, k: nat) returns (n: nat)
    requires Sends(text, k)
    ensures Delivers(Receive(s, Number(text[9..k]) % 0x1_0000_0000, text[k + 1..]), s, text, k, n)
  {
    var id, rest := Number(text[9..k]), text[k + 1..];
    FieldsOfNumber(id);
    n := 0;
    if s.read.Some? {
      n := FindPairs(rest, s.read.value);
      DataIs(rest, s.read.value, n);
    }
  }

  /** The outcome of a text, whatever it is. */
  predicate Takes(r: Server, t: Server, text: seq<char>, k: nat, n: nat) {
    if |text| < 9 || text[..9] != "can send " then r == t.Fail("unknown command")
    else
      && FirstSpace(text, 9, k)
      && if !AllHex(text[9..k]) then r == t.Fail("invalid hex in id")
         else if k == |text| then r == t.Fail("missing data")
         else Delivers(r, t, text, k, n)
  }

  lemma ParseIs(s: Server, text: seq<char>) returns (k: nat, n: nat)
    ensures Takes(Parse(s, text), s, text, k, n)
  {
    k, n := 0, 0;
    if |text| >= 9 && text[..9] == "can send " {
      k := FindSpace(text, 9);
      var rest := text[9..];
      assert FirstSpace(rest, 0, k - 9) by {
        assert forall i :: 0 <= i < |rest| ==> rest[i] == text[i + 9];
      }
      assert rest[..0] == [] && rest[0..] == rest && rest[..k - 9] == text[9..k];
      IdIs(rest, 0, k - 9, 0);
      if AllHex(text[9..k]) && k < |text| {
        assert rest[k - 9 + 1..] == text[k + 1..];
        n := ReceiveIs(s, text, k);
      }
    }
  }

  /** A line is refused for its checksum when it carries a wrong one, or none that can be read
      although one has been seen before. */
  predicate Refused(s: Server, line: seq<char>) { if Marked(line) then !Sealed(line) else s.active }

  /** Any line at all: refused, or taken without its checksum and the spaces before it. */
  lemma AnyLine(s: Server, line: seq<char>) returns (text: seq<char>, k: nat, n: nat)
    ensures if Refused(s, line) then Process(s, line) == s.Fail("checksum")
      else Takes(Process(s, line), s.(active := s.active || Sealed(line)), text, k, n)
    ensures if Sealed(line) then Trimmed(line[..|line| - 3], text) else text == line
  {
    CheckIs(line);
    text, k, n := line, 0, 0;
    if Sealed(line) {
      text := Check(line).line;
      k, n := ParseIs(s.(active := true), text);
    } else if !Refused(s, line) {
      k, n := ParseIs(s, line);
    }
  }

  /** Whatever the line, a frame arrives only from a frame for this server's prefix, while a read
      is pending, and with that frame's own source, destination and bytes. */
  lemma OnlyOwnFramesArrive(s: Server, line: seq<char>) returns (text: seq<char>, k: nat, n: nat)
    requires Process(s, line).delivered != s.delivered
    ensures if Sealed(line) then Trimmed(line[..|line| - 3], text) else text == line && !s.active && !Marked(line)
    ensures Sends(text, k) && ForServer(Number(text[9..k]), s) && s.read.Some? && Pairs(text[k + 1..], s.read.value, n)
    ensures AllHex(text[k + 1..k + 1 + 2 * n])
    ensures Arrives(Process(s, line), s.(active := s.active || Sealed(line)), Number(text[9..k]), text[k + 1..], n)
  {
    text, k, n := AnyLine(s, line);
    TookFrame(Process(s, line), s.(active := s.active || Sealed(line)), text, k, n);
  }

  lemma TookFrame(r: Server, t: Server, text: seq<char>, k: nat, n: nat)
    requires Takes(r, t, text, k, n) && r.delivered != t.delivered
    ensures Sends(text, k) && ForServer(Number(text[9..k]), t) && t.read.Some? && Pairs(text[k + 1..], t.read.value, n)
    ensures AllHex(text[k + 1..k + 1 + 2 * n]) && Arrives(r, t, Number(text[9..k]), text[k + 1..], n)
  {
    assert text[k + 1..][..2 * n] == text[k + 1..k + 1 + 2 * n];
  }
}
