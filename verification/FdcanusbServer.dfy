/** The line protocol on top of the text form: checksum policy, command parsing and delivery. */
module FdcanusbServer {
  import opened Common
  import opened Crc8
  import opened FdcanusbText
  import UartFramer

  datatype Frame = Frame(source: nat, destination: nat, payload: seq<nat>)

  datatype Reply = Ack | Error(message: string)

  /** `read` is the capacity of the pending read, if there is one. */
  datatype Server = Server(prefix: nat, active: bool, read: Option<nat>, delivered: seq<Frame>, replies: seq<Reply>) {
    function Fail(message: string): Server { this.(replies := replies + [Error(message)]) }
  }

  const COMMAND: string := "can send "

  // ---------------------------------------------------------------------
  // Specification
  // ---------------------------------------------------------------------

  function Receive(s: Server, id: nat, rest: seq<char>): Server {
    if id / 65536 % 8192 != s.prefix then s
    else if s.read.None? then s.(replies := s.replies + [Ack])
    else
      match ParseData(rest, s.read.value)
      case None => s.Fail("malformed data")
      case Some(payload) =>
        s.(read := None, replies := s.replies + [Ack],
           delivered := s.delivered + [Frame(id / 256 % 256, id % 256, payload)])
  }

  function Parse(s: Server, line: seq<char>): Server {
    if |line| < 9 || line[..9] != COMMAND then s.Fail("unknown command")
    else
      match ParseId(0, line[9..])
      case BadHex => s.Fail("invalid hex in id")
      case NoData => s.Fail("missing data")
      case Id(id, rest) => Receive(s, id, rest)
  }

  /** One line; a first good checksum makes checksums mandatory from then on. */
  function Process(s: Server, line: seq<char>): Server {
    match Check(line)
    case Absent => if s.active then s.Fail("checksum") else Parse(s, line)
    case Wrong => s.Fail("checksum")
    case Good(text) => Parse(s.(active := true), text)
  }

  // ---------------------------------------------------------------------
  // The firmware's loops
  // ---------------------------------------------------------------------

  method FindStar(line: seq<char>) returns (k: nat)
    ensures k == LastStar(line)
  {
    var i := |line|;
    while i > 0 && line[i - 1] != '*'
      invariant 0 <= i <= |line| && forall j :: i <= j < |line| ==> line[j] != '*'
    {
      i := i - 1;
    }
    if i == 0 {
      return |line|;
    }
    LastStarIs(line, i - 1);
    return i - 1;
  }

  method TrimSpaces(text: seq<char>) returns (line: seq<char>)
    ensures line == StripSpaces(text)
  {
    line := text;
    while line != [] && line[|line| - 1] == ' '
      invariant StripSpaces(line) == StripSpaces(text)
      decreases |line|
    {
      line := line[..|line| - 1];
    }
  }

  method ReadId(s: seq<char>) returns (field: IdField)
    ensures field == ParseId(0, s)
  {
    var id, i := 0, 0;
    while i < |s| && s[i] != ' '
      invariant 0 <= i <= |s| && 0 <= id && ParseId(0, s) == ParseId(id, s[i..])
    {
      var digit := HexValue(s[i]);
      if digit < 0 {
        return BadHex;
      }
      id := id * 16 % 0x1_0000_0000 + digit;
      assert s[i..][1..] == s[i + 1..];
      i := i + 1;
    }
    return if i >= |s| then NoData else Id(id, s[i + 1..]);
  }

  method ReadData(s: seq<char>, capacity: nat) returns (data: Option<seq<nat>>)
    ensures data == ParseData(s, capacity)
  {
    var bytes: seq<nat> := [];
    var i := 0;
    assert s[0..] == s;
    PrependNothing(ParseData(s, capacity));
    while i + 1 < |s| && |bytes| < capacity && s[i] != ' ' && s[i] != '\r' && s[i] != '\n'
      invariant 0 <= i <= |s| && |bytes| <= capacity
      invariant ParseData(s, capacity) == Prepend(bytes, ParseData(s[i..], capacity - |bytes|))
    {
      var high, low := HexValue(s[i]), HexValue(s[i + 1]);
      if high < 0 || low < 0 {
        return None;
      }
      PrependOne(bytes, high * 16 + low, ParseData(s[i + 2..], capacity - |bytes| - 1));
      assert s[i..][2..] == s[i + 2..];
      bytes := bytes + [high * 16 + low];
      i := i + 2;
    }
    assert bytes + [] == bytes;
    return Some(bytes);
  }

  function Prepend(bytes: seq<nat>, rest: Option<seq<nat>>): Option<seq<nat>> {
    if rest.None? then None else Some(bytes + rest.value)
  }

  lemma PrependNothing(rest: Option<seq<nat>>)
    ensures Prepend([], rest) == rest
  {
    if rest.Some? {
      assert [] + rest.value == rest.value;
    }
  }

  lemma PrependOne(bytes: seq<nat>, b: nat, rest: Option<seq<nat>>)
    ensures Prepend(bytes, Prepend([b], rest)) == Prepend(bytes + [b], rest)
  {
    if rest.Some? {
      assert bytes + ([b] + rest.value) == bytes + [b] + rest.value;
    }
  }

  class UartServer {
    var prefix: nat
    var checksumActive: bool
    var pendingRead: Option<nat>
    var delivered: seq<Frame>
    var replies: seq<Reply>

    function View(): Server
      reads this
    {
      Server(prefix, checksumActive, pendingRead, delivered, replies)
    }

    constructor (p: nat)
      ensures View() == Server(p, false, None, [], [])
    {
      prefix, checksumActive, pendingRead, delivered, replies := p, false, None, [], [];
    }

    /** At most one read may be pending. */
    method AsyncRead(capacity: nat)
      requires pendingRead.None?
      modifies this`pendingRead
      ensures View() == old(View()).(read := Some(capacity))
    {
      pendingRead := Some(capacity);
    }

    method SendError(message: string)
      modifies this`replies
      ensures View() == old(View()).Fail(message)
    {
      replies := replies + [Error(message)];
    }

    /** Sets `line` to the text without its checksum; `ok` false means the line must be refused. */
    method ValidateChecksum(text: seq<char>) returns (ok: bool, line: seq<char>)
      modifies this`checksumActive
      ensures View() == if Check(text).Good? then old(View()).(active := true) else old(View())
      ensures ok == (Check(text).Good? || (Check(text).Absent? && !checksumActive))
      ensures line == if Check(text).Good? then Check(text).line else text
    {
      line := text;
      var star := FindStar(text);
      if star + 3 != |text| {
        return !checksumActive, line;
      }
      var high, low := HexValue(text[star + 1]), HexValue(text[star + 2]);
      if high < 0 || low < 0 {
        return !checksumActive, line;
      }
      var crc := ComputeCrc8(text[..star]);
      if high * 16 + low != crc.Value() {
        return false, line;
      }
      checksumActive := true;
      line := TrimSpaces(text[..star]);
      ok := true;
    }

    method ProcessLine(text: seq<char>)
      modifies this
      ensures View() == Process(old(View()), text)
    {
      var ok, line := ValidateChecksum(text);
      if !ok {
        SendError("checksum");
        return;
      }
      if |line| < 9 || line[..9] != COMMAND {
        SendError("unknown command");
        return;
      }
      var field := ReadId(line[9..]);
      match field {
        case BadHex => SendError("invalid hex in id");
        case NoData => SendError("missing data");
        case Id(id, rest) => HandleFrame(id, rest);
      }
    }

    method HandleFrame(id: nat, rest: seq<char>)
      modifies this
      ensures View() == Receive(old(View()), id, rest)
    {
      if id / 65536 % 8192 != prefix {
        return;
      }
      if pendingRead.None? {
        replies := replies + [Ack];
        return;
      }
      var data := ReadData(rest, pendingRead.value);
      if data.None? {
        SendError("malformed data");
        return;
      }
      replies := replies + [Ack];
      delivered := delivered + [Frame(id / 256 % 256, id % 256, data.value)];
      pendingRead := None;
    }
  }

  // ---------------------------------------------------------------------
  // Printing and parsing are inverse
  // ---------------------------------------------------------------------

  function Printed(id: nat, payload: seq<nat>): seq<char> { COMMAND + (HexDigits(id, 8) + ([' '] + HexBytes(payload))) }

  predicate Bytes(payload: seq<nat>) { forall i :: 0 <= i < |payload| ==> payload[i] < 256 }

  lemma PrintedIsPlain(id: nat, payload: seq<nat>)
    ensures forall i :: 0 <= i < |Printed(id, payload)| ==>
      Printed(id, payload)[i] != '*' && Printed(id, payload)[i] != '\r' && Printed(id, payload)[i] != '\n'
  {
    var digits, bytes := HexDigits(id, 8), HexBytes(payload);
    HexDigitsAre(id, 8);
    HexBytesAre(payload);
    forall c | c in Printed(id, payload)
      ensures c != '*' && c != '\r' && c != '\n'
    {
      if c in digits || c in bytes {
        DigitsArePlain(c);
      }
    }
    forall i | 0 <= i < |Printed(id, payload)|
      ensures Printed(id, payload)[i] != '*' && Printed(id, payload)[i] != '\r' && Printed(id, payload)[i] != '\n'
    {
      assert Printed(id, payload)[i] in Printed(id, payload);
    }
  }

  lemma ParsePrinted(s: Server, id: nat, payload: seq<nat>)
    requires id < 0x1_0000_0000
    ensures Parse(s, Printed(id, payload)) == Receive(s, id, HexBytes(payload))
  {
    var line := Printed(id, payload);
    assert line[..9] == COMMAND && line[9..] == HexDigits(id, 8) + ([' '] + HexBytes(payload));
    IdRoundTrip(id, HexBytes(payload), 8);
  }

  lemma PrintedEndsInDigit(id: nat, payload: seq<nat>)
    requires payload != []
    ensures var line := Printed(id, payload); line[|line| - 1] != ' '
  {
    var bytes := HexBytes(payload);
    HexBytesAre(payload);
    assert bytes[|bytes| - 1] in bytes;
    DigitsArePlain(bytes[|bytes| - 1]);
    var line := Printed(id, payload);
    assert line[|line| - 1] == bytes[|bytes| - 1];
  }

  /** The line a host prints for a frame. */
  function HostLine(id: nat, payload: seq<nat>, checksum: bool): seq<char> {
    if checksum then WithCrc(Printed(id, payload)) else Printed(id, payload)
  }

  /** The server after a frame has been taken. */
  function Took(s: Server, frame: Frame): Server {
    s.(read := None, replies := s.replies + [Ack], delivered := s.delivered + [frame])
  }

  /** A printed frame gets through when a checksum is there once one has been seen, and is not
      there when the payload is empty: the separator before an empty payload is stripped together
      with the checksum's own space. */
  predicate GetsThrough(s: Server, payload: seq<nat>, checksum: bool) {
    (s.active ==> checksum) && (payload != [] || !checksum)
  }

  lemma PrintedIsReceived(s: Server, id: nat, payload: seq<nat>, checksum: bool)
    requires id < 0x1_0000_0000 && GetsThrough(s, payload, checksum)
    ensures Process(s, HostLine(id, payload, checksum)) == Receive(s.(active := s.active || checksum), id, HexBytes(payload))
  {
    var text := Printed(id, payload);
    if checksum {
      PrintedEndsInDigit(id, payload);
      CrcRoundTrip(text);
      ParsePrinted(s.(active := true), id, payload);
    } else {
      PrintedIsPlain(id, payload);
      assert LastStar(text) == |text|;
      ParsePrinted(s, id, payload);
    }
  }

  /** What becomes of a printed frame: it is delivered if and only if it gets through, carries the
      server's prefix and finds a read. One for another prefix leaves the server as it was, and
      one that finds no read is acknowledged and dropped. */
  lemma FrameArrivesIff(s: Server, id: nat, payload: seq<nat>, checksum: bool)
    requires id < 0x1_0000_0000 && Bytes(payload) && (s.read.Some? ==> |payload| <= s.read.value)
    ensures var n, t := Process(s, HostLine(id, payload, checksum)), s.(active := s.active || checksum);
      && (n.delivered == s.delivered + [Frame(id / 256 % 256, id % 256, payload)] <==>
           GetsThrough(s, payload, checksum) && id / 65536 % 8192 == s.prefix && s.read.Some?)
      && n == if s.active && !checksum then s.Fail("checksum")
              else if payload == [] && checksum then t.Fail("missing data")
              else if id / 65536 % 8192 != s.prefix then t
              else if s.read.None? then t.(replies := s.replies + [Ack])
              else Took(t, Frame(id / 256 % 256, id % 256, payload))
  {
    if s.active && !checksum {
      PrintedIsPlain(id, payload);
      assert LastStar(Printed(id, payload)) == |Printed(id, payload)|;
    } else if payload == [] && checksum {
      EmptyPayloadFails(s, id);
    } else {
      PrintedIsReceived(s, id, payload, checksum);
      if s.read.Some? {
        DataRoundTrip(payload, s.read.value);
      }
    }
  }

  /** A frame for this device arrives with its own source, destination and payload. */
  lemma FrameRoundTrip(s: Server, source: nat, destination: nat, payload: seq<nat>, checksum: bool)
    requires s.prefix < 8192 && source < 256 && destination < 256 && Bytes(payload)
    requires s.read.Some? && |payload| <= s.read.value && (s.active ==> checksum) && (payload != [] || !checksum)
    ensures Process(s, HostLine(s.prefix * 65536 + source * 256 + destination, payload, checksum)) ==
      Took(s.(active := s.active || checksum), Frame(source, destination, payload))
  {
    IdFields(s.prefix, source, destination);
    FrameArrivesIff(s, s.prefix * 65536 + source * 256 + destination, payload, checksum);
  }

  /** Prefix, source and destination come back from the identifier. */
  lemma IdFields(prefix: nat, source: nat, destination: nat)
    requires prefix < 8192 && source < 256 && destination < 256
    ensures var id := prefix * 65536 + source * 256 + destination;
      id < 0x1_0000_0000 && id / 65536 % 8192 == prefix && id / 256 % 256 == source && id % 256 == destination
  {
  }

  /** The framer hands the printed line over whole and alone. */
  lemma PrintedLineSurvivesFraming(id: nat, payload: seq<nat>)
    ensures UartFramer.Lines(Printed(id, payload) + ['\r', '\n']) == [Printed(id, payload)]
  {
    PrintedIsPlain(id, payload);
    UartFramer.OneLine(Printed(id, payload), ['\r', '\n']);
  }

  /** A checked line with one corrupted byte delivers nothing and leaves the read pending. */
  lemma CorruptLineDeliversNothing(s: Server, line: seq<char>, i: nat, c: char)
    requires Check(line).Good? && i < LastStar(line) && c != line[i] && line[i] as int < 256 && c as int < 256
    ensures Process(s, line[i := c]) == s.Fail("checksum")
  {
    CorruptLineIsRejected(line, i, c);
  }

  /** Without its separator the text ends in the identifier's digits. */
  lemma EmptyPayloadFails(s: Server, id: nat)
    requires id < 0x1_0000_0000
    ensures Process(s, WithCrc(Printed(id, []))) == s.(active := true).Fail("missing data")
  {
    var bare := COMMAND + HexDigits(id, 8);
    assert Printed(id, []) == bare + [' '];
    HexDigitsAre(id, 8);
    DigitsArePlain(bare[|bare| - 1]);
    CheckTwoSpaces(bare);
    assert bare[9..] == HexDigits(id, 8) && bare[..9] == COMMAND;
    NoSpaceNoData(0, HexDigits(id, 8));
  }

  lemma CheckTwoSpaces(bare: seq<char>)
    requires bare != [] && bare[|bare| - 1] != ' '
    ensures Check(WithCrc(bare + [' '])) == Good(bare)
  {
    var text := bare + [' '];
    var crc := Divide(text + [' ']);
    var line := WithCrc(text);
    DigitReadsBack(crc.hi.Value());
    DigitReadsBack(crc.lo.Value());
    DigitsArePlain(Upper(crc.hi.Value()));
    DigitsArePlain(Upper(crc.lo.Value()));
    LastStarIs(line, |text| + 1);
    assert line[..|text| + 1] == text + [' '];
    assert (text + [' '])[..|text|] == text && text[..|bare|] == bare;
    assert StripSpaces(text + [' ']) == StripSpaces(text) == bare;
  }

  lemma {:induction false} NoSpaceNoData(id: nat, digits: seq<char>)
    requires forall c :: c in digits ==> HexValue(c) >= 0
    ensures ParseId(id, digits) == NoData
    decreases |digits|
  {
    if digits != [] {
      DigitsArePlain(digits[0]);
      NoSpaceNoData(id * 16 % 0x1_0000_0000 + HexValue(digits[0]), digits[1..]);
    }
  }
}
