/** What an encoder puts on the line, what the decoder makes of it, and which
    line errors it reports. */
module BisscFrames {
  import opened BitStrings
  import opened Crc6
  import opened Crc6Algebra
  import opened BisscExtract

  /** Data bits, then error and warning driven low when asserted. */
  function Payload(data: nat, dataBits: nat, error: bool, warning: bool): (p: seq<bool>)
    ensures |p| == dataBits + 2
  {
    Bits(data, dataBits) + [!error, !warning]
  }

  function Invert(bits: seq<bool>): (r: seq<bool>)
    ensures |r| == |bits|
  {
    seq(|bits|, i requires 0 <= i < |bits| => !bits[i])
  }

  /** Everything after the CDS bit: the payload and its inverted CRC. */
  function Body(payload: seq<bool>): seq<bool> {
    payload + Invert(AsBits(CrcOf(payload)))
  }

  function Filled(level: bool, n: nat): (r: seq<bool>)
    ensures |r| == n
  {
    seq(n, _ => level)
  }

  /** Idle high, ACK low, START high, CDS, the body, and whatever follows. */
  function FrameLine(idle: nat, ack: nat, cds: bool, body: seq<bool>, rest: seq<bool>): seq<bool> {
    Filled(true, idle) + Filled(false, ack) + [true, cds] + body + rest
  }

  lemma {:induction false} ScanIdle(line: seq<bool>, i: nat, idle: nat)
    requires i <= idle <= |line| && forall k :: i <= k < idle ==> line[k]
    ensures Scan(line, i, false) == Scan(line, idle, false)
    decreases idle - i
  {
    if i < idle {
      ScanIdle(line, i + 1, idle);
    }
  }

  lemma {:induction false} ScanAck(line: seq<bool>, i: nat, start: nat)
    requires i <= start < |line| && line[start] && forall k :: i <= k < start ==> !line[k]
    ensures Scan(line, i, true) == start
    decreases start - i
  {
    if i < start {
      ScanAck(line, i + 1, start);
    }
  }

  /** A frame whose START bit lies in the search window is found where it is. */
  lemma StartIsFound(idle: nat, ack: nat, cds: bool, body: seq<bool>, rest: seq<bool>)
    requires ack >= 1 && idle + ack < MAX_SEARCH
    ensures var line := FrameLine(idle, ack, cds, body, rest);
            var limit := if MAX_SEARCH < |line| then MAX_SEARCH else |line|;
            Scan(line[..limit], 0, false) == idle + ack
  {
    var line := FrameLine(idle, ack, cds, body, rest);
    var limit := if MAX_SEARCH < |line| then MAX_SEARCH else |line|;
    ScanIdle(line[..limit], 0, idle);
    assert !line[idle];
    ScanAck(line[..limit], idle + 1, idle + ack);
  }

  /** Decoding a line with any body of the right length in place. */
  lemma DecodeFrameLine(idle: nat, ack: nat, cds: bool, body: seq<bool>, rest: seq<bool>, dataBits: nat, storeDebug: bool)
    requires ack >= 1 && idle + ack < MAX_SEARCH && |body| == dataBits + 8
    ensures var frame := Decode(FrameLine(idle, ack, cds, body, rest), dataBits, storeDebug);
            var payload, received := body[..dataBits + 2], Inverted(body, dataBits + 2);
            if received != CrcOf(payload) then frame.error == CrcMismatch
            else frame.error == NoError && frame.dataValue == Number(payload[..dataBits]) &&
                 frame.errorFlag == !payload[dataBits] && frame.warningFlag == !payload[dataBits + 1]
  {
    var line := FrameLine(idle, ack, cds, body, rest);
    var data := idle + ack + 2;
    StartIsFound(idle, ack, cds, body, rest);
    assert line[data..data + dataBits + 2] == body[..dataBits + 2];
    assert line[data..data + dataBits] == body[..dataBits + 2][..dataBits];
    assert Inverted(line, data + dataBits + 2) == Inverted(body, dataBits + 2);
  }

  lemma BodyParts(payload: seq<bool>)
    ensures Body(payload)[..|payload|] == payload
    ensures Inverted(Body(payload), |payload|) == CrcOf(payload)
  {
  }

  /** Round trip: what the encoder sends is what the decoder reports. */
  lemma RoundTrip(idle: nat, ack: nat, cds: bool, data: nat, dataBits: nat, error: bool, warning: bool,
                  rest: seq<bool>, storeDebug: bool)
    requires ack >= 1 && idle + ack < MAX_SEARCH && data < Pow2(dataBits)
    ensures var line := FrameLine(idle, ack, cds, Body(Payload(data, dataBits, error, warning)), rest);
            var frame := Decode(line, dataBits, storeDebug);
            frame.error == NoError && frame.dataValue == data &&
            frame.errorFlag == error && frame.warningFlag == warning
  {
    var payload := Payload(data, dataBits, error, warning);
    DecodeFrameLine(idle, ack, cds, Body(payload), rest, dataBits, storeDebug);
    BodyParts(payload);
    NumberOfBits(data, dataBits);
    assert payload[..dataBits] == Bits(data, dataBits);
  }

  /** No truncated capture is accepted, and no frame whose CRC does not match. */
  lemma AcceptedFramesCheck(line: seq<bool>, dataBits: nat, storeDebug: bool)
    ensures var frame := Decode(line, dataBits, storeDebug);
            frame.error == NoError ==>
              exists start: nat :: start < MAX_SEARCH && start + dataBits + 10 <= |line| &&
                line[start] && Inverted(line, start + dataBits + 4) == CrcOf(line[start + 2..start + dataBits + 4])
  {
    var limit := if MAX_SEARCH < |line| then MAX_SEARCH else |line|;
    ScanFindsHigh(line[..limit], 0, false);
  }

  lemma {:induction false} ScanFindsHigh(line: seq<bool>, i: nat, seenLow: bool)
    requires i <= |line|
    ensures var r := Scan(line, i, seenLow);
            r == -1 || (i <= r < |line| && line[r])
    decreases |line| - i
  {
    if i < |line| && !(seenLow && line[i]) {
      ScanFindsHigh(line, i + 1, seenLow || !line[i]);
    }
  }

  lemma SixFlips(crc: Six, line: seq<bool>, e: seq<bool>)
    requires |line| == 6 && |e| == 6 && line == Invert(AsBits(crc))
    ensures AsBits(Inverted(XorBits(line, e), 0)) == XorBits(AsBits(crc), e)
  {
    var sent, received := AsBits(crc), AsBits(Inverted(XorBits(line, e), 0));
    FlipAt(sent[0], e[0]);
    FlipAt(sent[1], e[1]);
    FlipAt(sent[2], e[2]);
    FlipAt(sent[3], e[3]);
    FlipAt(sent[4], e[4]);
    FlipAt(sent[5], e[5]);
    assert received == XorBits(sent, e);
  }

  lemma FlipAt(bit: bool, e: bool)
    ensures !(!bit != e) == (bit != e)
  {
  }

  lemma InvertedAt(line: seq<bool>, n: nat)
    requires n + 6 == |line|
    ensures Inverted(line, n) == Inverted(line[n..], 0)
  {
  }

  /** The wire as a codeword: message and un-inverted check bits. */
  lemma ReceivedCodeword(payload: seq<bool>, e: seq<bool>)
    requires |e| == |payload| + 6
    ensures var n, body := |payload|, XorBits(Body(payload), e);
            body[..n] + AsBits(Inverted(body, n)) == XorBits(payload + AsBits(CrcOf(payload)), e)
  {
    var n, body, crc := |payload|, XorBits(Body(payload), e), CrcOf(payload);
    var check := Invert(AsBits(crc));
    assert e == e[..n] + e[n..];
    XorConcat(payload, check, e[..n], e[n..]);
    XorConcat(payload, AsBits(crc), e[..n], e[n..]);
    assert body[..n] == XorBits(payload, e[..n]) && body[n..] == XorBits(check, e[n..]);
    SixFlips(crc, check, e[n..]);
    InvertedAt(body, n);
  }

  lemma ReceivedSyndrome(payload: seq<bool>, e: seq<bool>)
    requires |e| == |payload| + 6
    ensures var body := XorBits(Body(payload), e);
            Inverted(body, |payload|) == CrcOf(body[..|payload|]) <==> Syndrome(e) == ZERO
  {
    var n := |payload|;
    var body := XorBits(Body(payload), e);
    ReceivedCodeword(payload, e);
    SyndromeIsLinear(payload + AsBits(CrcOf(payload)), e);
    SyndromeChecks(payload, CrcOf(payload));
    SyndromeChecks(body[..n], Inverted(body, n));
    XorFacts(CrcOf(payload), Syndrome(e), CrcOf(body[..n]), Inverted(body, n));
  }

  lemma XorFacts(sent: Six, s: Six, computed: Six, received: Six)
    ensures sent.Xor(sent).Xor(s) == s
    ensures computed.Xor(received) == ZERO <==> received == computed
  {
  }

  /** Exactly which wire errors in data, status and CRC bits go unnoticed. */
  lemma ErrorIsReported(idle: nat, ack: nat, cds: bool, payload: seq<bool>, e: seq<bool>, rest: seq<bool>,
                        dataBits: nat, storeDebug: bool)
    requires ack >= 1 && idle + ack < MAX_SEARCH
    requires |payload| == dataBits + 2 && |e| == dataBits + 8
    ensures Decode(FrameLine(idle, ack, cds, XorBits(Body(payload), e), rest), dataBits, storeDebug).error == CrcMismatch
            <==> Syndrome(e) != ZERO
  {
    DecodeFrameLine(idle, ack, cds, XorBits(Body(payload), e), rest, dataBits, storeDebug);
    ReceivedSyndrome(payload, e);
  }

  /** Any corruption confined to six consecutive bits, a single flip included. */
  lemma BurstIsReported(idle: nat, ack: nat, cds: bool, payload: seq<bool>, before: nat, burst: Six, after: nat,
                        rest: seq<bool>, dataBits: nat, storeDebug: bool)
    requires ack >= 1 && idle + ack < MAX_SEARCH
    requires |payload| == dataBits + 2 && before + 6 + after == dataBits + 8 && burst != ZERO
    ensures var e := Zeros(before) + AsBits(burst) + Zeros(after);
            Decode(FrameLine(idle, ack, cds, XorBits(Body(payload), e), rest), dataBits, storeDebug).error == CrcMismatch
  {
    ErrorIsReported(idle, ack, cds, payload, Zeros(before) + AsBits(burst) + Zeros(after), rest, dataBits, storeDebug);
    BurstIsCaught(before, burst, after);
  }

  /** Two flips: caught for every encoder of at most 55 data bits; above that, exactly
      the flips 63 positions apart slip through. */
  lemma TwoFlipsReported(idle: nat, ack: nat, cds: bool, payload: seq<bool>, first: nat, second: nat,
                         rest: seq<bool>, dataBits: nat, storeDebug: bool)
    requires ack >= 1 && idle + ack < MAX_SEARCH
    requires |payload| == dataBits + 2 && first < second < dataBits + 8
    ensures var e := TwoBits(first, second, dataBits + 8);
            Decode(FrameLine(idle, ack, cds, XorBits(Body(payload), e), rest), dataBits, storeDebug).error == CrcMismatch
            <==> (second - first) % 63 != 0
  {
    ErrorIsReported(idle, ack, cds, payload, TwoBits(first, second, dataBits + 8), rest, dataBits, storeDebug);
    TwoBitsCaught(first, second, dataBits + 8);
  }
}
