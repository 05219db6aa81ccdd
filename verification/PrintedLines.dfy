/** The lines the device prints, as the framer of a host hands them over. */
module PrintedLines {
  import opened Common
  import opened FdcanusbText
  import opened FdcanusbServer
  import opened UartTransmitter
  import Crc8
  import UartFramer

  /** The digits of the identifier behind the device's word for a frame. */
  function Named(id: nat): seq<char> { "rcv " + HexDigits(id, 8) }

  /** What a host has before it once the line end and a checksum are gone. The separator before
      an empty payload goes together with the checksum's own space. */
  function Bare(id: nat, payload: seq<nat>, checksum: bool): seq<char> {
    if checksum && payload == [] then Named(id) else Named(id) + ([' '] + HexBytes(payload))
  }

  /** Printed and framed: one line. */
  lemma DeviceLineIsFramed(id: nat, payload: seq<nat>, checksum: bool) returns (line: seq<char>)
    ensures UartFramer.Lines(RcvLine(id, payload, checksum)) == [line]
    ensures line == if checksum then WithCrc(RcvText(id, payload)) else RcvText(id, payload)
  {
    line := if checksum then WithCrc(RcvText(id, payload)) else RcvText(id, payload);
    TextIsPlain(id, payload);
    SealIsPlain(RcvText(id, payload));
    forall i | 0 <= i < |line|
      ensures !UartFramer.IsNewline(line[i])
    {
      assert line[i] in line;
    }
    UartFramer.OneLine(line, ['\r', '\n']);
  }

  /** And it is checked: with a good checksum exactly when one was asked for. */
  lemma DeviceLineIsChecked(id: nat, payload: seq<nat>, checksum: bool)
    ensures Check(if checksum then WithCrc(RcvText(id, payload)) else RcvText(id, payload)) ==
            if checksum then Good(Bare(id, payload, checksum)) else Absent
  {
    TextIs(id, payload);
    if !checksum {
      TextIsPlain(id, payload);
      var text := RcvText(id, payload);
      forall i | 0 <= i < |text|
        ensures text[i] != '*'
      {
        assert text[i] in text;
      }
    } else if payload == [] {
      NamedEndsInDigit(id);
      CheckTwoSpaces(Named(id));
      assert RcvText(id, payload) == Named(id) + [' '];
    } else {
      ChecksumReadsBack(id, payload);
    }
  }

  /** Behind the device's word the host reads the identifier and the payload. */
  lemma HostReadsBack(id: nat, payload: seq<nat>)
    requires id < 0x1_0000_0000 && forall i :: 0 <= i < |payload| ==> payload[i] < 256
    ensures var text := Bare(id, payload, false);
      text[..4] == "rcv " && ParseId(0, text[4..]) == Id(id, HexBytes(payload)) && ParseData(HexBytes(payload), |payload|) == Some(payload)
  {
    TextIs(id, payload);
    RcvReadsBack(id, payload);
  }

  lemma TextIs(id: nat, payload: seq<nat>)
    ensures RcvText(id, payload) == Named(id) + ([' '] + HexBytes(payload))
  {
  }

  lemma NamedEndsInDigit(id: nat)
    ensures Named(id)[|Named(id)| - 1] != ' '
  {
    var digits := HexDigits(id, 8);
    HexDigitsAre(id, 8);
    assert digits[7] in digits;
    DigitsArePlain(digits[7]);
  }

  lemma TextIsPlain(id: nat, payload: seq<nat>)
    ensures forall c :: c in RcvText(id, payload) ==> c != '*' && c != '\r' && c != '\n'
  {
    HexDigitsAre(id, 8);
    HexBytesAre(payload);
    forall c | c in RcvText(id, payload)
      ensures c != '*' && c != '\r' && c != '\n'
    {
      if c in HexDigits(id, 8) || c in HexBytes(payload) {
        DigitsArePlain(c);
      }
    }
  }

  lemma SealIsPlain(text: seq<char>)
    requires forall c :: c in text ==> c != '\r' && c != '\n'
    ensures forall c :: c in WithCrc(text) ==> c != '\r' && c != '\n'
  {
    var crc := Crc8.Divide(text + [' ']);
    DigitReadsBack(crc.hi.Value());
    DigitReadsBack(crc.lo.Value());
    DigitsArePlain(Upper(crc.hi.Value()));
    DigitsArePlain(Upper(crc.lo.Value()));
  }
}
