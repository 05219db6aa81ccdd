/** What the extraction reports of any capture whatever, encoded frame or noise. */
module BisscOutcomes {
  import opened BitStrings
  import opened Crc6
  import opened BisscExtract

  /** The line has been low before `k`. */
  predicate LowBefore(line: seq<bool>, k: nat) { exists j :: 0 <= j < k && j < |line| && !line[j] }

  /** The START bit is the first high one behind a low one; the search looks at 25 samples. */
  predicate StartsAt(line: seq<bool>, s: int) {
    0 <= s < |line| && s < 25 && line[s] && LowBefore(line, s) && forall k :: 0 <= k < s && line[k] ==> !LowBefore(line, k)
  }

  lemma {:induction false} ScanIs(line: seq<bool>, i: nat, seenLow: bool)
    requires i <= |line| && |line| <= 25 && seenLow == LowBefore(line, i)
    requires forall k :: 0 <= k < i && line[k] ==> !LowBefore(line, k)
    ensures var s := Scan(line, i, seenLow);
      if s < 0 then s == -1 && forall k :: 0 <= k < |line| && line[k] ==> !LowBefore(line, k) else StartsAt(line, s)
    decreases |line| - i
  {
    if i < |line| && !(seenLow && line[i]) {
      LowNext(line, i);
      ScanIs(line, i + 1, seenLow || !line[i]);
    }
  }

  lemma LowNext(line: seq<bool>, i: nat)
    requires i < |line|
    ensures LowBefore(line, i + 1) <==> LowBefore(line, i) || !line[i]
  {
    if LowBefore(line, i) {
      var j :| 0 <= j < i && j < |line| && !line[j];
      assert !line[j];
    }
  }

  lemma SameStart(line: seq<bool>, limit: nat, s: int)
    requires limit == (if 25 < |line| then 25 else |line|)
    ensures StartsAt(line[..limit], s) <==> StartsAt(line, s)
  {
    forall k: nat | k < limit
      ensures LowBefore(line[..limit], k) == LowBefore(line, k)
    {
      SameLow(line, limit, k);
    }
  }

  lemma SameLow(line: seq<bool>, limit: nat, k: nat)
    requires k <= limit <= |line|
    ensures LowBefore(line[..limit], k) == LowBefore(line, k)
  {
    if LowBefore(line, k) {
      var j :| 0 <= j < k && j < |line| && !line[j];
      assert !line[..limit][j];
    }
    if LowBefore(line[..limit], k) {
      var j :| 0 <= j < k && j < |line[..limit]| && !line[..limit][j];
      assert !line[j];
    }
  }

  /** There is one START bit at most. */
  lemma StartIsUnique(line: seq<bool>, s: int, t: int)
    requires StartsAt(line, s) && StartsAt(line, t)
    ensures s == t
  {
  }

  /** Nothing is read into a frame that is not accepted. */
  predicate NoData(f: Frame) { f.dataValue == 0 && !f.errorFlag && !f.warningFlag }

  /** What the debug fields are: where the frame was and both of its CRCs, if they are stored. */
  predicate DebugIs(f: Frame, stored: bool, s: int, received: Six, computed: Six) {
    if stored then f.startBitIndex == s && f.crcReceived == received && f.crcComputed == computed
    else f.startBitIndex == -1 && f.crcReceived == ZERO && f.crcComputed == ZERO
  }

  /** Any capture: no START bit, a frame that is cut off, a CRC that does not match, or a frame
      with the bits and the flags, active low, that stand behind the START bit. */
  lemma AnyCapture(line: seq<bool>, dataBits: nat, storeDebug: bool) returns (s: int)
    ensures var f := Decode(line, dataBits, storeDebug);
      if s < 0 then
        (forall t :: !StartsAt(line, t)) && f.error == StartBitNotFound && NoData(f) && DebugIs(f, false, -1, ZERO, ZERO)
      else
        && StartsAt(line, s)
        && if s + dataBits + 10 > |line| then f.error == BufferTooSmall && NoData(f) && DebugIs(f, false, -1, ZERO, ZERO)
           else FrameAt(f, line, s, dataBits, storeDebug)
  {
    var limit := if MAX_SEARCH < |line| then MAX_SEARCH else |line|;
    s := Scan(line[..limit], 0, false);
    ScanIs(line[..limit], 0, false);
    forall t: int
      ensures StartsAt(line[..limit], t) <==> StartsAt(line, t)
    {
      SameStart(line, limit, t);
    }
    if s >= 0 && s + dataBits + 10 <= |line| {
      BodyIs(line, s, dataBits, storeDebug);
    }
  }

  /** The frame whose START bit is at s: CDS, data, two status bits, and the inverted CRC. */
  predicate FrameAt(f: Frame, line: seq<bool>, s: nat, dataBits: nat, stored: bool)
    requires s + dataBits + 10 <= |line|
  {
    var data, error, warning := line[s + 2..s + 2 + dataBits], line[s + dataBits + 2], line[s + dataBits + 3];
    var received, computed := Inverted(line, s + dataBits + 4), CrcOf(data + [error, warning]);
    && DebugIs(f, stored, s, received, computed)
    && if received != computed then f.error == CrcMismatch && NoData(f)
       else f.error == NoError && f.dataValue == Number(data) && f.errorFlag == !error && f.warningFlag == !warning
  }

  lemma BodyIs(line: seq<bool>, s: nat, dataBits: nat, stored: bool)
    requires s + dataBits + 10 <= |line|
    ensures FrameAt(DecodeBody(line, s, dataBits, stored), line, s, dataBits, stored)
  {
    assert line[s + 2..s + dataBits + 4] == line[s + 2..s + 2 + dataBits] + [line[s + dataBits + 2], line[s + dataBits + 3]];
  }
}
