/** The receive side of the UART server: DMA into a 256-byte buffer, cut into lines by polling.

    The hardware is the caller: it delivers bytes by DMA at any time, and a few bytes may be
    stuck in the data register while DMA is off. */
module UartFramer {

  type Byte = char

  const CAPACITY: nat := 256

  predicate IsNewline(b: Byte) { b == '\n' || b == '\r' }

  // ---------------------------------------------------------------------
  // What the lines of a byte stream are
  // ---------------------------------------------------------------------

  function FirstNewline(s: seq<Byte>): (k: nat)
    ensures k <= |s|
  {
    if s == [] || IsNewline(s[0]) then 0 else 1 + FirstNewline(s[1..])
  }

  predicate NoNewline(s: seq<Byte>) { forall i :: 0 <= i < |s| ==> !IsNewline(s[i]) }

  predicate AllNewlines(s: seq<Byte>) { forall i :: 0 <= i < |s| ==> IsNewline(s[i]) }

  lemma {:induction false} FirstNewlineSplits(s: seq<Byte>)
    ensures var k := FirstNewline(s); NoNewline(s[..k]) && (k < |s| ==> IsNewline(s[k]))
  {
    if s != [] && !IsNewline(s[0]) {
      FirstNewlineSplits(s[1..]);
      var k := FirstNewline(s[1..]);
      assert s[..k + 1] == [s[0]] + s[1..][..k];
    }
  }

  /** The non-empty runs between newline characters; an unfinished run at the end is no line yet. */
  function Lines(s: seq<Byte>): seq<seq<Byte>>
    decreases |s|
  {
    var k := FirstNewline(s);
    if k == |s| then [] else OneOrNone(s[..k]) + Lines(s[k + 1..])
  }

  function Flatten(lines: seq<seq<Byte>>): seq<Byte> {
    if lines == [] then [] else lines[0] + Flatten(lines[1..])
  }

  function WithoutNewlines(s: seq<Byte>): seq<Byte> {
    if s == [] then [] else (if IsNewline(s[0]) then [] else [s[0]]) + WithoutNewlines(s[1..])
  }

  function OneOrNone(run: seq<Byte>): seq<seq<Byte>> { if run == [] then [] else [run] }

  predicate Complete(s: seq<Byte>) { s == [] || IsNewline(s[|s| - 1]) }

  lemma {:induction false} FirstNewlineIs(s: seq<Byte>, k: nat)
    requires k <= |s| && NoNewline(s[..k]) && (k < |s| ==> IsNewline(s[k]))
    ensures FirstNewline(s) == k
  {
    if k > 0 {
      assert s[..k][0] == s[0];
      assert s[1..][..k - 1] == s[..k][1..];
      FirstNewlineIs(s[1..], k - 1);
    }
  }

  lemma CompleteHasNewline(s: seq<Byte>)
    requires Complete(s) && s != []
    ensures FirstNewline(s) < |s|
  {
    FirstNewlineSplits(s);
    assert s[..|s|] == s;
  }

  lemma Associates<T>(a: seq<T>, b: seq<T>, c: seq<T>)
    ensures a + (b + c) == a + b + c
  {
  }

  /** Cutting a concatenation within its first part. */
  lemma CutConcat<T>(a: seq<T>, b: seq<T>, k: nat)
    requires k < |a|
    ensures (a + b)[..k] == a[..k] && (a + b)[k] == a[k] && (a + b)[k + 1..] == a[k + 1..] + b
  {
  }

  /** Cutting after a newline cuts the lines in two. */
  lemma {:induction false} LinesConcat(a: seq<Byte>, b: seq<Byte>)
    requires Complete(a)
    ensures Lines(a + b) == Lines(a) + Lines(b)
    decreases |a|
  {
    if a == [] {
      assert a + b == b;
    } else {
      var k := FirstNewline(a);
      CompleteHasNewline(a);
      CompleteBehind(a, k);
      LinesConcat(a[k + 1..], b);
      FirstLineOf(a, b, k);
      Associates(OneOrNone(a[..k]), Lines(a[k + 1..]), Lines(b));
    }
  }

  lemma FirstLineOf(a: seq<Byte>, b: seq<Byte>, k: nat)
    requires k == FirstNewline(a) && k < |a|
    ensures Lines(a) == OneOrNone(a[..k]) + Lines(a[k + 1..])
    ensures Lines(a + b) == OneOrNone(a[..k]) + Lines(a[k + 1..] + b)
  {
    CutConcat(a, b, k);
    FirstNewlineSplits(a);
    FirstNewlineIs(a + b, k);
  }

  lemma CompleteBehind(s: seq<Byte>, k: nat)
    requires Complete(s) && k < |s|
    ensures Complete(s[k + 1..])
  {
  }

  lemma {:induction false} NewlinesHoldNoLines(s: seq<Byte>)
    requires AllNewlines(s)
    ensures Lines(s) == []
  {
    if s != [] {
      FirstNewlineIs(s, 0);
      NewlinesHoldNoLines(s[1..]);
    }
  }

  /** A run and the newlines behind it hold one line, or none when the run is empty. */
  lemma OneLine(run: seq<Byte>, ends: seq<Byte>)
    requires NoNewline(run) && ends != [] && AllNewlines(ends)
    ensures Lines(run + ends) == OneOrNone(run)
  {
    var s := run + ends;
    assert s[..|run|] == run;
    FirstNewlineIs(s, |run|);
    assert s[|run| + 1..] == ends[1..];
    NewlinesHoldNoLines(ends[1..]);
  }

  lemma NoNewlineNoLine(s: seq<Byte>)
    requires FirstNewline(s) == |s|
    ensures Lines(s) == []
  {
  }

  lemma {:induction false} FlattenConcat(a: seq<seq<Byte>>, b: seq<seq<Byte>>)
    ensures Flatten(a + b) == Flatten(a) + Flatten(b)
  {
    if a == [] {
      assert a + b == b;
    } else {
      FlattenConcat(a[1..], b);
      CutConcat(a, b, 0);
      Associates(a[0], Flatten(a[1..]), Flatten(b));
    }
  }

  lemma {:induction false} WithoutNewlinesConcat(a: seq<Byte>, b: seq<Byte>)
    ensures WithoutNewlines(a + b) == WithoutNewlines(a) + WithoutNewlines(b)
  {
    if a == [] {
      assert a + b == b;
    } else {
      WithoutNewlinesConcat(a[1..], b);
      CutConcat(a, b, 0);
      Associates(if IsNewline(a[0]) then [] else [a[0]], WithoutNewlines(a[1..]), WithoutNewlines(b));
    }
  }

  lemma {:induction false} RunIsKept(run: seq<Byte>)
    requires NoNewline(run)
    ensures WithoutNewlines(run) == run
  {
    if run != [] {
      RunIsKept(run[1..]);
    }
  }

  lemma StreamSplits(run: seq<Byte>, end: Byte, rest: seq<Byte>)
    requires IsNewline(end) && NoNewline(run)
    ensures WithoutNewlines(run + ([end] + rest)) == run + WithoutNewlines(rest)
  {
    var tail := [end] + rest;
    WithoutNewlinesConcat(run, tail);
    RunIsKept(run);
    assert tail[0] == end && tail[1..] == rest;
    assert WithoutNewlines(tail) == WithoutNewlines(rest);
  }

  /** Lines are non-empty and hold no newline. */
  lemma {:induction false} LinesAreRuns(s: seq<Byte>)
    ensures forall line :: line in Lines(s) ==> line != [] && forall b :: b in line ==> !IsNewline(b)
    decreases |s|
  {
    var k := FirstNewline(s);
    FirstNewlineSplits(s);
    if k < |s| {
      LinesAreRuns(s[k + 1..]);
    }
  }

  /** Put together, the lines are every byte of the stream but the newlines, in order: nothing is
      lost, repeated or moved. */
  lemma {:induction false} LinesAreTheStream(s: seq<Byte>)
    requires Complete(s)
    ensures Flatten(Lines(s)) == WithoutNewlines(s)
    decreases |s|
  {
    if s != [] {
      var k := FirstNewline(s);
      CompleteHasNewline(s);
      CompleteBehind(s, k);
      LinesAreTheStream(s[k + 1..]);
      FirstLineIsTheStream(s, k);
      FlattenConcat(OneOrNone(s[..k]), Lines(s[k + 1..]));
      FlattenOne(s[..k]);
    }
  }

  lemma FirstLineIsTheStream(s: seq<Byte>, k: nat)
    requires k == FirstNewline(s) && k < |s|
    ensures WithoutNewlines(s) == s[..k] + WithoutNewlines(s[k + 1..])
  {
    CutAt(s, k);
    FirstNewlineSplits(s);
    StreamSplits(s[..k], s[k], s[k + 1..]);
  }

  lemma CutAt(s: seq<Byte>, k: nat)
    requires k < |s|
    ensures s == s[..k] + ([s[k]] + s[k + 1..])
  {
  }

  lemma FlattenOne(run: seq<Byte>)
    ensures Flatten(OneOrNone(run)) == run
  {
  }

  /** The buffer holds what follows the consumed bytes of the stream, and the lines are those of
      the consumed bytes. */
  predicate Framed(held: seq<Byte>, stream: seq<Byte>, done: nat, lines: seq<seq<Byte>>) {
    done <= |stream| && held == stream[done..] && Complete(stream[..done]) && lines == Lines(stream[..done])
  }

  lemma LineExtends(before: seq<Byte>, run: seq<Byte>, ends: seq<Byte>)
    requires Complete(before) && NoNewline(run) && ends != [] && AllNewlines(ends)
    ensures Complete(before + (run + ends)) && Lines(before + (run + ends)) == Lines(before) + OneOrNone(run)
  {
    LinesConcat(before, run + ends);
    OneLine(run, ends);
  }

  lemma StreamSlices(stream: seq<Byte>, done: nat, all: seq<Byte>, k: nat, skip: nat)
    requires done <= |stream| && all == stream[done..] && k <= skip <= |all|
    ensures stream[..done + skip] == stream[..done] + (all[..k] + all[k..skip]) && stream[done + skip..] == all[skip..]
  {
  }

  /** Consuming the first line of the buffer with the newlines behind it. */
  lemma ConsumeLine(all: seq<Byte>, stream: seq<Byte>, done: nat, lines: seq<seq<Byte>>, k: nat, skip: nat)
    requires Framed(all, stream, done, lines)
    requires k == FirstNewline(all) && k < skip <= |all| && AllNewlines(all[k..skip])
    ensures Framed(all[skip..], stream, done + skip, lines + OneOrNone(all[..k]))
  {
    StreamSlices(stream, done, all, k, skip);
    FirstNewlineSplits(all);
    LineExtends(stream[..done], all[..k], all[k..skip]);
  }

  /** Bytes stored behind the held ones. */
  lemma StoreBytes(held: seq<Byte>, stream: seq<Byte>, done: nat, lines: seq<seq<Byte>>, more: seq<Byte>)
    requires Framed(held, stream, done, lines)
    ensures Framed(held + more, stream + more, done, lines)
  {
    MoreBehind(stream, done, more);
  }

  lemma MoreBehind(stream: seq<Byte>, done: nat, more: seq<Byte>)
    requires done <= |stream|
    ensures (stream + more)[..done] == stream[..done] && (stream + more)[done..] == stream[done..] + more
  {
  }

  lemma FreshStream(stream: seq<Byte>)
    ensures Framed(stream, stream, 0, [])
  {
    assert stream[..0] == [] && stream[0..] == stream;
  }

  lemma SuffixAppend(lines: seq<seq<Byte>>, start: nat, more: seq<seq<Byte>>)
    requires start <= |lines|
    ensures (lines + more)[start..] == lines[start..] + more
  {
  }

  /** Where the newlines that start at `k` end. */
  function NewlinesEnd(s: seq<Byte>, k: nat): (end: nat)
    requires k <= |s|
    ensures k <= end <= |s|
    decreases |s| - k
  {
    if k == |s| || !IsNewline(s[k]) then k else NewlinesEnd(s, k + 1)
  }

  lemma {:induction false} NewlinesEndIs(s: seq<Byte>, k: nat, end: nat)
    requires k <= end <= |s| && (forall i :: k <= i < end ==> IsNewline(s[i])) && (end < |s| ==> !IsNewline(s[end]))
    ensures NewlinesEnd(s, k) == end
    decreases |s| - k
  {
    if k < end {
      NewlinesEndIs(s, k + 1, end);
    }
  }

  lemma {:induction false} NewlinesEndSplits(s: seq<Byte>, k: nat)
    requires k < |s| && IsNewline(s[k])
    ensures k < NewlinesEnd(s, k) && AllNewlines(s[k..NewlinesEnd(s, k)])
    decreases |s| - k
  {
    var end := NewlinesEnd(s, k);
    if k + 1 < |s| && IsNewline(s[k + 1]) {
      NewlinesEndSplits(s, k + 1);
      assert s[k..end] == [s[k]] + s[k + 1..end];
    } else {
      assert end == k + 1;
      assert s[k..k + 1] == [s[k]];
    }
  }

  /** What fits of `s` into `room` bytes. */
  function Fitting(s: seq<Byte>, room: nat): seq<Byte> { if |s| <= room then s else s[..room] }

  lemma AppendedNext(before: seq<Byte>, late: seq<Byte>, i: nat)
    requires i < |late|
    ensures before + late[..i] + [late[i]] == before + late[..i + 1]
  {
  }

  // ---------------------------------------------------------------------
  // The steps of the receiver
  // ---------------------------------------------------------------------

  /** The bytes in the buffer, and the lines handed to ProcessLine. */
  datatype Port = Port(held: seq<Byte>, lines: seq<seq<Byte>>)

  /** DMA stores a byte if the buffer has room; otherwise the byte is lost. */
  function ArriveStep(p: Port, b: Byte): Port
    requires |p.held| <= CAPACITY
  {
    p.(held := p.held + Fitting([b], CAPACITY - |p.held|))
  }

  /** What is stored of the stuck bytes behind the rest of a buffer whose line has been taken. */
  function Stored(all: seq<Byte>, k: nat, stuck: seq<Byte>): seq<Byte>
    requires k <= |all| <= CAPACITY
  {
    Fitting(stuck, CAPACITY - (|all| - NewlinesEnd(all, k)))
  }

  /** The buffer after its first line has been taken. */
  function Rest(all: seq<Byte>, k: nat, stuck: seq<Byte>): seq<Byte>
    requires k <= |all| <= CAPACITY
  {
    all[NewlinesEnd(all, k)..] + Stored(all, k, stuck)
  }

  /** Hands over the first line, unless it is empty, and makes room for the next. */
  function TakeStep(p: Port, k: nat, stuck: seq<Byte>): Port
    requires k < |p.held| <= CAPACITY
  {
    Port(Rest(p.held, k, stuck), p.lines + OneOrNone(p.held[..k]))
  }

  /** One poll: at most one line is handed over. `late` bytes reach DMA before it is stopped,
      `stuck` ones while it is off. A line of 254 bytes or more is discarded. */
  function PollStep(p: Port, late: seq<Byte>, stuck: seq<Byte>): Port
    requires |p.held| + |late| <= CAPACITY
  {
    var k := FirstNewline(p.held);
    if k < |p.held| then TakeStep(p.(held := p.held + late), k, stuck)
    else if |p.held| < CAPACITY - 2 then p
    else p.(held := Fitting(stuck, CAPACITY))
  }

  datatype Event = Arrive(b: Byte) | Poll(late: seq<Byte>, stuck: seq<Byte>)

  predicate Legal(p: Port, e: Event) { |p.held| <= CAPACITY && (e.Poll? ==> |p.held| + |e.late| <= CAPACITY) }

  function Step(p: Port, e: Event): (n: Port)
    requires Legal(p, e)
    ensures |n.held| <= CAPACITY
  {
    match e
    case Arrive(b) => ArriveStep(p, b)
    case Poll(late, stuck) => PollStep(p, late, stuck)
  }

  // ---------------------------------------------------------------------
  // What an observer of the bytes sees
  // ---------------------------------------------------------------------

  /** The bytes stored since the start, or since an overlong line was discarded; how many of them
      are behind the lines handed over; and how many lines were handed over before that. */
  datatype Seen = Seen(arrived: seq<Byte>, consumed: nat, start: nat)

  function Observe(p: Port, e: Event, s: Seen): Seen
    requires Legal(p, e)
  {
    match e
    case Arrive(b) => s.(arrived := s.arrived + Fitting([b], CAPACITY - |p.held|))
    case Poll(late, stuck) =>
      var k := FirstNewline(p.held);
      if k < |p.held| then
        var all := p.held + late;
        Seen(s.arrived + late + Stored(all, k, stuck), s.consumed + NewlinesEnd(all, k), s.start)
      else if |p.held| < CAPACITY - 2 then s
      else Seen(Fitting(stuck, CAPACITY), 0, |p.lines|)
  }

  /** The buffer and the lines are those of the bytes stored. */
  predicate InFrame(p: Port, s: Seen) {
    |p.held| <= CAPACITY && s.start <= |p.lines| && Framed(p.held, s.arrived, s.consumed, p.lines[s.start..])
  }

  lemma TakeStaysInFrame(p: Port, s: Seen, k: nat, stuck: seq<Byte>)
    requires InFrame(p, s) && k == FirstNewline(p.held) && k < |p.held|
    ensures InFrame(TakeStep(p, k, stuck), Seen(s.arrived + Stored(p.held, k, stuck), s.consumed + NewlinesEnd(p.held, k), s.start))
  {
    var lines, line := p.lines[s.start..], OneOrNone(p.held[..k]);
    TakeStaysFramed(p.held, s.arrived, s.consumed, lines, k, stuck);
    SuffixAppend(p.lines, s.start, line);
    FrameIs(TakeStep(p, k, stuck), Seen(s.arrived + Stored(p.held, k, stuck), s.consumed + NewlinesEnd(p.held, k), s.start),
            lines + line);
  }

  lemma FrameIs(p: Port, s: Seen, lines: seq<seq<Byte>>)
    requires |p.held| <= CAPACITY && s.start <= |p.lines| && p.lines[s.start..] == lines
    requires Framed(p.held, s.arrived, s.consumed, lines)
    ensures InFrame(p, s)
  {
  }

  lemma TakeStaysFramed(all: seq<Byte>, stream: seq<Byte>, done: nat, lines: seq<seq<Byte>>, k: nat, stuck: seq<Byte>)
    requires Framed(all, stream, done, lines) && k == FirstNewline(all) && k < |all| <= CAPACITY
    ensures Framed(Rest(all, k, stuck), stream + Stored(all, k, stuck), done + NewlinesEnd(all, k), lines + OneOrNone(all[..k]))
  {
    var skip := NewlinesEnd(all, k);
    FirstNewlineSplits(all);
    NewlinesEndSplits(all, k);
    ConsumeLine(all, stream, done, lines, k, skip);
    StoreBytes(all[skip..], stream, done + skip, lines + OneOrNone(all[..k]), Stored(all, k, stuck));
  }

  lemma LateStaysInFrame(p: Port, s: Seen, late: seq<Byte>)
    requires InFrame(p, s) && |p.held| + |late| <= CAPACITY && FirstNewline(p.held) < |p.held|
    ensures InFrame(p.(held := p.held + late), s.(arrived := s.arrived + late))
    ensures FirstNewline(p.held + late) == FirstNewline(p.held) && (p.held + late)[..FirstNewline(p.held)] == p.held[..FirstNewline(p.held)]
  {
    StoreBytes(p.held, s.arrived, s.consumed, p.lines[s.start..], late);
    CutConcat(p.held, late, FirstNewline(p.held));
    FirstNewlineSplits(p.held);
    FirstNewlineIs(p.held + late, FirstNewline(p.held));
  }

  lemma PollStaysInFrame(p: Port, s: Seen, late: seq<Byte>, stuck: seq<Byte>)
    requires InFrame(p, s) && |p.held| + |late| <= CAPACITY
    ensures InFrame(PollStep(p, late, stuck), Observe(p, Poll(late, stuck), s))
  {
    var k := FirstNewline(p.held);
    if k < |p.held| {
      LateStaysInFrame(p, s, late);
      TakeStaysInFrame(p.(held := p.held + late), s.(arrived := s.arrived + late), k, stuck);
    } else if |p.held| >= CAPACITY - 2 {
      FreshStream(Fitting(stuck, CAPACITY));
      assert p.lines[|p.lines|..] == [];
    }
  }

  lemma ArriveStaysInFrame(p: Port, s: Seen, b: Byte)
    requires InFrame(p, s)
    ensures InFrame(ArriveStep(p, b), Observe(p, Arrive(b), s))
  {
    StoreBytes(p.held, s.arrived, s.consumed, p.lines[s.start..], Fitting([b], CAPACITY - |p.held|));
  }

  lemma StepStaysInFrame(p: Port, e: Event, s: Seen)
    requires InFrame(p, s) && Legal(p, e)
    ensures InFrame(Step(p, e), Observe(p, e, s))
  {
    match e
    case Arrive(b) => ArriveStaysInFrame(p, s, b);
    case Poll(late, stuck) => PollStaysInFrame(p, s, late, stuck);
  }

  const EMPTY := Port([], [])
  const NOTHING := Seen([], 0, 0)

  /** Every event is legal where it happens. */
  predicate LegalRun(es: seq<Event>)
    decreases |es|, 0
  {
    es == [] || (LegalRun(es[..|es| - 1]) && Legal(After(es[..|es| - 1]), es[|es| - 1]))
  }

  function After(es: seq<Event>): Port
    requires LegalRun(es)
    decreases |es|, 1
  {
    if es == [] then EMPTY else Step(After(es[..|es| - 1]), es[|es| - 1])
  }

  function SeenAfter(es: seq<Event>): Seen
    requires LegalRun(es)
  {
    if es == [] then NOTHING else Observe(After(es[..|es| - 1]), es[|es| - 1], SeenAfter(es[..|es| - 1]))
  }

  /** In every run, whatever the timing of bytes and polls, and across every discarded line: the
      lines handed over since are exactly those of the bytes consumed, and the buffer is exactly
      the rest. */
  lemma {:induction false} AlwaysInFrame(es: seq<Event>)
    requires LegalRun(es)
    ensures InFrame(After(es), SeenAfter(es))
  {
    if es == [] {
      FreshStream([]);
      assert EMPTY.lines[0..] == [];
    } else {
      var n := |es| - 1;
      AlwaysInFrame(es[..n]);
      StepStaysInFrame(After(es[..n]), es[n], SeenAfter(es[..n]));
    }
  }

  lemma StreamOfFrame(held: seq<Byte>, stream: seq<Byte>, done: nat, lines: seq<seq<Byte>>)
    requires Framed(held, stream, done, lines)
    ensures Lines(stream) == lines + Lines(held)
  {
    assert stream == stream[..done] + held;
    LinesConcat(stream[..done], held);
  }

  /** At any moment the lines handed over are the first lines of everything stored. */
  lemma InOrder(es: seq<Event>)
    requires LegalRun(es)
    ensures var p, s := After(es), SeenAfter(es);
      s.start <= |p.lines| && p.lines[s.start..] <= Lines(s.arrived)
  {
    AlwaysInFrame(es);
    var p, s := After(es), SeenAfter(es);
    StreamOfFrame(p.held, s.arrived, s.consumed, p.lines[s.start..]);
  }

  /** When no newline is left in the buffer every finished line has been handed over: the lines
      are the lines of everything stored, whatever the timing was. */
  lemma Drained(es: seq<Event>)
    requires LegalRun(es) && NoNewline(After(es).held)
    ensures var p, s := After(es), SeenAfter(es);
      s.start <= |p.lines| && p.lines[s.start..] == Lines(s.arrived)
  {
    AlwaysInFrame(es);
    var p, s := After(es), SeenAfter(es);
    StreamOfFrame(p.held, s.arrived, s.consumed, p.lines[s.start..]);
    assert p.held[..|p.held|] == p.held;
    FirstNewlineIs(p.held, |p.held|);
    NoNewlineNoLine(p.held);
  }

  /** Polls while nothing comes. */
  function Polls(p: Port, n: nat): Port
    requires |p.held| <= CAPACITY
    decreases n
  {
    if n == 0 then p else Polls(Step(p, Poll([], [])), n - 1)
  }

  lemma PollTakes(p: Port)
    requires |p.held| <= CAPACITY
    ensures var n, k := Step(p, Poll([], [])), FirstNewline(p.held);
      if k == |p.held| then n.lines == p.lines && FirstNewline(n.held) == |n.held| && |n.held| <= |p.held|
      else |n.held| < |p.held| && n.lines + Lines(n.held) == p.lines + Lines(p.held)
  {
    var k := FirstNewline(p.held);
    if k < |p.held| {
      assert p.held + [] == p.held;
      FirstNewlineSplits(p.held);
      NewlinesEndSplits(p.held, k);
      TakenLine(p.held, k, NewlinesEnd(p.held, k));
      Associates(p.lines, OneOrNone(p.held[..k]), Lines(p.held[NewlinesEnd(p.held, k)..]));
      assert p.held[NewlinesEnd(p.held, k)..] + [] == p.held[NewlinesEnd(p.held, k)..];
    }
  }

  lemma TakenLine(all: seq<Byte>, k: nat, skip: nat)
    requires k < skip <= |all| && NoNewline(all[..k]) && AllNewlines(all[k..skip])
    ensures Lines(all) == OneOrNone(all[..k]) + Lines(all[skip..])
  {
    SplitTwice(all, k, skip);
    LineAndRest(all[..k], all[k..skip], all[skip..]);
  }

  lemma SplitTwice(all: seq<Byte>, k: nat, skip: nat)
    requires k < skip <= |all|
    ensures all == all[..k] + all[k..skip] + all[skip..]
  {
  }

  lemma LineAndRest(run: seq<Byte>, ends: seq<Byte>, rest: seq<Byte>)
    requires NoNewline(run) && ends != [] && AllNewlines(ends)
    ensures Lines(run + ends + rest) == OneOrNone(run) + Lines(rest)
  {
    var head := run + ends;
    assert head[|head| - 1] == ends[|ends| - 1];
    LinesConcat(head, rest);
    OneLine(run, ends);
  }

  /** However much has gathered, polling hands it all over: when nothing comes meanwhile, a poll for
      each byte of the buffer is enough for every line in it, and no newline is left. */
  lemma {:induction false} PollsHandOver(p: Port, n: nat)
    requires |p.held| <= n && |p.held| <= CAPACITY
    ensures Polls(p, n).lines == p.lines + Lines(p.held) && FirstNewline(Polls(p, n).held) == |Polls(p, n).held|
    decreases n
  {
    if n > 0 {
      PollTakes(p);
      var q := Step(p, Poll([], []));
      if FirstNewline(p.held) < |p.held| {
        PollsHandOver(q, n - 1);
      } else {
        NoNewlineNoLine(p.held);
        QuietPolls(q, n - 1);
      }
    }
  }

  lemma {:induction false} QuietPolls(p: Port, n: nat)
    requires |p.held| <= CAPACITY && FirstNewline(p.held) == |p.held|
    ensures Polls(p, n).lines == p.lines && FirstNewline(Polls(p, n).held) == |Polls(p, n).held|
    decreases n
  {
    if n > 0 {
      PollTakes(p);
      QuietPolls(Step(p, Poll([], [])), n - 1);
    }
  }

  // Nothing lost.

  /** What the line delivers in an event; a poll that leaves DMA running delivers nothing. */
  function Coming(p: Port, e: Event): seq<Byte>
    requires Legal(p, e)
  {
    match e
    case Arrive(b) => [b]
    case Poll(late, stuck) =>
      if FirstNewline(p.held) < |p.held| then late + stuck else if |p.held| < CAPACITY - 2 then [] else stuck
  }

  function Wire(es: seq<Event>): seq<Byte>
    requires LegalRun(es)
  {
    if es == [] then [] else Wire(es[..|es| - 1]) + Coming(After(es[..|es| - 1]), es[|es| - 1])
  }

  /** An arriving byte finds room, the stuck ones fit behind the rest, and no line is discarded. */
  predicate KeepsAll(p: Port, e: Event)
    requires Legal(p, e)
  {
    match e
    case Arrive(_) => |p.held| < CAPACITY
    case Poll(late, stuck) =>
      var k := FirstNewline(p.held);
      if k < |p.held| then |Rest(p.held + late, k, [])| + |stuck| <= CAPACITY else |p.held| < CAPACITY - 2
  }

  predicate LossFree(es: seq<Event>)
    requires LegalRun(es)
  {
    es == [] || (LossFree(es[..|es| - 1]) && KeepsAll(After(es[..|es| - 1]), es[|es| - 1]))
  }

  lemma StepKeepsAllIff(p: Port, e: Event, s: Seen)
    requires InFrame(p, s) && Legal(p, e)
    ensures var n := Observe(p, e, s);
      && (KeepsAll(p, e) ==> n.arrived == s.arrived + Coming(p, e) && n.start == s.start)
      && (!KeepsAll(p, e) ==> |n.arrived| < |s.arrived| + |Coming(p, e)|)
  {
    if e.Poll? && FirstNewline(p.held) < |p.held| {
      var all := p.held + e.late;
      assert s.arrived + e.late + e.stuck == s.arrived + (e.late + e.stuck);
      assert |Rest(all, FirstNewline(p.held), [])| == |all| - NewlinesEnd(all, FirstNewline(p.held));
    }
  }

  /** Everything stored is everything that came over the line exactly when every event finds
      room. */
  lemma {:induction false} NothingLostIff(es: seq<Event>)
    requires LegalRun(es)
    ensures SeenAfter(es).arrived == Wire(es) <==> LossFree(es)
    ensures LossFree(es) ==> SeenAfter(es).start == 0
    ensures |SeenAfter(es).arrived| <= |Wire(es)| && (!LossFree(es) ==> |SeenAfter(es).arrived| < |Wire(es)|)
  {
    if es != [] {
      var n := |es| - 1;
      NothingLostIff(es[..n]);
      AlwaysInFrame(es[..n]);
      StepKeepsAllIff(After(es[..n]), es[n], SeenAfter(es[..n]));
    }
  }

  /** Then the lines depend on the bytes alone, not on when they came or were polled: those
      handed over are the first lines of the line's bytes, and all of them once no newline is left. */
  lemma LinesOfTheWire(es: seq<Event>)
    requires LegalRun(es) && LossFree(es)
    ensures After(es).lines <= Lines(Wire(es))
    ensures NoNewline(After(es).held) ==> After(es).lines == Lines(Wire(es))
  {
    NothingLostIff(es);
    InOrder(es);
    assert After(es).lines[0..] == After(es).lines;
    if NoNewline(After(es).held) {
      Drained(es);
    }
  }

  /** The bytes not yet consumed, with those that come next, stay below 254. */
  predicate Shallow(es: seq<Event>)
    requires LegalRun(es)
  {
    es == [] ||
    (Shallow(es[..|es| - 1])
     && |After(es[..|es| - 1]).held| + |Coming(After(es[..|es| - 1]), es[|es| - 1])| < CAPACITY - 2)
  }

  /** A receiver that is polled often enough loses nothing. */
  lemma {:induction false} ShallowIsLossFree(es: seq<Event>)
    requires LegalRun(es) && Shallow(es)
    ensures LossFree(es)
  {
    if es != [] {
      var n := |es| - 1;
      ShallowIsLossFree(es[..n]);
      var p, e := After(es[..n]), es[n];
      if e.Poll? && FirstNewline(p.held) < |p.held| {
        assert |Rest(p.held + e.late, FirstNewline(p.held), [])| <= |p.held| + |e.late|;
      }
    }
  }

  // ---------------------------------------------------------------------
  // The receiver
  // ---------------------------------------------------------------------

  class UartReceiver {
    const rx: array<Byte>
    var lineLen: nat           // rx_line_len_
    var dmaCount: nat          // bytes DMA has written behind the partial line
    var lines: seq<seq<Byte>>

    ghost predicate Valid()
      reads this
    {
      rx.Length == CAPACITY && lineLen + dmaCount <= CAPACITY
    }

    ghost function View(): Port
      requires Valid()
      reads this, rx
    {
      Port(rx[..lineLen + dmaCount], lines)
    }

    constructor ()
      ensures Valid() && View() == EMPTY
    {
      rx := new Byte[256];
      lineLen, dmaCount, lines := 0, 0, [];
    }

    method Arrive(b: Byte)
      requires Valid()
      modifies this`dmaCount, rx
      ensures Valid() && View() == ArriveStep(old(View()), b)
    {
      if lineLen + dmaCount < CAPACITY {
        rx[lineLen + dmaCount] := b;
        dmaCount := dmaCount + 1;
      }
    }

    method FindNewline(total: nat) returns (k: nat)
      requires rx.Length == CAPACITY && total <= CAPACITY
      ensures k == FirstNewline(rx[..total])
    {
      k := 0;
      while k < total && !IsNewline(rx[k])
        invariant k <= total
        invariant forall i :: 0 <= i < k ==> !IsNewline(rx[i])
      {
        k := k + 1;
      }
      FirstNewlineIs(rx[..total], k);
    }

    method SkipNewlines(from: nat, total: nat) returns (k: nat)
      requires rx.Length == CAPACITY && from < total <= CAPACITY && IsNewline(rx[from])
      ensures from < k <= total && k == NewlinesEnd(rx[..total], from)
    {
      k := from;
      while k < total && IsNewline(rx[k])
        invariant from <= k <= total && (k == from ==> IsNewline(rx[k]))
        invariant forall i :: from <= i < k ==> IsNewline(rx[i])
      {
        k := k + 1;
      }
      NewlinesEndIs(rx[..total], from, k);
    }

    /** Drains the bytes stuck in the data register and restarts DMA behind them. */
    method StartDmaRead(stuck: seq<Byte>)
      requires rx.Length == CAPACITY && lineLen <= CAPACITY
      modifies this`lineLen, rx
      ensures lineLen == old(lineLen) + |Fitting(stuck, CAPACITY - old(lineLen))|
      ensures rx[..lineLen] == old(rx[..lineLen]) + Fitting(stuck, CAPACITY - old(lineLen))
    {
      var i := 0;
      while i < |stuck|
        invariant 0 <= i <= |stuck|
        invariant lineLen == if old(lineLen) + i <= CAPACITY then old(lineLen) + i else CAPACITY
        invariant old(lineLen) <= lineLen
        invariant rx[..lineLen] == old(rx[..lineLen]) + stuck[..lineLen - old(lineLen)]
      {
        if lineLen < CAPACITY {
          rx[lineLen] := stuck[i];
          lineLen := lineLen + 1;
        }
        i := i + 1;
      }
      assert stuck[..|stuck|] == stuck;
    }

    /** Bytes that DMA stores between the first count and its stop. */
    method ArriveAll(late: seq<Byte>)
      requires Valid() && lineLen + dmaCount + |late| <= CAPACITY
      modifies this`dmaCount, rx
      ensures Valid() && View() == old(View()).(held := old(View()).held + late)
    {
      var i := 0;
      ghost var held := View().held;
      assert held + late[..0] == held;
      while i < |late|
        invariant 0 <= i <= |late|
        invariant Valid() && lineLen + dmaCount + |late| - i <= CAPACITY && View() == Port(held + late[..i], lines)
      {
        AppendedNext(held, late, i);
        Arrive(late[i]);
        i := i + 1;
      }
      assert late[..|late|] == late;
    }

    /** Hands over the line before the newline at `k`, unless it is empty. */
    method HandOver(k: nat)
      requires Valid() && k <= lineLen + dmaCount
      modifies this`lines
      ensures lines == old(lines) + OneOrNone(View().held[..k])
    {
      assert rx[..k] == View().held[..k];
      lines := lines + OneOrNone(rx[..k]);
    }

    /** Skips the newlines from `k` on, moves the rest down and restarts DMA behind it. */
    method SkipLine(k: nat, stuck: seq<Byte>)
      requires Valid() && k < lineLen + dmaCount && IsNewline(rx[k])
      modifies this`lineLen, this`dmaCount, rx
      ensures Valid() && View().held == Rest(old(View()).held, k, stuck)
    {
      var total := lineLen + dmaCount;
      ghost var all := View().held;
      var skip := SkipNewlines(k, total);
      assert rx[skip..total] == all[skip..];
      Restart(skip, total, stuck);
    }

    /** Moves what is left to the start of the buffer and restarts DMA behind it. */
    method Restart(skip: nat, total: nat, stuck: seq<Byte>)
      requires rx.Length == CAPACITY && skip <= total <= CAPACITY
      modifies this`lineLen, this`dmaCount, rx
      ensures lineLen <= CAPACITY && dmaCount == 0
      ensures rx[..lineLen] == old(rx[skip..total]) + Fitting(stuck, CAPACITY - (total - skip))
    {
      MoveDown(skip, total);
      StartDmaRead(stuck);
    }

    /** Moves what is left to the start of the buffer. */
    method MoveDown(skip: nat, total: nat)
      requires rx.Length == CAPACITY && skip <= total <= CAPACITY
      modifies this`lineLen, this`dmaCount, rx
      ensures lineLen == total - skip && dmaCount == 0
      ensures rx[..lineLen] == old(rx[skip..total])
    {
      lineLen, dmaCount := total - skip, 0;
      forall i | 0 <= i < lineLen {
        rx[i] := rx[skip + i];
      }
    }

    method TakeLine(k: nat, stuck: seq<Byte>)
      requires Valid() && k < lineLen + dmaCount && IsNewline(rx[k])
      modifies this, rx
      ensures Valid() && View() == TakeStep(old(View()), k, stuck)
    {
      HandOver(k);
      SkipLine(k, stuck);
    }

    method TakeNext(k: nat, late: seq<Byte>, stuck: seq<Byte>)
      requires Valid() && lineLen + dmaCount + |late| <= CAPACITY && k < lineLen + dmaCount && IsNewline(rx[k])
      modifies this, rx
      ensures Valid() && View() == TakeStep(old(View()).(held := old(View()).held + late), k, stuck)
    {
      CutConcat(View().held, late, k);
      assert IsNewline(View().held[k]);
      ArriveAll(late);
      assert IsNewline(View().held[k]);
      TakeLine(k, stuck);
    }

    /** Drops a line that fills the buffer. */
    method Discard(stuck: seq<Byte>)
      requires Valid()
      modifies this`lineLen, this`dmaCount, rx
      ensures Valid() && View() == old(View()).(held := Fitting(stuck, CAPACITY))
    {
      lineLen, dmaCount := 0, 0;
      StartDmaRead(stuck);
      assert old(rx[..0]) == [];
    }

    method ProcessDmaRx(late: seq<Byte>, stuck: seq<Byte>)
      requires Valid() && lineLen + dmaCount + |late| <= CAPACITY
      modifies this, rx
      ensures Valid() && View() == PollStep(old(View()), late, stuck)
    {
      var total := lineLen + dmaCount;
      var k := FindNewline(total);
      if k >= total {
        if total >= CAPACITY - 2 {
          Discard(stuck);
        }
        return;
      }
      FirstNewlineSplits(View().held);
      TakeNext(k, late, stuck);
    }
  }
}
