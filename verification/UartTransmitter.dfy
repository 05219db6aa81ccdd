/** The transmit side of the UART server: two buffers, one filling while DMA owns the other.

    The hardware tells a poll whether DMA has finished; what was sent is read from the buffer
    at that moment, so anything that touched it meanwhile would show. The class is the
    firmware's code; the functions before it say what each call does to the bytes and the
    continuations, and the lemmas after them hold for every run of calls. */
module UartTransmitter {
  import opened Common
  import opened FdcanusbText

  const CAPACITY: nat := 256

  /** A write whose completion the caller wants to hear of. */
  datatype Request = Request(text: seq<char>, id: nat)

  /** The frame as the device prints it, before checksum and line end. */
  function RcvText(id: nat, payload: seq<nat>): seq<char> {
    ['r', 'c', 'v', ' '] + (HexDigits(id, 8) + ([' '] + HexBytes(payload)))
  }

  function RcvLine(id: nat, payload: seq<nat>, checksum: bool): (line: seq<char>)
    ensures 0 < |line| <= 19 + 2 * |payload|
  {
    var text := RcvText(id, payload);
    (if checksum then WithCrc(text) else text) + ['\r', '\n']
  }

  /** What the device prints reads back as the same identifier and payload, and its checksum holds. */
  lemma RcvReadsBack(id: nat, payload: seq<nat>)
    requires id < 0x1_0000_0000 && forall i :: 0 <= i < |payload| ==> payload[i] < 256
    ensures ParseId(0, RcvText(id, payload)[4..]) == Id(id, HexBytes(payload))
    ensures ParseData(HexBytes(payload), |payload|) == Some(payload)
    ensures payload != [] ==> Check(WithCrc(RcvText(id, payload))) == Good(RcvText(id, payload))
  {
    BehindTheName(id, payload);
    IdRoundTrip(id, HexBytes(payload), 8);
    DataRoundTrip(payload, |payload|);
    if payload != [] {
      ChecksumReadsBack(id, payload);
    }
  }

  lemma BehindTheName(id: nat, payload: seq<nat>)
    ensures RcvText(id, payload)[4..] == HexDigits(id, 8) + ([' '] + HexBytes(payload))
  {
  }

  lemma ChecksumReadsBack(id: nat, payload: seq<nat>)
    requires payload != []
    ensures Check(WithCrc(RcvText(id, payload))) == Good(RcvText(id, payload))
  {
    LastIsDigit(id, payload);
    CrcRoundTrip(RcvText(id, payload));
  }

  lemma LastIsDigit(id: nat, payload: seq<nat>)
    requires payload != []
    ensures var text := RcvText(id, payload); text[|text| - 1] != ' '
  {
    var bytes := HexBytes(payload);
    HexBytesAre(payload);
    assert bytes[|bytes| - 1] in bytes;
    DigitsArePlain(bytes[|bytes| - 1]);
    var text := RcvText(id, payload);
    assert text[|text| - 1] == bytes[|bytes| - 1];
  }

  // ---------------------------------------------------------------------
  // What each call does
  // ---------------------------------------------------------------------

  /** Bytes sent, bytes DMA owns, bytes waiting, and the continuations. */
  datatype Channel = Channel(
    sent: seq<char>,
    active: bool,
    flight: seq<char>,
    pending: seq<char>,
    waiting: Option<nat>,
    waitsInFlight: bool,     // the waiting write is in the buffer that DMA owns
    fired: seq<nat>)
  {
    predicate Valid() {
      && |pending| <= CAPACITY && (!active ==> flight == [])
      && (waitsInFlight ==> waiting.Some? && active)
    }

    /** No data is left waiting while DMA is idle, and a waiting write is somewhere. */
    predicate Settled() {
      (!active ==> pending == []) && (waiting.Some? && !waitsInFlight ==> pending != [])
    }
  }

  const IDLE := Channel([], false, [], [], None, false, [])

  /** The part of a text that fits behind the pending bytes. */
  function Kept(t: Channel, text: seq<char>): seq<char>
    requires t.Valid()
  {
    if |text| <= CAPACITY - |t.pending| then text else text[..CAPACITY - |t.pending|]
  }

  /** The pending buffer goes to DMA if DMA is idle and there is something to send. */
  function Start(t: Channel): (r: Channel)
    requires t.Valid()
    ensures r.Valid()
  {
    if t.active || t.pending == [] then t
    else t.(active := true, flight := t.pending, pending := [], waitsInFlight := t.waiting.Some?)
  }

  function AppendStep(t: Channel, text: seq<char>): (r: Channel)
    requires t.Valid()
    ensures r.Valid()
  {
    Start(t.(pending := t.pending + Kept(t, text)))
  }

  function WriteStep(t: Channel, request: Request): (r: Channel)
    requires t.Valid()
    ensures r.Valid()
  {
    Start(t.(pending := t.pending + Kept(t, request.text), waiting := Some(request.id), waitsInFlight := false))
  }

  /** The continuation that a finished DMA transfer runs. */
  function Fire(t: Channel, next: Option<Request>): (r: Channel)
    requires t.Valid()
    ensures r.Valid()
  {
    if t.waiting.Some? then
      var told := t.(fired := t.fired + [t.waiting.value], waiting := None, waitsInFlight := false);
      if next.Some? then WriteStep(told, next.value) else told
    else t
  }

  function Finish(t: Channel): Channel { t.(sent := t.sent + t.flight, flight := [], active := false, waitsInFlight := false) }

  function PollStep(t: Channel, finished: bool, next: Option<Request>): (r: Channel)
    requires t.Valid()
    ensures r.Valid()
  {
    if !t.active || !finished then t
    else Start(if t.waitsInFlight then Fire(Finish(t), next) else Finish(t))
  }

  // ---------------------------------------------------------------------
  // Whole runs
  // ---------------------------------------------------------------------

  datatype Event = Appended(text: seq<char>) | Wrote(request: Request) | Polled(finished: bool, next: Option<Request>)

  function Step(t: Channel, e: Event): (r: Channel)
    requires t.Valid()
    ensures r.Valid()
  {
    match e
    case Appended(text) => AppendStep(t, text)
    case Wrote(request) => WriteStep(t, request)
    case Polled(finished, next) => PollStep(t, finished, next)
  }

  /** One write at a time, and none of nothing: what the server asserts and always does. */
  predicate Legal(t: Channel, e: Event) {
    match e
    case Appended(text) => true
    case Wrote(request) => t.waiting.None? && request.text != []
    case Polled(finished, next) => next.Some? ==> next.value.text != []
  }

  /** What the callers have handed in: the text that fitted, the continuations, and where in the
      text the last write ends. */
  datatype Log = Log(accepted: seq<char>, issued: seq<nat>, end: nat)

  function LogWrite(t: Channel, request: Request, log: Log): Log
    requires t.Valid()
  {
    var accepted := log.accepted + Kept(t, request.text);
    Log(accepted, log.issued + [request.id], |accepted|)
  }

  predicate Fires(t: Channel, e: Event) { e.Polled? && e.finished && t.active && t.waitsInFlight }

  /** The log is written from the calls alone. */
  function Record(t: Channel, e: Event, log: Log): Log
    requires t.Valid()
  {
    match e
    case Appended(text) => log.(accepted := log.accepted + Kept(t, text))
    case Wrote(request) => LogWrite(t, request, log)
    case Polled(finished, next) => if Fires(t, e) && next.Some? then LogWrite(t, next.value, log) else log
  }

  /** Every accepted byte is sent, in flight or pending, in order; every continuation has run or is
      the one waiting; and the waiting write ends no later than the buffer it is in. */
  predicate Conserves(t: Channel, log: Log) {
    && t.Valid() && t.Settled()
    && log.accepted == t.sent + t.flight + t.pending
    && log.issued == t.fired + (if t.waiting.Some? then [t.waiting.value] else [])
    && (t.waitsInFlight ==> log.end <= |t.sent| + |t.flight|)
    && (t.waiting.Some? ==> log.end <= |log.accepted|)
  }

  lemma StartConserves(t: Channel, log: Log)
    requires t.Valid() && (t.waiting.Some? && !t.waitsInFlight ==> t.pending != [])
    requires log.accepted == t.sent + t.flight + t.pending
    requires log.issued == t.fired + (if t.waiting.Some? then [t.waiting.value] else [])
    requires t.waitsInFlight ==> log.end <= |t.sent| + |t.flight|
    requires t.waiting.Some? ==> log.end <= |log.accepted|
    ensures Conserves(Start(t), log)
  {
    assert t.sent + t.pending + [] == t.sent + t.pending;
    assert !t.active ==> t.sent + [] + t.pending == t.sent + t.pending;
  }

  lemma WriteConserves(t: Channel, request: Request, log: Log)
    requires t.Valid() && t.waiting.None? && request.text != []
    requires log.accepted == t.sent + t.flight + t.pending && log.issued == t.fired
    ensures Conserves(WriteStep(t, request), LogWrite(t, request, log))
  {
    var kept := Kept(t, request.text);
    assert t.sent + t.flight + (t.pending + kept) == t.sent + t.flight + t.pending + kept;
    StartConserves(t.(pending := t.pending + kept, waiting := Some(request.id), waitsInFlight := false),
      LogWrite(t, request, log));
  }

  /** Every legal call conserves bytes and continuations, and the log only grows. */
  lemma StepConserves(t: Channel, e: Event, log: Log)
    requires Conserves(t, log) && Legal(t, e)
    ensures Conserves(Step(t, e), Record(t, e, log))
    ensures log.accepted <= Record(t, e, log).accepted && log.issued <= Record(t, e, log).issued
  {
    match e
    case Appended(text) =>
      var kept := Kept(t, text);
      assert t.sent + t.flight + (t.pending + kept) == t.sent + t.flight + t.pending + kept;
      StartConserves(t.(pending := t.pending + kept), Record(t, e, log));
    case Wrote(request) => WriteConserves(t, request, log);
    case Polled(finished, next) => PollConserves(t, finished, next, log);
  }

  lemma PollConserves(t: Channel, finished: bool, next: Option<Request>, log: Log)
    requires Conserves(t, log) && Legal(t, Polled(finished, next))
    ensures Conserves(Step(t, Polled(finished, next)), Record(t, Polled(finished, next), log))
  {
    if t.active && finished {
      var done := Finish(t);
      assert done.sent + done.flight + done.pending == t.sent + t.flight + t.pending;
      if !t.waitsInFlight {
        StartConserves(done, log);
      } else {
        var told := done.(fired := done.fired + [t.waiting.value], waiting := None, waitsInFlight := false);
        if next.Some? {
          WriteConserves(told, next.value, log);
          StartTwice(told, next.value);
        } else {
          StartConserves(told, log);
        }
      }
    }
  }

  /** A write has already started what there was to start. */
  lemma StartTwice(t: Channel, request: Request)
    requires t.Valid()
    ensures Start(WriteStep(t, request)) == WriteStep(t, request)
  {
  }

  /** A continuation runs only when every byte of its write has been sent. */
  lemma FiresAfterSending(t: Channel, e: Event, log: Log)
    requires Conserves(t, log) && Legal(t, e) && Step(t, e).fired != t.fired
    ensures Fires(t, e) && log.end <= |Step(t, e).sent| && Step(t, e).fired == t.fired + [t.waiting.value]
  {
  }

  /** Nothing that was sent or run is ever taken back. */
  lemma StepGrows(t: Channel, e: Event)
    requires t.Valid() && Legal(t, e)
    ensures t.sent <= Step(t, e).sent && t.fired <= Step(t, e).fired
  {
  }

  /** A run of calls, each legal where it comes. */
  predicate LegalRun(t: Channel, es: seq<Event>)
    requires t.Valid()
    decreases |es|
  {
    es == [] || (Legal(t, es[0]) && LegalRun(Step(t, es[0]), es[1..]))
  }

  function After(t: Channel, es: seq<Event>): Channel
    requires t.Valid()
    decreases |es|
  {
    if es == [] then t else After(Step(t, es[0]), es[1..])
  }

  function Logged(t: Channel, log: Log, es: seq<Event>): Log
    requires t.Valid()
    decreases |es|
  {
    if es == [] then log else Logged(Step(t, es[0]), Record(t, es[0], log), es[1..])
  }

  lemma {:induction false} RunConserves(t: Channel, log: Log, es: seq<Event>)
    requires Conserves(t, log) && LegalRun(t, es)
    ensures Conserves(After(t, es), Logged(t, log, es))
    decreases |es|
  {
    if es != [] {
      StepConserves(t, es[0], log);
      RunConserves(Step(t, es[0]), Record(t, es[0], log), es[1..]);
    }
  }

  /** The text a call hands in. */
  function Text(t: Channel, e: Event): seq<char> {
    match e
    case Appended(text) => text
    case Wrote(request) => request.text
    case Polled(finished, next) => if Fires(t, e) && next.Some? then next.value.text else []
  }

  /** All the text of a run, and whether every piece of it fitted where it came. */
  function Texts(t: Channel, es: seq<Event>): seq<char>
    requires t.Valid()
    decreases |es|
  {
    if es == [] then [] else Text(t, es[0]) + Texts(Step(t, es[0]), es[1..])
  }

  predicate NoOverflow(t: Channel, es: seq<Event>)
    requires t.Valid()
    decreases |es|
  {
    es == [] || (|t.pending| + |Text(t, es[0])| <= CAPACITY && NoOverflow(Step(t, es[0]), es[1..]))
  }

  /** Without overflow what is accepted is everything that was handed in. */
  lemma {:induction false} NothingIsCut(t: Channel, log: Log, es: seq<Event>)
    requires t.Valid() && LegalRun(t, es) && NoOverflow(t, es)
    ensures Logged(t, log, es).accepted == log.accepted + Texts(t, es)
    decreases |es|
  {
    if es == [] {
      assert log.accepted + [] == log.accepted;
    } else {
      var next := Record(t, es[0], log);
      assert next.accepted == log.accepted + Text(t, es[0]);
      NothingIsCut(Step(t, es[0]), next, es[1..]);
      assert log.accepted + (Text(t, es[0]) + Texts(Step(t, es[0]), es[1..]))
          == log.accepted + Text(t, es[0]) + Texts(Step(t, es[0]), es[1..]);
    }
  }

  /** Over every run of calls from an idle transmitter: what was sent is a prefix of what was
      accepted, the continuations run are a prefix of those handed in, and with DMA idle both
      are everything. */
  lemma AllSent(es: seq<Event>)
    requires LegalRun(IDLE, es)
    ensures var t, log := After(IDLE, es), Logged(IDLE, Log([], [], 0), es);
      && t.sent <= log.accepted && t.fired <= log.issued && |log.issued| <= |t.fired| + 1
      && (!t.active ==> t.sent == log.accepted && t.fired == log.issued)
  {
    RunConserves(IDLE, Log([], [], 0), es);
  }

  /** Two finished transfers send everything that had been accepted, and run every continuation;
      a poll that finds no finished transfer changes nothing. */
  lemma Drains(t: Channel, log: Log)
    requires Conserves(t, log)
    ensures var u := Step(Step(t, Polled(true, None)), Polled(true, None));
      !u.active && u.sent == log.accepted && u.fired == log.issued
    ensures forall next :: Step(t, Polled(false, next)) == t
  {
    var m := Step(t, Polled(true, None));
    StepConserves(t, Polled(true, None), log);
    StepConserves(m, Polled(true, None), log);
    assert m.pending == [];
  }

  // ---------------------------------------------------------------------
  // The firmware's buffers
  // ---------------------------------------------------------------------

  class Transmitter {
    const buf0: array<char>
    const buf1: array<char>
    var pendingIdx: nat
    var pendingSize: nat
    var activeIdx: nat
    var activeSize: nat         // length of the view given to DMA
    var dmaActive: bool
    var callback: Option<nat>   // the caller's continuation, by id
    var callbackIdx: int        // buffer it waits for, -1 for none
    var sent: seq<char>         // what DMA has finished sending
    var fired: seq<nat>         // continuations run, in order

    function Buffer(i: nat): array<char>
      reads this
    {
      if i == 0 then buf0 else buf1
    }

    /** DMA never owns the pending buffer, and a waiting continuation belongs to one of the two. */
    predicate Valid()
      reads this
    {
      && buf0 != buf1 && buf0.Length == CAPACITY && buf1.Length == CAPACITY
      && pendingIdx < 2 && activeIdx < 2 && pendingSize <= CAPACITY && activeSize <= CAPACITY
      && (dmaActive ==> pendingIdx != activeIdx)
      && (callback.None? <==> callbackIdx == -1)
      && (callback.Some? ==> callbackIdx == pendingIdx || (dmaActive && callbackIdx == activeIdx))
    }

    function View(): Channel
      requires Valid()
      reads this, buf0, buf1
    {
      Channel(sent, dmaActive, if dmaActive then Buffer(activeIdx)[..activeSize] else [],
        Buffer(pendingIdx)[..pendingSize], callback,
        callback.Some? && dmaActive && callbackIdx == activeIdx, fired)
    }

    constructor ()
      ensures Valid() && View() == IDLE
    {
      buf0 := new char[256];
      buf1 := new char[256];
      pendingIdx, pendingSize, activeIdx, activeSize, dmaActive := 0, 0, 0, 0, false;
      callback, callbackIdx, sent, fired := None, -1, [], [];
    }

    method MaybeStartPendingWrite()
      requires Valid()
      modifies this`activeIdx, this`activeSize, this`pendingIdx, this`pendingSize, this`dmaActive
      ensures Valid() && View() == Start(old(View()))
    {
      if dmaActive || pendingSize == 0 {
        return;
      }
      activeIdx := pendingIdx;
      activeSize := pendingSize;
      pendingIdx := 1 - pendingIdx;
      pendingSize := 0;
      dmaActive := true;
      assert Buffer(pendingIdx)[..pendingSize] == [];
    }

    /** memcpy of what fits behind the pending bytes. */
    method Store(text: seq<char>)
      requires Valid()
      modifies this`pendingSize, buf0, buf1
      ensures Valid()
      ensures View() == old(View()).(pending := old(View()).pending + Kept(old(View()), text))
    {
      var available := CAPACITY - pendingSize;
      var n := if |text| <= available then |text| else available;
      Fill(text, n);
      assert |text| <= available ==> text[..n] == text;
    }

    method Fill(text: seq<char>, n: nat)
      requires Valid() && n <= |text| && pendingSize + n <= CAPACITY
      modifies this`pendingSize, buf0, buf1
      ensures Valid()
      ensures View() == old(View()).(pending := old(View()).pending + text[..n])
    {
      ghost var before, flight := Buffer(pendingIdx)[..pendingSize], Buffer(activeIdx)[..activeSize];
      var buffer := Buffer(pendingIdx);
      forall i | 0 <= i < n {
        buffer[pendingSize + i] := text[i];
      }
      pendingSize := pendingSize + n;
      assert dmaActive ==> Buffer(activeIdx)[..activeSize] == flight;
      assert Buffer(pendingIdx)[..pendingSize] == before + text[..n];
    }

    method AppendToWriteBuffer(text: seq<char>)
      requires Valid()
      modifies this`pendingSize, this`activeIdx, this`activeSize, this`pendingIdx, this`dmaActive, buf0, buf1
      ensures Valid() && View() == AppendStep(old(View()), text)
    {
      Store(text);
      MaybeStartPendingWrite();
    }

    /** One write may be waiting at a time. */
    method AsyncWrite(request: Request)
      requires Valid() && callback.None?
      modifies this, buf0, buf1
      ensures Valid() && View() == WriteStep(old(View()), request)
    {
      Store(request.text);
      callback := Some(request.id);
      callbackIdx := pendingIdx;
      MaybeStartPendingWrite();
    }

    /** Prints a frame. */
    method WriteFrame(frame: nat, payload: seq<nat>, checksum: bool, id: nat)
      requires Valid() && callback.None?
      modifies this, buf0, buf1
      ensures Valid() && View() == WriteStep(old(View()), Request(RcvLine(frame, payload, checksum), id))
    {
      AsyncWrite(Request(RcvLine(frame, payload, checksum), id));
    }

    /** The transmit part of a poll. A continuation may start the next write at once. */
    method Poll(finished: bool, next: Option<Request>)
      requires Valid()
      modifies this, buf0, buf1
      ensures Valid() && View() == PollStep(old(View()), finished, next)
    {
      if !dmaActive || !finished {
        return;
      }
      var fire := callback.Some? && callbackIdx == activeIdx;
      Complete(fire);
      if fire && next.Some? {
        AsyncWrite(next.value);
      }
      MaybeStartPendingWrite();
    }

    /** DMA is done with its buffer; the continuation that waits for it runs. */
    method Complete(fire: bool)
      requires Valid() && dmaActive && fire == (callback.Some? && callbackIdx == activeIdx)
      modifies this`sent, this`dmaActive, this`fired, this`callback, this`callbackIdx
      ensures Valid()
      ensures View() == if fire then Fire(Finish(old(View())), None) else Finish(old(View()))
    {
      sent := sent + Buffer(activeIdx)[..activeSize];
      dmaActive := false;
      if fire {
        fired := fired + [callback.value];
        callback, callbackIdx := None, -1;
      }
    }
  }
}
