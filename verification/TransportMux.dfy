/** One datagram interface over two transports: CAN-FD always, a UART server that may come,
    change and go.

    The UART servers belong to the controller's two aux ports: whenever a port is configured the
    multiplexer is handed the server of aux1, or else that of aux2. A server that is handed back
    keeps what it was doing, and starting an operation that is still pending fails an assert,
    which stops the firmware. That stop is a state here, and the lemmas say exactly when a run
    reaches it, and what every run keeps until then. */
module TransportMux {
  import opened Common

  datatype Transport = Can | Uart

  // ---------------------------------------------------------------------
  // Transport ids in the header flags
  // ---------------------------------------------------------------------

  function TransportId(t: Transport): nat { if t == Can then 0 else 1 }

  /** flags | (id << 8) */
  function Encode(flags: nat, t: Transport): nat {
    if t == Uart && flags / 256 % 2 == 0 then flags + 256 else flags
  }

  /** (flags & 0xff00) >> 8 */
  function IdOf(flags: nat): nat { flags / 256 % 256 }

  /** flags & ~0xff00 */
  function Clean(flags: nat): nat { flags / 256 / 256 * 65536 + flags % 256 }

  function RouteOf(flags: nat): Transport { if IdOf(flags) == 1 then Uart else Can }

  /** A reply goes back to the transport of its query with the original flags exactly when the
      transport left the id bits clear. */
  lemma FlagsRoundTripIff(flags: nat, t: Transport)
    ensures IdOf(flags) == 0 ==> RouteOf(Encode(flags, t)) == t && IdOf(Encode(flags, t)) == TransportId(t)
    ensures Clean(Encode(flags, t)) == flags <==> IdOf(flags) == 0
  {
    SplitFlags(flags);
    WordRoundTripIff(flags % 256, flags / 256 % 256, flags / 256 / 256, flags, t);
  }

  lemma WordRoundTripIff(low: nat, id: nat, high: nat, w: nat, t: Transport)
    requires low < 256 && id < 256 && w == Word(low, id, high)
    ensures IdOf(w) == 0 ==> RouteOf(Encode(w, t)) == t && IdOf(Encode(w, t)) == TransportId(t)
    ensures Clean(Encode(w, t)) == w <==> IdOf(w) == 0
  {
    FieldsOf(low, id, high);
    EncodeWord(low, id, high, w, t);
    FieldsOf(low, Tagged(id, t), high);
  }

  /** The id byte after the transport's id has been ORed in. */
  function Tagged(id: nat, t: Transport): nat { if t == Uart && id % 2 == 0 then id + 1 else id }

  lemma EncodeWord(low: nat, id: nat, high: nat, w: nat, t: Transport)
    requires low < 256 && id < 256 && w == Word(low, id, high) && w / 256 % 2 == id % 2
    ensures Encode(w, t) == Word(low, Tagged(id, t), high) && Tagged(id, t) < 256
  {
  }

  lemma SplitFlags(flags: nat)
    ensures flags == Word(flags % 256, flags / 256 % 256, flags / 256 / 256)
  {
  }

  function Word(low: nat, id: nat, high: nat): nat { low + id * 256 + high * 65536 }

  lemma FieldsOf(low: nat, id: nat, high: nat)
    requires low < 256 && id < 256
    ensures Word(low, id, high) / 256 % 2 == id % 2
    ensures IdOf(Word(low, id, high)) == id && Clean(Word(low, id, high)) == Word(low, 0, high)
  {
    FieldsFrom(Word(low, id, high), id + high * 256, low, id, high);
    FieldsFrom(Word(low, 0, high), high * 256, low, 0, high);
  }

  lemma FieldsFrom(w: nat, m: nat, low: nat, id: nat, high: nat)
    requires low < 256 && id < 256 && w == low + m * 256 && m == id + high * 256
    ensures w / 256 == m && w % 256 == low && m / 256 == high && m % 256 == id && m % 2 == id % 2
  {
    ByteShift(m, low);
    ByteShift(high, id);
    EvenBase(high, id);
  }

  lemma EvenBase(q: nat, r: nat)
    ensures (r + q * 256) % 2 == r % 2
  {
  }

  lemma ByteShift(q: nat, r: nat)
    requires r < 256
    ensures (r + q * 256) / 256 == q && (r + q * 256) % 256 == r
  {
  }

  // ---------------------------------------------------------------------
  // What each call does
  // ---------------------------------------------------------------------

  datatype Read = Read(id: nat, capacity: nat)

  /** What a read callback got: an error, or a datagram with the flags of its transport. */
  datatype Delivery = Failed(id: nat) | Datagram(id: nat, transport: Transport, flags: nat, data: seq<char>)

  /** A UART write whose callback has run. */
  datatype Finished = Finished(id: nat, ok: bool)

  /** A write handed to a transport. */
  datatype Sent = Sent(id: nat, transport: Transport, flags: nat, prefix: nat)

  /** What a transport completes a read with; an error or an empty datagram is passed through. */
  datatype Completion = Completion(error: bool, flags: nat, data: seq<char>)

  /** What the client asks for, on its own or from within a callback. */
  datatype Request = Ask(read: Read) | Reply(id: nat, flags: nat)

  /** A transport's own pending operations. */
  datatype Link = Link(reading: bool, writing: bool, prefix: nat)

  const NEW := Link(false, false, 0)

  /** The asserts of the transports: starting what is still pending. */
  datatype Stop = CanReads | UartReads | UartWrites

  datatype State = State(
    can: Link,
    uart: Option<Link>,
    prefix: nat,
    waiting: Option<Read>,
    canFlight: bool,
    uartFlight: bool,
    writing: Option<nat>,
    deliveries: seq<Delivery>,    // read callbacks run, in order
    finished: seq<Finished>,      // UART write callbacks run, in order
    sent: seq<Sent>,
    stopped: Option<Stop>)

  const START := State(NEW, None, 0, None, false, false, None, [], [], [], None)

  function StartCan(m: State): State {
    if m.can.reading then m.(canFlight := true, stopped := Some(CanReads))
    else m.(canFlight := true, can := m.can.(reading := true))
  }

  function StartUart(m: State): State
    requires m.uart.Some?
  {
    if m.uart.value.reading then m.(uartFlight := true, stopped := Some(UartReads))
    else m.(uartFlight := true, uart := Some(m.uart.value.(reading := true)))
  }

  function AskStep(m: State, read: Read): State {
    var w := m.(waiting := Some(read));
    var c := if w.canFlight then w else StartCan(w);
    if c.stopped.Some? || c.uart.None? || c.uartFlight then c else StartUart(c)
  }

  /** Routes a reply; a UART reply without a server fails at once. */
  function ReplyStep(m: State, id: nat, flags: nat): State {
    if RouteOf(flags) == Can then m.(sent := m.sent + [Sent(id, Can, Clean(flags), m.can.prefix)])
    else if m.uart.None? then m.(finished := m.finished + [Finished(id, false)])
    else if m.uart.value.writing then m.(writing := Some(id), stopped := Some(UartWrites))
    else m.(writing := Some(id), uart := Some(m.uart.value.(writing := true)),
            sent := m.sent + [Sent(id, Uart, Clean(flags), m.uart.value.prefix)])
  }

  function RequestStep(m: State, r: Request): State {
    if m.stopped.Some? then m
    else match r
      case Ask(read) => AskStep(m, read)
      case Reply(id, flags) => ReplyStep(m, id, flags)
  }

  /** A callback that makes these requests, one after the other. */
  function Requests(m: State, rs: seq<Request>): State
    decreases |rs|
  {
    if rs == [] then m else Requests(RequestStep(m, rs[0]), rs[1..])
  }

  /** What the client has to observe: one read at a time, one UART write at a time. */
  predicate LegalRequest(m: State, r: Request) {
    match r
    case Ask(_) => m.waiting.None?
    case Reply(_, flags) => RouteOf(flags) == Uart ==> m.writing.None?
  }

  predicate LegalRequests(m: State, rs: seq<Request>)
    decreases |rs|
  {
    rs != [] && m.stopped.None? ==> LegalRequest(m, rs[0]) && LegalRequests(RequestStep(m, rs[0]), rs[1..])
  }

  /** What a read gets from a completed transport read: at most its capacity, tagged with the
      transport. */
  function Delivered(read: Read, transport: Transport, completion: Completion): Delivery {
    if completion.error || |completion.data| == 0 then Failed(read.id)
    else
      var size := if |completion.data| < read.capacity then |completion.data| else read.capacity;
      Datagram(read.id, transport, Encode(completion.flags, transport), completion.data[..size])
  }

  /** The waiting read is answered; its callback comes next. */
  function Answer(m: State, transport: Transport, completion: Completion): State
    requires m.waiting.Some?
  {
    m.(waiting := None, deliveries := m.deliveries + [Delivered(m.waiting.value, transport, completion)])
  }

  /** The pending UART write is over; its callback comes next. */
  function Finish(m: State, ok: bool): State
    requires m.writing.Some?
  {
    m.(writing := None, finished := m.finished + [Finished(m.writing.value, ok)])
  }

  function CanIdle(m: State): State { m.(can := m.can.(reading := false), canFlight := false) }

  function UartIdle(m: State): State
    requires m.uart.Some?
  {
    m.(uart := Some(m.uart.value.(reading := false)), uartFlight := false)
  }

  function UartQuiet(m: State): State
    requires m.uart.Some?
  {
    m.(uart := Some(m.uart.value.(writing := false)))
  }

  /** A datagram goes to the read that waits, if any. */
  function DeliverStep(m: State, transport: Transport, completion: Completion, next: seq<Request>): State {
    if m.waiting.None? then m else Requests(Answer(m, transport, completion), next)
  }

  function CanReadStep(m: State, completion: Completion, next: seq<Request>): State {
    DeliverStep(CanIdle(m), Can, completion, next)
  }

  function UartReadStep(m: State, completion: Completion, next: seq<Request>): State
    requires m.uart.Some?
  {
    DeliverStep(UartIdle(m), Uart, completion, next)
  }

  function UartWrittenStep(m: State, ok: bool, next: seq<Request>): State
    requires m.uart.Some?
  {
    if m.writing.None? then UartQuiet(m) else Requests(Finish(UartQuiet(m), ok), next)
  }

  function PrefixStep(m: State, p: nat): State {
    m.(prefix := p, can := m.can.(prefix := p),
       uart := if m.uart.Some? then Some(m.uart.value.(prefix := p)) else None)
  }

  function Turned(m: State, server: Option<Link>): State { m.(uart := server, uartFlight := false) }

  /** The new server gets its prefix, and is listened to if a read waits. */
  function Settle(m: State): State {
    if m.stopped.Some? || m.uart.None? then m
    else
      var p := m.(uart := Some(m.uart.value.(prefix := m.prefix)));
      if p.waiting.Some? && !p.uartFlight then StartUart(p) else p
  }

  /** Another server takes over. A write pending on the old one fails, and its callback runs
      before the new server is set up. */
  function SwitchStep(m: State, server: Option<Link>, next: seq<Request>): State {
    var t := Turned(m, server);
    Settle(if t.writing.None? then t else Requests(Finish(t, false), next))
  }

  // ---------------------------------------------------------------------
  // The two ports
  // ---------------------------------------------------------------------

  datatype Port = Aux1 | Aux2

  /** The multiplexer and the servers that exist: aux1's is the active one whenever there is
      one, and aux2's is parked meanwhile. */
  datatype Board = Board(mux: State, first: bool, parked: Option<Link>)

  const POWER_ON := Board(START, false, None)

  /** Only the active server is polled, so only it completes anything. */
  datatype Event =
    | Makes(request: Request)
    | CanRead(completion: Completion, next: seq<Request>)
    | UartRead(completion: Completion, next: seq<Request>)
    | UartWritten(ok: bool, next: seq<Request>)
    | Prefix(prefix: nat)
    | Came(port: Port, next: seq<Request>)
    | Gone(port: Port, next: seq<Request>)

  /** The server that takes over, if the active one changes. */
  function Successor(b: Board, e: Event): Option<Option<Link>> {
    match e
    case Came(port, _) => if port == Aux2 && b.first then None else Some(Some(NEW))
    case Gone(port, _) =>
      if port == Aux1 then (if b.first then Some(b.parked) else None)
      else if b.first || b.mux.uart.None? then None else Some(None)
    case _ => None
  }

  /** The state of the multiplexer in which a callback of the client runs, if one runs. */
  function Callback(b: Board, e: Event): Option<State>
    requires Possible(b, e)
  {
    var m := b.mux;
    match e
    case CanRead(c, _) => if m.waiting.None? then None else Some(Answer(CanIdle(m), Can, c))
    case UartRead(c, _) => if m.waiting.None? then None else Some(Answer(UartIdle(m), Uart, c))
    case UartWritten(ok, _) => if m.writing.None? then None else Some(Finish(UartQuiet(m), ok))
    case Came(_, _) => Failing(b, e)
    case Gone(_, _) => Failing(b, e)
    case _ => None
  }

  function Failing(b: Board, e: Event): Option<State> {
    if Successor(b, e).None? || b.mux.writing.None? then None
    else Some(Finish(Turned(b.mux, Successor(b, e).value), false))
  }

  /** A transport completes what it was asked for, and a server comes where there is none. */
  predicate Possible(b: Board, e: Event) {
    var m := b.mux;
    match e
    case CanRead(_, _) => m.can.reading
    case UartRead(_, _) => m.uart.Some? && m.uart.value.reading
    case UartWritten(_, _) => m.uart.Some? && m.uart.value.writing
    case Came(port, _) =>
      if port == Aux1 then !b.first else if b.first then b.parked.None? else m.uart.None?
    case _ => true
  }

  predicate Legal(b: Board, e: Event) {
    b.mux.stopped.None? ==>
      && Possible(b, e)
      && (e.Makes? ==> LegalRequest(b.mux, e.request))
      && (Callback(b, e).Some? ==> LegalRequests(Callback(b, e).value, e.next))
  }

  function Step(b: Board, e: Event): Board
    requires Legal(b, e)
  {
    if b.mux.stopped.Some? then b
    else match e
      case Makes(r) => b.(mux := RequestStep(b.mux, r))
      case CanRead(c, next) => b.(mux := CanReadStep(b.mux, c, next))
      case UartRead(c, next) => b.(mux := UartReadStep(b.mux, c, next))
      case UartWritten(ok, next) => b.(mux := UartWrittenStep(b.mux, ok, next))
      case Prefix(p) => b.(mux := PrefixStep(b.mux, p))
      case Came(port, next) => CameStep(b, port, next)
      case Gone(port, next) => GoneStep(b, port, next)
  }

  function CameStep(b: Board, port: Port, next: seq<Request>): Board {
    if port == Aux1 then Board(SwitchStep(b.mux, Some(NEW), next), true, b.mux.uart)
    else if b.first then b.(parked := Some(NEW))
    else b.(mux := SwitchStep(b.mux, Some(NEW), next))
  }

  function GoneStep(b: Board, port: Port, next: seq<Request>): Board {
    if port == Aux1 then
      if b.first then Board(SwitchStep(b.mux, b.parked, next), false, None) else b
    else if b.first then b.(parked := None)
    else if b.mux.uart.Some? then b.(mux := SwitchStep(b.mux, None, next))
    else b
  }

  predicate LegalRun(es: seq<Event>)
    decreases |es|, 0
  {
    es == [] || (LegalRun(es[..|es| - 1]) && Legal(Run(es[..|es| - 1]), es[|es| - 1]))
  }

  /** From construction, before any port is configured. */
  function Run(es: seq<Event>): Board
    requires LegalRun(es)
    decreases |es|, 1
  {
    if es == [] then POWER_ON else Step(Run(es[..|es| - 1]), es[|es| - 1])
  }

  // ---------------------------------------------------------------------
  // What an observer hears and what a returning server owes
  // ---------------------------------------------------------------------

  /** Reads asked for and writes routed to UART, in order. */
  datatype Log = Log(asked: seq<nat>, routed: seq<nat>)

  function HearOne(log: Log, r: Request): Log {
    match r
    case Ask(read) => log.(asked := log.asked + [read.id])
    case Reply(id, flags) => if RouteOf(flags) == Uart then log.(routed := log.routed + [id]) else log
  }

  /** The requests that are made before the firmware stops, if it does. */
  function Hear(m: State, log: Log, rs: seq<Request>): Log
    decreases |rs|
  {
    if rs == [] || m.stopped.Some? then log else Hear(RequestStep(m, rs[0]), HearOne(log, rs[0]), rs[1..])
  }

  function Heard(b: Board, e: Event, log: Log): Log
    requires Legal(b, e)
  {
    if b.mux.stopped.Some? then log
    else if e.Makes? then HearOne(log, e.request)
    else if Callback(b, e).Some? then Hear(Callback(b, e).value, log, e.next)
    else log
  }

  function HeardIn(es: seq<Event>): Log
    requires LegalRun(es)
  {
    if es == [] then Log([], [])
    else Heard(Run(es[..|es| - 1]), es[|es| - 1], HeardIn(es[..|es| - 1]))
  }

  /** What the active server still has to answer from before it was displaced. */
  datatype Debt = Debt(read: bool, write: bool)

  const NO_DEBT := Debt(false, false)

  /** Only aux2's server ever comes back: when aux1's goes away. */
  function Owed(b: Board, d: Debt, e: Event): Debt {
    match e
    case UartRead(_, _) => d.(read := false)
    case UartWritten(_, _) => d.(write := false)
    case Came(_, _) => if Successor(b, e).Some? then NO_DEBT else d
    case Gone(port, _) =>
      if Returns(b, e) then Debt(b.parked.value.reading, b.parked.value.writing)
      else if Successor(b, e).Some? then NO_DEBT else d
    case _ => d
  }

  /** A displaced server that still exists is handed back. */
  predicate Returns(b: Board, e: Event) { e.Gone? && e.port == Aux1 && b.first && b.parked.Some? }

  function OwedIn(es: seq<Event>): Debt
    requires LegalRun(es)
  {
    if es == [] then NO_DEBT
    else
      var before := es[..|es| - 1];
      if Run(before).mux.stopped.Some? then OwedIn(before)
      else Owed(Run(before), OwedIn(before), es[|es| - 1])
  }

  /** A request for what the active server still owes. */
  predicate Bumps(d: Debt, r: Request) {
    match r
    case Ask(_) => d.read
    case Reply(_, flags) => d.write && RouteOf(flags) == Uart
  }

  predicate BumpsAny(d: Debt, rs: seq<Request>) { exists i | 0 <= i < |rs| :: Bumps(d, rs[i]) }

  /** The event, or the callback that it runs, asks the active server for what it still owes; or
      the server comes back with its read unanswered while a read waits. */
  predicate Collides(b: Board, d: Debt, e: Event)
    requires Possible(b, e)
  {
    || (e.Makes? && Bumps(d, e.request))
    || (Callback(b, e).Some? && BumpsAny(Owed(b, d, e), e.next))
    || (Returns(b, e) && b.parked.value.reading && b.mux.waiting.Some?)
  }

  // ---------------------------------------------------------------------
  // What every request keeps
  // ---------------------------------------------------------------------

  /** The flags mirror the transports, up to what the active server owes. */
  predicate Sound(m: State, d: Debt) {
    && m.stopped.None? && m.canFlight == m.can.reading
    && (m.uart.None? ==> !m.uartFlight && m.writing.None? && d == NO_DEBT)
    && (m.uart.Some? ==>
      && m.uart.value.reading == (m.uartFlight || d.read) && !(m.uartFlight && d.read)
      && m.uart.value.writing == (m.writing.Some? || d.write) && !(m.writing.Some? && d.write))
  }

  /** While a read waits every transport is listened to. */
  predicate Listening(m: State) { m.waiting.Some? ==> m.canFlight && (m.uart.Some? ==> m.uartFlight) }

  /** One request stops the firmware exactly when it is for what the server owes. */
  lemma RequestStopsIff(m: State, d: Debt, r: Request)
    requires Sound(m, d) && LegalRequest(m, r)
    ensures RequestStep(m, r).stopped.Some? <==> Bumps(d, r)
    ensures !Bumps(d, r) ==> Sound(RequestStep(m, r), d)
    ensures Bumps(d, r) ==> RequestStep(m, r).stopped == Some(if r.Ask? then UartReads else UartWrites)
  {
  }

  /** What a request leaves alone. */
  lemma RequestFrame(m: State, r: Request)
    ensures var n := RequestStep(m, r);
      && n.uart.Some? == m.uart.Some? && n.prefix == m.prefix && n.can.prefix == m.can.prefix
      && (m.uart.Some? ==> n.uart.value.prefix == m.uart.value.prefix)
  {
  }

  lemma {:induction false} RequestsFrame(m: State, rs: seq<Request>)
    ensures var n := Requests(m, rs);
      && n.uart.Some? == m.uart.Some? && n.prefix == m.prefix && n.can.prefix == m.can.prefix
      && (m.uart.Some? ==> n.uart.value.prefix == m.uart.value.prefix)
    decreases |rs|
  {
    if rs != [] {
      RequestFrame(m, rs[0]);
      RequestsFrame(RequestStep(m, rs[0]), rs[1..]);
    }
  }

  lemma {:induction false} StoppedStays(m: State, rs: seq<Request>)
    requires m.stopped.Some?
    ensures Requests(m, rs) == m
    decreases |rs|
  {
    if rs != [] {
      StoppedStays(m, rs[1..]);
    }
  }

  lemma BumpsFirst(d: Debt, rs: seq<Request>)
    requires rs != []
    ensures BumpsAny(d, rs) <==> Bumps(d, rs[0]) || BumpsAny(d, rs[1..])
  {
    if BumpsAny(d, rs) {
      var i :| 0 <= i < |rs| && Bumps(d, rs[i]);
      assert i > 0 ==> rs[1..][i - 1] == rs[i];
    }
    if BumpsAny(d, rs[1..]) {
      var i :| 0 <= i < |rs[1..]| && Bumps(d, rs[1..][i]);
      assert rs[i + 1] == rs[1..][i];
    }
  }

  /** So does a callback. */
  lemma {:induction false} RequestsStopIff(m: State, d: Debt, rs: seq<Request>)
    requires Sound(m, d) && LegalRequests(m, rs)
    ensures Requests(m, rs).stopped.Some? <==> BumpsAny(d, rs)
    ensures !BumpsAny(d, rs) ==> Sound(Requests(m, rs), d)
    ensures Requests(m, rs).stopped != Some(CanReads)
    decreases |rs|
  {
    if rs != [] {
      RequestStopsIff(m, d, rs[0]);
      BumpsFirst(d, rs);
      if Bumps(d, rs[0]) {
        StoppedStays(RequestStep(m, rs[0]), rs[1..]);
      } else {
        RequestsStopIff(RequestStep(m, rs[0]), d, rs[1..]);
      }
    }
  }

  /** A read that a callback asks for is listened to; one that waits already is left alone. */
  lemma {:induction false} RequestsListen(m: State, rs: seq<Request>)
    requires m.stopped.None? && LegalRequests(m, rs) && (m.waiting.Some? ==> m.canFlight)
    requires Requests(m, rs).stopped.None?
    ensures var n := Requests(m, rs);
      && (n.waiting.Some? ==> n.canFlight) && (Listening(m) ==> Listening(n))
      && (m.waiting.Some? && !m.uartFlight ==> n.waiting.Some? && !n.uartFlight)
    decreases |rs|
  {
    if rs != [] {
      var n := RequestStep(m, rs[0]);
      if n.stopped.Some? {
        StoppedStays(n, rs[1..]);
      } else {
        RequestsListen(n, rs[1..]);
      }
    }
  }

  // ---------------------------------------------------------------------
  // What every event keeps
  // ---------------------------------------------------------------------

  function WaitingId(m: State): seq<nat> { if m.waiting.Some? then [m.waiting.value.id] else [] }

  function WritingId(m: State): seq<nat> { if m.writing.Some? then [m.writing.value] else [] }

  function Ids(deliveries: seq<Delivery>): seq<nat> {
    seq(|deliveries|, i requires 0 <= i < |deliveries| => deliveries[i].id)
  }

  function WriteIds(finished: seq<Finished>): seq<nat> {
    seq(|finished|, i requires 0 <= i < |finished| => finished[i].id)
  }

  lemma IdsAppend(deliveries: seq<Delivery>, d: Delivery)
    ensures Ids(deliveries + [d]) == Ids(deliveries) + [d.id]
  {
  }

  lemma WriteIdsAppend(finished: seq<Finished>, f: Finished)
    ensures WriteIds(finished + [f]) == WriteIds(finished) + [f.id]
  {
  }

  /** Every read and every UART write asked for has run its callback once, in order, or is the
      one pending. */
  predicate Conserved(m: State, log: Log) {
    log.asked == Ids(m.deliveries) + WaitingId(m) && log.routed == WriteIds(m.finished) + WritingId(m)
  }

  lemma AskConserves(m: State, log: Log, read: Read)
    requires Conserved(m, log) && m.waiting.None?
    ensures Conserved(AskStep(m, read), log.(asked := log.asked + [read.id]))
  {
    assert log.asked + [read.id] == Ids(m.deliveries) + [read.id];
  }

  lemma ReplyConserves(m: State, log: Log, id: nat, flags: nat)
    requires Conserved(m, log) && LegalRequest(m, Reply(id, flags))
    ensures Conserved(ReplyStep(m, id, flags), HearOne(log, Reply(id, flags)))
  {
    if RouteOf(flags) == Uart {
      WriteIdsAppend(m.finished, Finished(id, false));
      assert log.routed + [id] == WriteIds(m.finished) + [id];
      assert WriteIds(m.finished) + [id] == WriteIds(m.finished) + [id] + [];
    }
  }

  lemma RequestConserves(m: State, log: Log, r: Request)
    requires Conserved(m, log) && LegalRequest(m, r) && m.stopped.None?
    ensures Conserved(RequestStep(m, r), HearOne(log, r))
  {
    match r
    case Ask(read) => AskConserves(m, log, read);
    case Reply(id, flags) => ReplyConserves(m, log, id, flags);
  }

  lemma {:induction false} RequestsConserve(m: State, log: Log, rs: seq<Request>)
    requires Conserved(m, log) && LegalRequests(m, rs)
    ensures Conserved(Requests(m, rs), Hear(m, log, rs))
    decreases |rs|
  {
    if m.stopped.Some? {
      StoppedStays(m, rs);
    } else if rs != [] {
      RequestConserves(m, log, rs[0]);
      RequestsConserve(RequestStep(m, rs[0]), HearOne(log, rs[0]), rs[1..]);
    }
  }

  lemma AnswerConserves(m: State, log: Log, transport: Transport, completion: Completion)
    requires Conserved(m, log) && m.waiting.Some?
    ensures Conserved(Answer(m, transport, completion), log)
  {
    IdsAppend(m.deliveries, Delivered(m.waiting.value, transport, completion));
  }

  lemma FinishConserves(m: State, log: Log, ok: bool)
    requires Conserved(m, log) && m.writing.Some?
    ensures Conserved(Finish(m, ok), log)
  {
    WriteIdsAppend(m.finished, Finished(m.writing.value, ok));
  }

  lemma SettleConserves(m: State, log: Log)
    requires Conserved(m, log)
    ensures Conserved(Settle(m), log)
  {
  }

  lemma SwitchConserves(m: State, log: Log, server: Option<Link>, next: seq<Request>)
    requires Conserved(m, log) && m.stopped.None?
    requires m.writing.Some? ==> LegalRequests(Finish(Turned(m, server), false), next)
    ensures Conserved(SwitchStep(m, server, next),
              if m.writing.Some? then Hear(Finish(Turned(m, server), false), log, next) else log)
  {
    var t := Turned(m, server);
    if t.writing.Some? {
      FinishConserves(t, log, false);
      RequestsConserve(Finish(t, false), log, next);
      SettleConserves(Requests(Finish(t, false), next), Hear(Finish(t, false), log, next));
    } else {
      SettleConserves(t, log);
    }
  }

  lemma DeliverConserves(m: State, log: Log, transport: Transport, completion: Completion, next: seq<Request>)
    requires Conserved(m, log) && (m.waiting.Some? ==> LegalRequests(Answer(m, transport, completion), next))
    ensures Conserved(DeliverStep(m, transport, completion, next),
              if m.waiting.Some? then Hear(Answer(m, transport, completion), log, next) else log)
  {
    if m.waiting.Some? {
      AnswerConserves(m, log, transport, completion);
      RequestsConserve(Answer(m, transport, completion), log, next);
    }
  }

  lemma WrittenConserves(m: State, log: Log, ok: bool, next: seq<Request>)
    requires m.uart.Some? && Conserved(m, log)
    requires m.writing.Some? ==> LegalRequests(Finish(UartQuiet(m), ok), next)
    ensures Conserved(UartWrittenStep(m, ok, next),
              if m.writing.Some? then Hear(Finish(UartQuiet(m), ok), log, next) else log)
  {
    if m.writing.Some? {
      FinishConserves(UartQuiet(m), log, ok);
      RequestsConserve(Finish(UartQuiet(m), ok), log, next);
    }
  }

  lemma PortConserves(b: Board, log: Log, e: Event)
    requires (e.Came? || e.Gone?) && Conserved(b.mux, log) && Legal(b, e)
    ensures Conserved(Step(b, e).mux, Heard(b, e, log))
  {
    if b.mux.stopped.None? && Successor(b, e).Some? {
      SwitchConserves(b.mux, log, Successor(b, e).value, e.next);
    }
  }

  /** Every event keeps the reads and the UART writes, whether it stops the firmware or not. */
  lemma StepConserves(b: Board, log: Log, e: Event)
    requires Conserved(b.mux, log) && Legal(b, e)
    ensures Conserved(Step(b, e).mux, Heard(b, e, log))
  {
    var m := b.mux;
    if m.stopped.None? {
      match e
      case Makes(r) => RequestConserves(m, log, r);
      case CanRead(c, next) => DeliverConserves(CanIdle(m), log, Can, c, next);
      case UartRead(c, next) => DeliverConserves(UartIdle(m), log, Uart, c, next);
      case UartWritten(ok, next) => WrittenConserves(m, log, ok, next);
      case Prefix(_) =>
      case Came(_, _) => PortConserves(b, log, e);
      case Gone(_, _) => PortConserves(b, log, e);
    }
  }

  /** The transports that are reachable carry the multiplexer's prefix. */
  predicate Addressed(m: State) {
    m.can.prefix == m.prefix && (m.uart.Some? ==> m.uart.value.prefix == m.prefix)
  }

  predicate Steady(m: State, d: Debt) { Sound(m, d) && Listening(m) && Addressed(m) }

  /** Unless the firmware has stopped: aux2's server is parked only behind aux1's, and aux1's
      owes nothing. */
  predicate Kept(b: Board, d: Debt) {
    && b.mux.stopped != Some(CanReads)
    && (b.mux.stopped.None? ==>
      Steady(b.mux, d) && (b.parked.Some? ==> b.first) && (b.first ==> b.mux.uart.Some? && d == NO_DEBT))
  }

  /** What holds after a callback, and when it stops the firmware. */
  lemma CallbackKeeps(m: State, d: Debt, rs: seq<Request>)
    requires Steady(m, d) && LegalRequests(m, rs)
    ensures Requests(m, rs).stopped.Some? <==> BumpsAny(d, rs)
    ensures Requests(m, rs).stopped.None? ==> Steady(Requests(m, rs), d)
    ensures Requests(m, rs).stopped != Some(CanReads) && Requests(m, rs).uart.Some? == m.uart.Some?
  {
    RequestsStopIff(m, d, rs);
    RequestsFrame(m, rs);
    if !BumpsAny(d, rs) {
      RequestsListen(m, rs);
    }
  }

  /** A server that owes `d` takes over. */
  predicate Owes(server: Option<Link>, d: Debt) {
    if server.Some? then server.value.reading == d.read && server.value.writing == d.write else d == NO_DEBT
  }

  /** The new server is set up and stops the firmware exactly when it owes the read that waits. */
  lemma SettleStopsIff(n: State, d: Debt)
    requires Sound(n, d) && (n.waiting.Some? ==> n.canFlight) && n.can.prefix == n.prefix
    ensures Settle(n).uart.Some? == n.uart.Some?
    ensures Settle(n).stopped == if d.read && n.waiting.Some? then Some(UartReads) else None
    ensures !(d.read && n.waiting.Some?) ==> Steady(Settle(n), d)
  {
  }

  lemma SwitchStopsIff(m: State, d: Debt, server: Option<Link>, next: seq<Request>)
    requires m.stopped.None? && m.canFlight == m.can.reading && m.can.prefix == m.prefix
    requires m.waiting.Some? ==> m.canFlight
    requires Owes(server, d) && (m.writing.Some? ==> LegalRequests(Finish(Turned(m, server), false), next))
    ensures var n := SwitchStep(m, server, next);
      && (n.stopped.Some? <==> (m.writing.Some? && BumpsAny(d, next)) || (d.read && m.waiting.Some?))
      && (n.stopped.None? ==> Steady(n, d)) && n.stopped != Some(CanReads)
      && n.uart.Some? == server.Some?
  {
    var t := Turned(m, server);
    if t.writing.None? {
      SettleStopsIff(t, d);
    } else {
      var f := Finish(t, false);
      RequestsStopIff(f, d, next);
      RequestsFrame(f, next);
      if !BumpsAny(d, next) {
        RequestsListen(f, next);
        SettleStopsIff(Requests(f, next), d);
      }
    }
  }

  lemma SuccessorOwes(b: Board, d: Debt, e: Event)
    requires Possible(b, e) && Successor(b, e).Some?
    ensures Owes(Successor(b, e).value, Owed(b, d, e))
  {
  }

  lemma DirectKeeps(m: State, d: Debt, r: Request)
    requires Steady(m, d) && LegalRequest(m, r)
    ensures RequestStep(m, r).stopped.Some? <==> Bumps(d, r)
    ensures !Bumps(d, r) ==> Steady(RequestStep(m, r), d)
    ensures RequestStep(m, r).stopped != Some(CanReads)
  {
    RequestStopsIff(m, d, r);
    RequestFrame(m, r);
  }

  lemma DeliverKeeps(m: State, d: Debt, transport: Transport, completion: Completion, next: seq<Request>)
    requires Sound(m, d) && Addressed(m)
    requires m.waiting.Some? ==> LegalRequests(Answer(m, transport, completion), next)
    ensures var n := DeliverStep(m, transport, completion, next);
      && (n.stopped.Some? <==> m.waiting.Some? && BumpsAny(d, next))
      && (n.stopped.None? ==> Steady(n, d)) && n.stopped != Some(CanReads) && n.uart.Some? == m.uart.Some?
  {
    if m.waiting.Some? {
      CallbackKeeps(Answer(m, transport, completion), d, next);
    }
  }

  lemma WrittenKeeps(m: State, d: Debt, ok: bool, next: seq<Request>)
    requires m.uart.Some? && m.uart.value.writing && Steady(m, d)
    requires m.writing.Some? ==> LegalRequests(Finish(UartQuiet(m), ok), next)
    ensures var n := UartWrittenStep(m, ok, next);
      && (n.stopped.Some? <==> m.writing.Some? && BumpsAny(d.(write := false), next))
      && (n.stopped.None? ==> Steady(n, d.(write := false))) && n.stopped != Some(CanReads) && n.uart.Some?
  {
    if m.writing.Some? {
      CallbackKeeps(Finish(UartQuiet(m), ok), d.(write := false), next);
    }
  }

  lemma PortKeeps(b: Board, d: Debt, e: Event)
    requires (e.Came? || e.Gone?) && Kept(b, d) && Legal(b, e) && b.mux.stopped.None?
    ensures Step(b, e).mux.stopped.Some? <==> Collides(b, d, e)
    ensures Kept(Step(b, e), Owed(b, d, e))
  {
    if Successor(b, e).Some? {
      SuccessorOwes(b, d, e);
      SwitchStopsIff(b.mux, Owed(b, d, e), Successor(b, e).value, e.next);
    }
  }

  /** One event stops the firmware exactly when it collides with what the active server owes. */
  lemma StepStopsIff(b: Board, d: Debt, e: Event)
    requires Kept(b, d) && Legal(b, e) && b.mux.stopped.None?
    ensures Step(b, e).mux.stopped.Some? <==> Collides(b, d, e)
    ensures Kept(Step(b, e), Owed(b, d, e))
  {
    match e
    case Makes(r) => DirectKeeps(b.mux, d, r);
    case CanRead(c, next) => DeliverKeeps(CanIdle(b.mux), d, Can, c, next);
    case UartRead(c, next) => DeliverKeeps(UartIdle(b.mux), d.(read := false), Uart, c, next);
    case UartWritten(ok, next) => WrittenKeeps(b.mux, d, ok, next);
    case Prefix(_) =>
    case Came(_, _) => PortKeeps(b, d, e);
    case Gone(_, _) => PortKeeps(b, d, e);
  }

  // ---------------------------------------------------------------------
  // Every run
  // ---------------------------------------------------------------------

  /** Every run from construction, whatever comes and goes and whatever the callbacks ask for:
      all reads and UART writes are accounted for, and while the firmware runs the flags mirror
      the transports and a read that waits is listened to everywhere. */
  lemma {:induction false} RunKeeps(es: seq<Event>)
    requires LegalRun(es)
    ensures Kept(Run(es), OwedIn(es)) && Conserved(Run(es).mux, HeardIn(es))
    decreases |es|
  {
    if es != [] {
      var before, e := es[..|es| - 1], es[|es| - 1];
      RunKeeps(before);
      StepConserves(Run(before), HeardIn(before), e);
      if Run(before).mux.stopped.None? {
        StepStopsIff(Run(before), OwedIn(before), e);
      }
    }
  }

  /** What that says of any two entries: nothing is answered twice, out of order or not at all. */
  lemma ReadsConserved(es: seq<Event>)
    requires LegalRun(es)
    ensures var m, asked := Run(es).mux, HeardIn(es).asked;
      && |asked| == |m.deliveries| + (if m.waiting.Some? then 1 else 0)
      && (forall i :: 0 <= i < |m.deliveries| ==> m.deliveries[i].id == asked[i])
      && (m.waiting.Some? ==> m.waiting.value.id == asked[|asked| - 1])
  {
    RunKeeps(es);
    var m, asked := Run(es).mux, HeardIn(es).asked;
    forall i | 0 <= i < |m.deliveries| ensures m.deliveries[i].id == asked[i] {
      assert asked[i] == Ids(m.deliveries)[i];
    }
  }

  lemma WritesConserved(es: seq<Event>)
    requires LegalRun(es)
    ensures var m, routed := Run(es).mux, HeardIn(es).routed;
      && |routed| == |m.finished| + (if m.writing.Some? then 1 else 0)
      && (forall i :: 0 <= i < |m.finished| ==> m.finished[i].id == routed[i])
      && (m.writing.Some? ==> m.writing.value == routed[|routed| - 1])
  {
    RunKeeps(es);
    var m, routed := Run(es).mux, HeardIn(es).routed;
    forall i | 0 <= i < |m.finished| ensures m.finished[i].id == routed[i] {
      assert routed[i] == WriteIds(m.finished)[i];
    }
  }

  /** The event at `k` collides with what the active server owes at that moment. */
  ghost predicate CollidesAt(es: seq<Event>, k: nat) {
    k < |es| && LegalRun(es[..k]) && Run(es[..k]).mux.stopped.None? && Legal(Run(es[..k]), es[k])
    && Collides(Run(es[..k]), OwedIn(es[..k]), es[k])
  }

  /** An assert of a transport fires in a run if and only if somewhere in it a request meets a
      server that came back owing it, or a server comes back owing the read that waits. */
  lemma {:induction false} RunStopsIff(es: seq<Event>)
    requires LegalRun(es)
    ensures Run(es).mux.stopped.Some? <==> exists k :: CollidesAt(es, k)
    decreases |es|
  {
    if es != [] {
      var last := |es| - 1;
      var before := es[..last];
      RunStopsIff(before);
      RunKeeps(before);
      forall k | 0 <= k < last ensures CollidesAt(es, k) <==> CollidesAt(before, k) {
        assert es[..k] == before[..k];
      }
      if Run(before).mux.stopped.None? {
        StepStopsIff(Run(before), OwedIn(before), es[last]);
        assert Collides(Run(before), OwedIn(before), es[last]) ==> CollidesAt(es, last);
      }
    }
  }

  /** A server comes back that has not answered everything it was asked. */
  predicate ReturnsOwing(b: Board, e: Event) {
    Returns(b, e) && (b.parked.value.reading || b.parked.value.writing)
  }

  ghost predicate NeverOwes(es: seq<Event>) {
    forall k :: 0 <= k < |es| && LegalRun(es[..k]) ==> !ReturnsOwing(Run(es[..k]), es[k])
  }

  lemma NeverOwesBefore(es: seq<Event>)
    requires es != [] && NeverOwes(es)
    ensures NeverOwes(es[..|es| - 1])
  {
    var before := es[..|es| - 1];
    forall k | 0 <= k < |before| && LegalRun(before[..k]) ensures !ReturnsOwing(Run(before[..k]), before[k]) {
      assert before[..k] == es[..k];
    }
  }

  /** In a run without such a return no assert ever fires, and the flags mirror the transports
      exactly. */
  lemma {:induction false} WithoutReturnNeverStops(es: seq<Event>)
    requires LegalRun(es) && NeverOwes(es)
    ensures var m := Run(es).mux;
      && m.stopped.None? && OwedIn(es) == NO_DEBT && m.canFlight == m.can.reading
      && (m.uart.Some? ==> m.uartFlight == m.uart.value.reading && m.writing.Some? == m.uart.value.writing)
    decreases |es|
  {
    RunKeeps(es);
    if es != [] {
      var last := |es| - 1;
      NeverOwesBefore(es);
      WithoutReturnNeverStops(es[..last]);
      RunKeeps(es[..last]);
      StepStopsIff(Run(es[..last]), NO_DEBT, es[last]);
      assert !ReturnsOwing(Run(es[..last]), es[last]);
    }
  }

  /** Only with both ports serial is there ever a server to come back. */
  lemma {:induction false} OnePortParksNothing(es: seq<Event>, port: Port)
    requires LegalRun(es) && forall i :: 0 <= i < |es| ==> !(es[i].Came? && es[i].port == port)
    ensures Run(es).parked.None?
    ensures if port == Aux1 then !Run(es).first else !Run(es).first && Run(es).mux.stopped.None? ==> Run(es).mux.uart.None?
    decreases |es|
  {
    if es != [] {
      var before, e := es[..|es| - 1], es[|es| - 1];
      assert forall i :: 0 <= i < |before| ==> before[i] == es[i];
      OnePortParksNothing(before, port);
      RunKeeps(before);
      if Run(before).mux.stopped.None? {
        StepStopsIff(Run(before), OwedIn(before), e);
        PresenceStep(Run(before), e);
      }
    }
  }

  /** Only ports bring and take servers. */
  lemma PresenceStep(b: Board, e: Event)
    requires Legal(b, e) && b.mux.stopped.None?
    ensures Step(b, e).mux.uart.Some? ==
      if Successor(b, e).Some? then Successor(b, e).value.Some? else b.mux.uart.Some?
    ensures !e.Came? && !e.Gone? ==> Step(b, e).first == b.first && Step(b, e).parked == b.parked
  {
    if Callback(b, e).Some? {
      RequestsFrame(Callback(b, e).value, e.next);
    }
    if e.Makes? {
      RequestFrame(b.mux, e.request);
    }
  }

  /** With a serial port on one side only, whatever else happens, no assert ever fires. */
  lemma OnePortNeverStops(es: seq<Event>, port: Port)
    requires LegalRun(es) && forall i :: 0 <= i < |es| ==> !(es[i].Came? && es[i].port == port)
    ensures Run(es).mux.stopped.None?
  {
    forall k | 0 <= k < |es| && LegalRun(es[..k]) ensures !ReturnsOwing(Run(es[..k]), es[k]) {
      OnePortParksNothing(es[..k], port);
    }
    WithoutReturnNeverStops(es);
  }

  /** Nothing about the ports happens. */
  predicate Elsewhere(es: seq<Event>) { forall i :: 0 <= i < |es| ==> !es[i].Came? && !es[i].Gone? }

  /** Aux2's server is listened to when aux1's takes over: however long the interlude, and
      whatever is read and written in it, the firmware stops when aux1's goes away while a read
      waits. */
  lemma TakeoverAndReturnStops(before: seq<Event>, took: Event, between: seq<Event>, left: Event)
    requires took.Came? && took.port == Aux1 && left.Gone? && left.port == Aux1 && Elsewhere(between)
    requires LegalRun(before + [took] + between) && LegalRun(before + [took] + between + [left])
    requires Run(before + [took] + between).mux.stopped.None? && Run(before + [took] + between).mux.waiting.Some?
    requires LegalRun(before) && Run(before).mux.stopped.None?
    requires Run(before).mux.uart.Some? && Run(before).mux.uartFlight
    ensures Run(before + [took] + between + [left]).mux.stopped.Some?
  {
    var es := before + [took] + between;
    RunKeeps(before);
    StaysParked(before, took, between);
    RunKeeps(es);
    assert (es + [left])[..|es|] == es;
    StepStopsIff(Run(es), OwedIn(es), left);
  }

  lemma {:induction false} StaysParked(before: seq<Event>, took: Event, between: seq<Event>)
    requires took.Came? && took.port == Aux1 && Elsewhere(between)
    requires var es := before + [took] + between; LegalRun(es) && Run(es).mux.stopped.None?
    requires LegalRun(before) && Run(before).mux.stopped.None?
    ensures var b := Run(before + [took] + between);
      b.first && b.parked == Run(before).mux.uart
    decreases |between|
  {
    var es := before + [took] + between;
    if between == [] {
      assert es[..|es| - 1] == before && es[|es| - 1] == took;
    } else {
      var shorter := between[..|between| - 1];
      assert es[..|es| - 1] == before + [took] + shorter && es[|es| - 1] == between[|between| - 1];
      StaysParked(before, took, shorter);
      PresenceStep(Run(before + [took] + shorter), es[|es| - 1]);
    }
  }

  lemma RunExtends(es: seq<Event>, b: Board, e: Event)
    requires LegalRun(es) && Run(es) == b && Legal(b, e)
    ensures LegalRun(es + [e]) && Run(es + [e]) == Step(b, e)
  {
    assert (es + [e])[..|es + [e]| - 1] == es;
  }

  /** Aux2 becomes serial and a read is asked for. */
  function Heeding(read: Read): Board {
    Board(START.(can := Link(true, false, 0), uart := Some(Link(true, false, 0)), waiting := Some(read),
                 canFlight := true, uartFlight := true), false, None)
  }

  lemma BothListen(read: Read) returns (es: seq<Event>)
    ensures es == [Came(Aux2, []), Makes(Ask(read))] && LegalRun(es) && Run(es) == Heeding(read)
  {
    var serial := [] + [Came(Aux2, [])];
    RunExtends([], POWER_ON, Came(Aux2, []));
    var b := Board(START.(uart := Some(NEW)), false, None);
    assert Step(POWER_ON, Came(Aux2, [])) == b;
    RunExtends(serial, b, Makes(Ask(read)));
    assert Step(b, Makes(Ask(read))) == Heeding(read);
    es := serial + [Makes(Ask(read))];
  }

  /** Aux1 becomes serial and goes away again. */
  lemma TakeoverAndReturn(es: seq<Event>, b: Board)
    requires LegalRun(es) && Run(es) == b && b.mux.stopped.None? && !b.first && b.parked.None?
    ensures var back := es + [Came(Aux1, [])] + [Gone(Aux1, [])];
      && LegalRun(back) && Run(back) == Step(Step(b, Came(Aux1, [])), Gone(Aux1, []))
      && Run(back).mux == SwitchStep(SwitchStep(b.mux, Some(NEW), []), b.mux.uart, [])
  {
    TakeoverRuns(b.mux);
    RunExtends(es, b, Came(Aux1, []));
    RunExtends(es + [Came(Aux1, [])], Step(b, Came(Aux1, [])), Gone(Aux1, []));
  }

  /** Nothing stops a fresh server. */
  lemma TakeoverRuns(m: State)
    requires m.stopped.None?
    ensures SwitchStep(m, Some(NEW), []).stopped.None?
  {
  }

  /** The shortest such run: aux2 becomes serial, a read is asked for, aux1 becomes serial, and
      aux1 is configured again. */
  lemma ReadAssertFires(read: Read) returns (es: seq<Event>)
    ensures es == [Came(Aux2, []), Makes(Ask(read)), Came(Aux1, []), Gone(Aux1, [])]
    ensures LegalRun(es) && Run(es).mux.stopped == Some(UartReads)
  {
    var before := BothListen(read);
    TakeoverAndReturn(before, Heeding(read));
    ReadIsOwed(Heeding(read).mux);
    es := before + [Came(Aux1, [])] + [Gone(Aux1, [])];
  }

  lemma ReadIsOwed(m: State)
    requires m.stopped.None? && m.waiting.Some? && m.writing.None? && m.uart.Some? && m.uart.value.reading
    ensures SwitchStep(SwitchStep(m, Some(NEW), []), m.uart, []).stopped == Some(UartReads)
  {
  }

  /** The same for writes: a query is being answered over aux2 when aux1 becomes serial; the
      answer fails, and after aux1 is gone the next UART answer meets the first. */
  lemma WriteAssertFires(read: Read, query: Completion, first: nat, second: nat) returns (es: seq<Event>)
    requires !query.error && query.data != [] && IdOf(query.flags) == 0
    ensures var flags := Encode(query.flags, Uart);
      es == [Came(Aux2, []), Makes(Ask(read)), UartRead(query, [Reply(first, flags)]), Came(Aux1, []),
        Gone(Aux1, []), Makes(Reply(second, flags))]
    ensures LegalRun(es) && Run(es).mux.stopped == Some(UartWrites)
  {
    var flags := Encode(query.flags, Uart);
    FlagsRoundTripIff(query.flags, Uart);
    var before := BothListen(read);
    var b := Heeding(read);
    AnswerIsSent(b, query, first, flags);
    RunExtends(before, b, UartRead(query, [Reply(first, flags)]));
    var answering, a := before + [UartRead(query, [Reply(first, flags)])], Step(b, UartRead(query, [Reply(first, flags)]));
    TakeoverAndReturn(answering, a);
    WriteIsOwed(a.mux, second, flags);
    var back := answering + [Came(Aux1, [])] + [Gone(Aux1, [])];
    RunExtends(back, Run(back), Makes(Reply(second, flags)));
    es := back + [Makes(Reply(second, flags))];
  }

  /** A read is waiting no more, and its answer is on its way over UART. */
  predicate Answering(b: Board) {
    && b.mux.stopped.None? && !b.first && b.parked.None? && b.mux.waiting.None? && b.mux.writing.Some?
    && b.mux.uart.Some? && b.mux.uart.value.writing
  }

  lemma AnswerIsSent(b: Board, query: Completion, id: nat, flags: nat)
    requires b.mux.stopped.None? && !b.first && b.parked.None? && b.mux.waiting.Some? && b.mux.writing.None?
    requires b.mux.uart.Some? && b.mux.uart.value.reading && !b.mux.uart.value.writing && RouteOf(flags) == Uart
    ensures var e := UartRead(query, [Reply(id, flags)]); Legal(b, e) && Answering(Step(b, e))
  {
    OneRequest(Answer(UartIdle(b.mux), Uart, query), Reply(id, flags));
  }

  lemma WriteIsOwed(m: State, id: nat, flags: nat)
    requires m.stopped.None? && m.waiting.None? && m.writing.Some? && m.uart.Some? && m.uart.value.writing
    requires RouteOf(flags) == Uart
    ensures var n := SwitchStep(SwitchStep(m, Some(NEW), []), m.uart, []);
      n.stopped.None? && LegalRequest(n, Reply(id, flags)) && RequestStep(n, Reply(id, flags)).stopped == Some(UartWrites)
  {
  }

  lemma OneRequest(m: State, r: Request)
    ensures Requests(m, [r]) == RequestStep(m, r)
    ensures LegalRequests(m, [r]) <==> m.stopped.None? ==> LegalRequest(m, r)
  {
  }

  // ---------------------------------------------------------------------
  // Queries and their answers
  // ---------------------------------------------------------------------

  /** A query that a transport delivers keeps its data up to the reader's capacity, and its
      answer goes back on that transport with the query's own flags and the prefix in force,
      for as long as the transport is there. */
  lemma ReplyFindsItsQuery(es: seq<Event>, read: Read, transport: Transport, completion: Completion, id: nat)
    requires !completion.error && completion.data != [] && IdOf(completion.flags) == 0
    requires LegalRun(es) && Run(es).mux.stopped.None? && OwedIn(es) == NO_DEBT
    requires Run(es).mux.writing.None? && (transport == Uart ==> Run(es).mux.uart.Some?)
    ensures var d := Delivered(read, transport, completion);
      && d.Datagram? && d.data <= completion.data
      && |d.data| == (if |completion.data| < read.capacity then |completion.data| else read.capacity)
      && RequestStep(Run(es).mux, Reply(id, d.flags)).sent ==
           Run(es).mux.sent + [Sent(id, transport, completion.flags, Run(es).mux.prefix)]
  {
    FlagsRoundTripIff(completion.flags, transport);
    RunKeeps(es);
  }

  // ---------------------------------------------------------------------
  // The firmware's code
  // ---------------------------------------------------------------------

  /** A transport, seen through its pending operations; `held` says whether its assert held. */
  class Server {
    var reading: bool
    var writing: bool
    var prefix: nat

    function View(): Link
      reads this
    {
      Link(reading, writing, prefix)
    }

    constructor ()
      ensures View() == NEW
    {
      reading, writing, prefix := false, false, 0;
    }

    method AsyncRead() returns (held: bool)
      modifies this`reading
      ensures held == !old(reading) && reading
    {
      held := !reading;
      reading := true;
    }

    method AsyncWrite() returns (held: bool)
      modifies this`writing
      ensures held == !old(writing) && writing
    {
      held := !writing;
      writing := true;
    }
  }

  class Mux {
    const can: Server
    var uart: Server?
    var prefix: nat
    var waiting: Option<Read>
    var canFlight: bool
    var uartFlight: bool
    var writing: Option<nat>
    var deliveries: seq<Delivery>
    var finished: seq<Finished>
    var sent: seq<Sent>
    var stopped: Option<Stop>

    function View(): State
      reads this, can, uart
    {
      State(can.View(), if uart == null then None else Some(uart.View()), prefix, waiting, canFlight, uartFlight,
        writing, deliveries, finished, sent, stopped)
    }

    constructor (fdcan: Server)
      requires fdcan.View() == NEW
      ensures can == fdcan && uart == null && View() == START
    {
      can, uart, prefix := fdcan, null, 0;
      waiting, canFlight, uartFlight, writing := None, false, false, None;
      deliveries, finished, sent, stopped := [], [], [], None;
    }

    method StartCanRead()
      requires can != uart && stopped.None?
      modifies this, can
      ensures uart == old(uart) && View() == StartCan(old(View()))
    {
      canFlight := true;
      var held := can.AsyncRead();
      if !held {
        stopped := Some(CanReads);
      }
    }

    method StartUartRead()
      requires uart != null && can != uart && stopped.None?
      modifies this, uart
      ensures uart == old(uart) && View() == StartUart(old(View()))
    {
      uartFlight := true;
      var held := uart.AsyncRead();
      if !held {
        stopped := Some(UartReads);
      }
    }

    method AsyncRead(read: Read)
      requires can != uart && stopped.None? && waiting.None?
      modifies this, can, uart
      ensures uart == old(uart) && View() == AskStep(old(View()), read)
    {
      waiting := Some(read);
      if !canFlight {
        StartCanRead();
        if stopped.Some? {
          return;
        }
      }
      if uart != null && !uartFlight {
        StartUartRead();
      }
    }

    method AsyncWrite(id: nat, queryFlags: nat)
      requires can != uart && stopped.None? && (RouteOf(queryFlags) == Uart ==> writing.None?)
      modifies this, can, uart
      ensures uart == old(uart) && View() == ReplyStep(old(View()), id, queryFlags)
    {
      var transport, flags := IdOf(queryFlags), Clean(queryFlags);
      if transport == 1 {
        if uart == null {
          finished := finished + [Finished(id, false)];
          return;
        }
        writing := Some(id);
        var held := uart.AsyncWrite();
        if !held {
          stopped := Some(UartWrites);
          return;
        }
        sent := sent + [Sent(id, Uart, flags, uart.prefix)];
      } else {
        sent := sent + [Sent(id, Can, flags, can.prefix)];
      }
    }

    /** The client's callback, through what it asks for. */
    method RunCallback(next: seq<Request>)
      requires can != uart && LegalRequests(View(), next)
      modifies this, can, uart
      ensures uart == old(uart) && View() == Requests(old(View()), next)
      decreases |next|
    {
      if next == [] {
        return;
      }
      if stopped.Some? {
        StoppedStays(View(), next);
        return;
      }
      match next[0]
      case Ask(read) =>
        AsyncRead(read);
        RunCallback(next[1..]);
      case Reply(id, flags) =>
        AsyncWrite(id, flags);
        RunCallback(next[1..]);
    }

    method DeliverRead(transport: Transport, completion: Completion, next: seq<Request>)
      requires can != uart
      requires waiting.Some? ==> LegalRequests(Answer(View(), transport, completion), next)
      modifies this, can, uart
      ensures uart == old(uart) && View() == DeliverStep(old(View()), transport, completion, next)
    {
      if waiting.None? {
        return;
      }
      var read := waiting.value;
      waiting := None;
      if completion.error || |completion.data| == 0 {
        deliveries := deliveries + [Failed(read.id)];
      } else {
        var size := if |completion.data| < read.capacity then |completion.data| else read.capacity;
        deliveries := deliveries +
          [Datagram(read.id, transport, Encode(completion.flags, transport), completion.data[..size])];
      }
      RunCallback(next);
    }

    /** A CAN read completes. Its datagram goes to the read that waits, if any. */
    method HandleCanRead(completion: Completion, next: seq<Request>)
      requires can != uart && can.reading
      requires waiting.Some? ==> LegalRequests(Answer(CanIdle(View()), Can, completion), next)
      modifies this, can, uart
      ensures uart == old(uart) && View() == CanReadStep(old(View()), completion, next)
    {
      can.reading := false;
      canFlight := false;
      DeliverRead(Can, completion, next);
    }

    method HandleUartRead(completion: Completion, next: seq<Request>)
      requires uart != null && can != uart && uart.reading
      requires waiting.Some? ==> LegalRequests(Answer(UartIdle(View()), Uart, completion), next)
      modifies this, can, uart
      ensures uart == old(uart) && View() == UartReadStep(old(View()), completion, next)
    {
      uart.reading := false;
      uartFlight := false;
      DeliverRead(Uart, completion, next);
    }

    /** The active server completes its write. */
    method HandleUartWrite(ok: bool, next: seq<Request>)
      requires uart != null && can != uart && uart.writing
      requires writing.Some? ==> LegalRequests(Finish(UartQuiet(View()), ok), next)
      modifies this, can, uart
      ensures uart == old(uart) && View() == UartWrittenStep(old(View()), ok, next)
    {
      uart.writing := false;
      if writing.Some? {
        finished := finished + [Finished(writing.value, ok)];
        writing := None;
        RunCallback(next);
      }
    }

    method SetPrefix(p: nat)
      requires can != uart
      modifies this, can, uart
      ensures uart == old(uart) && View() == PrefixStep(old(View()), p)
    {
      prefix := p;
      can.prefix := p;
      if uart != null {
        uart.prefix := p;
      }
    }

    /** The new server gets its prefix, and is listened to if a read waits. */
    method SetUpServer()
      requires can != uart && stopped.None?
      modifies this, uart
      ensures uart == old(uart) && View() == Settle(old(View()))
    {
      if uart != null {
        uart.prefix := prefix;
      }
      if uart != null && waiting.Some? && !uartFlight {
        StartUartRead();
      }
    }

    /** Changes the UART server. The displaced one is left as it is. */
    method SetActiveUartServer(server: Server?, next: seq<Request>)
      requires can != uart && can != server && stopped.None?
      requires server != uart && writing.Some? ==>
        LegalRequests(Finish(Turned(View(), if server == null then None else Some(server.View())), false), next)
      modifies this, can, server
      ensures uart == server
      ensures View() == if server == old(uart) then old(View())
        else SwitchStep(old(View()), if server == null then None else Some(old(server.View())), next)
    {
      if server == uart {
        return;
      }
      uart := server;
      uartFlight := false;
      if writing.Some? {
        finished := finished + [Finished(writing.value, false)];
        writing := None;
        RunCallback(next);
        if stopped.Some? {
          return;
        }
      }
      SetUpServer();
    }
  }

  /** The controller's side: the servers of its two aux ports, and whom it hands over. */
  class Controller {
    const mux: Mux
    var aux1: Server?
    var aux2: Server?

    ghost predicate Valid()
      reads this, mux
    {
      && mux.uart == (if aux1 != null then aux1 else aux2)
      && aux1 != mux.can && aux2 != mux.can && (aux1 != null ==> aux1 != aux2)
    }

    function View(): Board
      reads this, mux, mux.can, mux.uart, aux1, aux2
    {
      Board(mux.View(), aux1 != null, if aux1 != null && aux2 != null then Some(aux2.View()) else None)
    }

    constructor (m: Mux)
      requires m.uart == null && m.View() == START
      ensures mux == m && Valid() && View() == POWER_ON
    {
      mux, aux1, aux2 := m, null, null;
    }

    /** aux1 becomes serial: its server takes over. */
    method Aux1Came(next: seq<Request>)
      requires Valid() && mux.stopped.None? && Legal(View(), Came(Aux1, next))
      modifies this, mux, mux.can, mux.uart
      ensures Valid() && View() == Step(old(View()), Came(Aux1, next))
    {
      var server := new Server();
      aux1 := server;
      mux.SetActiveUartServer(server, next);
    }

    /** aux1 is configured: its server, if any, is about to go, and aux2's is handed over. */
    method Aux1Gone(next: seq<Request>)
      requires Valid() && mux.stopped.None? && Legal(View(), Gone(Aux1, next))
      modifies this, mux, mux.can, mux.uart, aux2
      ensures Valid() && View() == Step(old(View()), Gone(Aux1, next))
    {
      mux.SetActiveUartServer(aux2, next);
      aux1 := null;
    }

    method Aux2Came(next: seq<Request>)
      requires Valid() && mux.stopped.None? && Legal(View(), Came(Aux2, next))
      modifies this, mux, mux.can, mux.uart
      ensures Valid() && View() == Step(old(View()), Came(Aux2, next))
    {
      var server := new Server();
      aux2 := server;
      mux.SetActiveUartServer(if aux1 != null then aux1 else server, next);
    }

    /** aux2 is configured: aux1's server stays if there is one. */
    method Aux2Gone(next: seq<Request>)
      requires Valid() && mux.stopped.None? && Legal(View(), Gone(Aux2, next))
      modifies this, mux, mux.can, mux.uart
      ensures Valid() && View() == Step(old(View()), Gone(Aux2, next))
    {
      mux.SetActiveUartServer(aux1, next);
      aux2 := null;
    }
  }
}
