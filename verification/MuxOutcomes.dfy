/** What an observer of the events alone can say of the multiplexer: which servers exist, which
    prefix is in force, what every callback was told and what was sent. */
module MuxOutcomes {
  import opened Common
  import opened TransportMux

  // ---------------------------------------------------------------------
  // Ports and prefix
  // ---------------------------------------------------------------------

  /** The port is configured as a serial one. */
  predicate Up(es: seq<Event>, port: Port)
    decreases |es|
  {
    if es == [] then false
    else
      var e := es[|es| - 1];
      if e.Came? && e.port == port then true
      else if e.Gone? && e.port == port then false
      else Up(es[..|es| - 1], port)
  }

  /** The last prefix that was set. */
  function PrefixOf(es: seq<Event>): nat
    decreases |es|
  {
    if es == [] then 0 else if es[|es| - 1].Prefix? then es[|es| - 1].prefix else PrefixOf(es[..|es| - 1])
  }

  /** As long as the firmware runs, aux1's server is the first choice exactly when aux1 is serial,
      aux2's is kept exactly when both are, some server is there exactly when one is, and the
      prefix is the last one set. */
  lemma {:induction false} PortsAre(es: seq<Event>)
    requires LegalRun(es) && Run(es).mux.stopped.None?
    ensures var b := Run(es);
      && b.first == Up(es, Aux1) && b.parked.Some? == (Up(es, Aux1) && Up(es, Aux2))
      && b.mux.uart.Some? == (Up(es, Aux1) || Up(es, Aux2)) && b.mux.prefix == PrefixOf(es)
    decreases |es|
  {
    if es != [] {
      var before := es[..|es| - 1];
      RunKeeps(before);
      PortsAre(before);
      PresenceStep(Run(before), es[|es| - 1]);
      PrefixStays(Run(before), es[|es| - 1]);
    }
  }

  lemma PrefixStays(b: Board, e: Event)
    requires Legal(b, e) && b.mux.stopped.None?
    ensures Step(b, e).mux.prefix == if e.Prefix? then e.prefix else b.mux.prefix
  {
    if Callback(b, e).Some? {
      RequestsFrame(Callback(b, e).value, e.next);
    }
    if e.Makes? {
      RequestFrame(b.mux, e.request);
    }
  }

  // ---------------------------------------------------------------------
  // What the callbacks are told
  // ---------------------------------------------------------------------

  /** The read got the error, or as much of the datagram as it has room for, with flags that lead
      back to the transport and are otherwise the datagram's own. */
  predicate Answers(d: Delivery, read: Read, transport: Transport, c: Completion) {
    && d.id == read.id
    && if c.error || c.data == [] then d.Failed?
       else
         && d.Datagram? && d.transport == transport && d.data <= c.data
         && (d.data == c.data || |d.data| == read.capacity) && |d.data| <= read.capacity
         && (IdOf(c.flags) == 0 ==> RouteOf(d.flags) == transport && Clean(d.flags) == c.flags)
  }

  /** Nothing but failures has been reported since. */
  predicate OnlyFailures(before: seq<Finished>, after: seq<Finished>) {
    before <= after && forall i :: |before| <= i < |after| ==> !after[i].ok
  }

  lemma RequestReports(m: State, r: Request)
    ensures RequestStep(m, r).deliveries == m.deliveries && OnlyFailures(m.finished, RequestStep(m, r).finished)
    ensures m.uart.Some? ==> RequestStep(m, r).finished == m.finished
  {
  }

  /** What a callback asks for answers no read, and reports a failed write only when there is no
      server to write to. */
  lemma {:induction false} RequestsReport(m: State, rs: seq<Request>)
    ensures Requests(m, rs).deliveries == m.deliveries && OnlyFailures(m.finished, Requests(m, rs).finished)
    ensures m.uart.Some? ==> Requests(m, rs).finished == m.finished
    decreases |rs|
  {
    if rs != [] {
      RequestReports(m, rs[0]);
      RequestFrame(m, rs[0]);
      RequestsReport(RequestStep(m, rs[0]), rs[1..]);
    }
  }

  lemma DeliveredAnswers(read: Read, transport: Transport, c: Completion)
    ensures Answers(Delivered(read, transport, c), read, transport, c)
  {
    FlagsRoundTripIff(c.flags, transport);
  }

  /** The transport and the completion of an event that may answer a read. */
  function Arrival(e: Event): Option<(Transport, Completion)> {
    match e
    case CanRead(c, _) => Some((Can, c))
    case UartRead(c, _) => Some((Uart, c))
    case _ => None
  }

  /** A read is answered when a transport completes one while it waits, and at no other event. */
  lemma ReadsAreAnswered(b: Board, e: Event)
    requires Legal(b, e) && b.mux.stopped.None?
    ensures var d, n := b.mux.deliveries, Step(b, e).mux.deliveries;
      if Arrival(e).Some? && b.mux.waiting.Some?
      then |n| == |d| + 1 && n[..|d|] == d && Answers(n[|d|], b.mux.waiting.value, Arrival(e).value.0, Arrival(e).value.1)
      else n == d
  {
    if Callback(b, e).Some? {
      RequestsReport(Callback(b, e).value, e.next);
    }
    if e.Makes? {
      RequestReports(b.mux, e.request);
    }
    if Arrival(e).Some? && b.mux.waiting.Some? {
      DeliveredAnswers(b.mux.waiting.value, Arrival(e).value.0, Arrival(e).value.1);
    }
  }

  /** The write that is pending when its server completes it is told what the server says; every
      other callback of a write is told that it failed. */
  lemma WritesAreReported(b: Board, e: Event)
    requires Legal(b, e) && b.mux.stopped.None?
    ensures var f, n := b.mux.finished, Step(b, e).mux.finished;
      if e.UartWritten? && b.mux.writing.Some? then n == f + [Finished(b.mux.writing.value, e.ok)] else OnlyFailures(f, n)
  {
    if Callback(b, e).Some? {
      RequestsReport(Callback(b, e).value, e.next);
    }
    if e.Makes? {
      RequestReports(b.mux, e.request);
    }
  }

  // ---------------------------------------------------------------------
  // What is sent
  // ---------------------------------------------------------------------

  /** A reply goes to the transport that the id byte names, with that byte cleared and the prefix
      in force; without a server there its callback fails at once and nothing is sent. */
  lemma ReplyIsSent(es: seq<Event>, id: nat, flags: nat)
    requires LegalRun(es) && Run(es).mux.stopped.None? && LegalRequest(Run(es).mux, Reply(id, flags))
    requires !Bumps(OwedIn(es), Reply(id, flags))
    ensures var m := Run(es).mux; var n, uart := RequestStep(m, Reply(id, flags)), flags / 256 % 256 == 1;
      if uart && !Up(es, Aux1) && !Up(es, Aux2)
      then n == m.(finished := m.finished + [Finished(id, false)])
      else
        && n.finished == m.finished && n.writing == (if uart then Some(id) else m.writing)
        && |n.sent| == |m.sent| + 1 && n.sent[..|m.sent|] == m.sent
        && var s := n.sent[|m.sent|];
        && s.id == id && s.transport == (if uart then Uart else Can) && s.prefix == PrefixOf(es)
        && s.flags % 256 == flags % 256 && s.flags / 256 % 256 == 0 && s.flags / 65536 == flags / 65536
  {
    RunKeeps(es);
    PortsAre(es);
    CleanIs(flags);
    RequestStopsIff(Run(es).mux, OwedIn(es), Reply(id, flags));
  }

  lemma CleanIs(flags: nat)
    ensures Clean(flags) % 256 == flags % 256 && Clean(flags) / 256 % 256 == 0 && Clean(flags) / 65536 == flags / 65536
  {
    var h, low := flags / 256 / 256, flags % 256;
    assert Clean(flags) == h * 65536 + low;
    assert (h * 256 * 256 + low) / 256 == h * 256;
    assert flags / 65536 == h;
  }
}
