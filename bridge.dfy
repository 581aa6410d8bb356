/** A value-level reference model of one endpoint of asyncio_dgram: the two
    queues that the event sink fills and the stream facade drains, whether
    the sink still holds its transport, and what has been done to that
    transport (closed, datagrams handed to sendto). Every callback of
    Protocol and every operation of DatagramStream is one step here. */
module Bridge {
  import opened Types

  /** The receive queue of (data, addr) pairs and the exception queue,
      both shared by the Protocol and the DatagramStream of one endpoint. */
  datatype Queues = Queues(recvq: seq<Datagram>, excq: seq<Fault>)

  /** What one step hands back to its caller. `Raised` is an exception
      propagating out of the operation; `Blocked` is a recv that suspends
      because no datagram is queued; `WarnFailed` is connection_made finding
      a transport already in place: its call of warnings.warn passes the two
      peer names where warn expects a warning category and a stack level,
      so warn raises TypeError and the new transport is never stored. */
  datatype Outcome =
    | Done
    | WarnFailed
    | Raised(fault: Fault)
    | Received(datagram: Datagram)
    | Blocked

  // ---------------------------------------------------------------------
  // Event sink: the Protocol callbacks' effect on the queues

  /** datagram_received: the pair joins the back of the receive queue. */
  function DatagramReceived(q: Queues, d: Datagram): (r: Queues)
    ensures r.excq == q.excq
    ensures |r.recvq| == |q.recvq| + 1 && r.recvq[|q.recvq|] == d
    ensures r.recvq[..|q.recvq|] == q.recvq
  {
    q.(recvq := q.recvq + [d])
  }

  /** error_received: the exception joins the back of the exception queue. */
  function ErrorReceived(q: Queues, f: Fault): (r: Queues)
    ensures r.recvq == q.recvq
    ensures |r.excq| == |q.excq| + 1 && r.excq[|q.excq|] == f
    ensures r.excq[..|q.excq|] == q.excq
  {
    q.(excq := q.excq + [f])
  }

  /** connection_lost: the exception, if any, is queued; nothing else. */
  function ConnectionLost(q: Queues, exc: Option<Fault>): (r: Queues)
    ensures r.recvq == q.recvq
    ensures exc.None? ==> r == q
    ensures exc.Some? ==> r == ErrorReceived(q, exc.value)
  {
    match exc
    case None => q
    case Some(f) => q.(excq := q.excq + [f])
  }

  // ---------------------------------------------------------------------
  // Stream facade: the DatagramStream operations' effect on the queues

  /** The `exception` property: take the oldest pending exception and raise
      it, or return None (here `Done`) when there is none. At most one
      exception leaves the queue, and the receive queue is never touched. */
  function Exception(q: Queues): (r: (Outcome, Queues))
    ensures r.0.Done? || r.0.Raised?
    ensures r.1.recvq == q.recvq
    ensures r.0.Done? <==> q.excq == []
    ensures r.0.Done? ==> r.1 == q
    ensures r.0.Raised? ==> [r.0.fault] + r.1.excq == q.excq
  {
    if q.excq == [] then (Done, q)
    else (Raised(q.excq[0]), q.(excq := q.excq[1..]))
  }

  /** `recv`: check for an exception first; then take the oldest datagram,
      or suspend (`Blocked`) when none is queued. A raised exception leaves
      the receive queue as it was. */
  function Recv(q: Queues): (r: (Outcome, Queues))
    ensures r.0.Raised? || r.0.Received? || r.0.Blocked?
    ensures r.0.Raised? <==> q.excq != []
    ensures r.0.Raised? ==> r.1.recvq == q.recvq && [r.0.fault] + r.1.excq == q.excq
    ensures r.0.Blocked? <==> q.excq == [] && q.recvq == []
    ensures r.0.Blocked? ==> r.1 == q
    ensures r.0.Received? ==> r.1.excq == q.excq && [r.0.datagram] + r.1.recvq == q.recvq
  {
    var (checked, q') := Exception(q);
    if checked.Raised? then (checked, q')
    else if q.recvq == [] then (Blocked, q)
    else (Received(q.recvq[0]), q.(recvq := q.recvq[1..]))
  }

  // ---------------------------------------------------------------------
  // The whole endpoint

  /** One endpoint as the program sees it: the shared queues; whether the
      Protocol's transport slot holds the transport; whether close() has
      been called on the transport; and every sendto call issued on it. */
  datatype Endpoint = Endpoint(q: Queues, attached: bool, closing: bool, sent: seq<SendCall>)

  /** The state bind() and connect() return: empty queues, and a transport
      the Protocol received through connection_made. */
  function Opened(): (e: Endpoint)
    ensures e.q.recvq == [] && e.q.excq == [] && e.sent == []
    ensures e.attached && !e.closing
  {
    Endpoint(Queues([], []), true, false, [])
  }

  /** Everything that can happen to an endpoint: the four Protocol
      callbacks, then the DatagramStream operations. */
  datatype Event =
    | Made
    | Lost(exc: Option<Fault>)
    | Arrived(d: Datagram)
    | Errored(f: Fault)
    | CheckException
    | Receive
    | Send(call: SendCall)
    | Close

  /** `send`: check for an exception first; only when none is pending is
      exactly one sendto issued. */
  function SendStep(e: Endpoint, call: SendCall): (r: (Outcome, Endpoint))
    ensures r.0.Done? || r.0.Raised?
    ensures r.1.attached == e.attached && r.1.closing == e.closing && r.1.q.recvq == e.q.recvq
    ensures r.0.Done? <==> e.q.excq == []
    ensures r.0.Done? ==> r.1.sent == e.sent + [call] && r.1.q == e.q
    ensures r.0.Raised? ==> r.1.sent == e.sent && [r.0.fault] + r.1.q.excq == e.q.excq
  {
    var (checked, q') := Exception(e.q);
    if checked.Raised? then (checked, e.(q := q'))
    else (Done, e.(sent := e.sent + [call]))
  }

  /** The effect of one event. connection_made fills an empty slot, and on
      a full one fails in warnings.warn and changes nothing; connection_lost
      closes the held transport, if any, and empties the slot; close()
      closes the stream's transport. */
  function Step(e: Endpoint, ev: Event): (r: (Outcome, Endpoint))
    ensures ev.Send? || r.1.sent == e.sent
    ensures ev.Made? || ev.Lost? || r.1.attached == e.attached
    ensures e.closing ==> r.1.closing
    ensures ev.Made? ==> r.1.attached && (r.0.WarnFailed? <==> e.attached)
    ensures ev.Made? && e.attached ==> r.1 == e
    ensures ev.Lost? ==> !r.1.attached && (e.attached ==> r.1.closing)
    ensures ev.Close? ==> r == (Done, e.(closing := true))
    ensures !(ev.Arrived? || ev.Receive?) ==> r.1.q.recvq == e.q.recvq
  {
    match ev
    case Made => if e.attached then (WarnFailed, e) else (Done, e.(attached := true))
    case Lost(exc) =>
      (Done, e.(q := ConnectionLost(e.q, exc), attached := false, closing := e.closing || e.attached))
    case Arrived(d) => (Done, e.(q := DatagramReceived(e.q, d)))
    case Errored(f) => (Done, e.(q := ErrorReceived(e.q, f)))
    case CheckException =>
      var (o, q') := Exception(e.q);
      (o, e.(q := q'))
    case Receive =>
      var (o, q') := Recv(e.q);
      (o, e.(q := q'))
    case Send(call) => SendStep(e, call)
    case Close => (Done, e.(closing := true))
  }

  /** Runs a sequence of events, collecting one outcome per event. */
  function Run(e: Endpoint, evs: seq<Event>): (r: (seq<Outcome>, Endpoint))
    ensures |r.0| == |evs|
    ensures e.closing ==> r.1.closing
    decreases |evs|
  {
    if evs == [] then ([], e)
    else
      var first := Step(e, evs[0]);
      var rest := Run(first.1, evs[1..]);
      ([first.0] + rest.0, rest.1)
  }
}
