/** The objects of asyncio_dgram/aio.py. A Protocol (the event sink) and a
    DatagramStream (the facade) share one receive queue and one exception
    queue; the Protocol also keeps a slot for the transport, which the
    stream drives directly through sendto and close. Each method states its
    effect through the Bridge function of the same name, and Apply shows
    that a wired Protocol and stream together take exactly the steps of
    Bridge.Step, so the lemmas of Traces hold of these objects. */
module Aio {
  import opened Types
  import opened Bridge
  import Traces

  /** The asyncio datagram transport, seen only through the two calls this
      module makes on it: whether close() was called, and the sendto calls
      issued, in order. */
  class Transport {
    var closing: bool
    var sent: seq<SendCall>

    constructor ()
      ensures !closing && sent == []
    {
      closing := false;
      sent := [];
    }

    method Close()
      modifies this
      ensures closing && sent == old(sent)
    {
      closing := true;
    }

    method SendTo(data: Bytes, addr: Option<Address>)
      modifies this
      ensures sent == old(sent) + [SendCall(data, addr)] && closing == old(closing)
    {
      sent := sent + [SendCall(data, addr)];
    }
  }

  /** asyncio.Queue as this module uses it: unbounded, filled at the back
      with put_nowait, drained at the front with get_nowait. */
  class Queue<T> {
    var items: seq<T>

    constructor ()
      ensures items == []
    {
      items := [];
    }

    method PutNowait(x: T)
      modifies this
      ensures items == old(items) + [x]
    {
      items := items + [x];
    }

    /** None stands for QueueEmpty. */
    method GetNowait() returns (r: Option<T>)
      modifies this
      ensures old(items) == [] ==> r == None && items == []
      ensures old(items) != [] ==> r == Some(old(items)[0]) && items == old(items)[1..]
    {
      if items == [] {
        r := None;
      } else {
        r := Some(items[0]);
        items := items[1..];
      }
    }
  }

  /** The asyncio.DatagramProtocol that feeds the two queues. */
  class Protocol {
    const recvq: Queue<Datagram>
    const excq: Queue<Fault>
    var transport: Option<Transport>

    constructor (recvq: Queue<Datagram>, excq: Queue<Fault>)
      ensures this.recvq == recvq && this.excq == excq && transport == None
    {
      this.recvq := recvq;
      this.excq := excq;
      transport := None;
    }

    ghost function Pending(): Queues
      reads recvq, excq
    {
      Queues(recvq.items, excq.items)
    }

    /** The transport the slot holds, as a frame. */
    function Held(): set<Transport>
      reads this
    {
      if transport.Some? then {transport.value} else {}
    }

    /** connection_made as written: an empty slot takes the new transport.
        With a transport already in place, the call of warnings.warn hands
        the old and new peer names to warn's category and stacklevel
        parameters, warn raises TypeError (`raised`), and the assignment
        after it is never reached, so the slot keeps the old transport. */
    method ConnectionMade(t: Transport) returns (raised: bool)
      modifies this
      ensures raised <==> old(transport).Some?
      ensures raised ==> transport == old(transport)
      ensures !raised ==> transport == Some(t)
    {
      if transport.Some? {
        raised := true;
        return;
      }
      raised := false;
      transport := Some(t);
    }

    /** connection_made as evidently intended: warn when a transport is
        already in place, then let the new transport take the slot. */
    method ConnectionMadeAsIntended(t: Transport) returns (warned: bool)
      modifies this
      ensures transport == Some(t)
      ensures warned <==> old(transport).Some?
    {
      warned := transport.Some?;
      transport := Some(t);
    }

    /** connection_lost: queue the exception if there is one, then close the
        held transport, if any, and empty the slot. */
    method ConnectionLost(exc: Option<Fault>)
      modifies this, excq, Held()
      ensures Pending() == Bridge.ConnectionLost(old(Pending()), exc)
      ensures transport == None
      ensures old(transport).Some? ==>
        old(transport).value.closing && old(transport).value.sent == old(transport.value.sent)
    {
      if exc.Some? {
        excq.PutNowait(exc.value);
      }
      if transport.Some? {
        transport.value.Close();
        transport := None;
      }
    }

    /** datagram_received: the pair goes to the back of the receive queue. */
    method DatagramReceived(data: Bytes, addr: Option<Address>)
      modifies recvq
      ensures Pending() == Bridge.DatagramReceived(old(Pending()), Datagram(data, addr))
    {
      recvq.PutNowait(Datagram(data, addr));
    }

    /** error_received: the exception goes to the back of the exception
        queue; the transport stays in place. */
    method ErrorReceived(exc: Fault)
      modifies excq
      ensures Pending() == Bridge.ErrorReceived(old(Pending()), exc)
    {
      excq.PutNowait(exc);
    }
  }

  /** DatagramStream: send and receive on top of the queues a Protocol fills. */
  class DatagramStream {
    const transport: Transport
    const recvq: Queue<Datagram>
    const excq: Queue<Fault>

    constructor (transport: Transport, recvq: Queue<Datagram>, excq: Queue<Fault>)
      ensures this.transport == transport && this.recvq == recvq && this.excq == excq
    {
      this.transport := transport;
      this.recvq := recvq;
      this.excq := excq;
    }

    ghost function Pending(): Queues
      reads recvq, excq
    {
      Queues(recvq.items, excq.items)
    }

    /** The `exception` property: raise the oldest unconsumed exception, or
        return None. */
    method Exception() returns (r: Outcome)
      modifies excq
      ensures (r, Pending()) == Bridge.Exception(old(Pending()))
    {
      var exc := excq.GetNowait();
      r := if exc.Some? then Raised(exc.value) else Done;
    }

    /** close: close the underlying transport. */
    method Close()
      modifies transport
      ensures transport.closing && transport.sent == old(transport.sent)
    {
      transport.Close();
    }

    /** send: raise a pending exception if there is one; otherwise hand the
        datagram to sendto. */
    method Send(data: Bytes, addr: Option<Address>) returns (r: Outcome)
      modifies excq, transport
      ensures (r, Pending()) == Bridge.Exception(old(Pending()))
      ensures transport.sent == old(transport.sent) + (if r.Done? then [SendCall(data, addr)] else [])
      ensures transport.closing == old(transport.closing)
    {
      r := Exception();
      if r.Done? {
        transport.SendTo(data, addr);
      }
    }

    /** recv: raise a pending exception if there is one; otherwise take the
        oldest datagram. Awaiting get() on an empty queue suspends; that is
        the `Blocked` outcome, which changes nothing. */
    method Recv() returns (r: Outcome)
      modifies recvq, excq
      ensures (r, Pending()) == Bridge.Recv(old(Pending()))
    {
      r := Exception();
      if r.Done? {
        var next := recvq.GetNowait();
        r := if next.Some? then Received(next.value) else Blocked;
      }
    }
  }

  /** DatagramServer: a stream bound to a local address; every send passes
      the caller's destination on to sendto as given. (The source subclasses
      DatagramStream; here the server holds its stream.) */
  class DatagramServer {
    const stream: DatagramStream

    constructor (transport: Transport, recvq: Queue<Datagram>, excq: Queue<Fault>)
      ensures stream.transport == transport && stream.recvq == recvq && stream.excq == excq
      ensures fresh(stream)
    {
      stream := new DatagramStream(transport, recvq, excq);
    }

    method Send(data: Bytes, addr: Option<Address>) returns (r: Outcome)
      modifies stream.excq, stream.transport
      ensures (r, stream.Pending()) == Bridge.Exception(old(stream.Pending()))
      ensures stream.transport.sent
           == old(stream.transport.sent) + (if r.Done? then [SendCall(data, addr)] else [])
      ensures stream.transport.closing == old(stream.transport.closing)
    {
      r := stream.Send(data, addr);
    }
  }

  /** DatagramClient: a stream connected to a remote address; send always
      leaves the destination to the connected socket. */
  class DatagramClient {
    const stream: DatagramStream

    constructor (transport: Transport, recvq: Queue<Datagram>, excq: Queue<Fault>)
      ensures stream.transport == transport && stream.recvq == recvq && stream.excq == excq
      ensures fresh(stream)
    {
      stream := new DatagramStream(transport, recvq, excq);
    }

    method Send(data: Bytes) returns (r: Outcome)
      modifies stream.excq, stream.transport
      ensures (r, stream.Pending()) == Bridge.Exception(old(stream.Pending()))
      ensures stream.transport.sent
           == old(stream.transport.sent) + (if r.Done? then [SendCall(data, None)] else [])
      ensures stream.transport.closing == old(stream.transport.closing)
    {
      r := stream.Send(data, None);
    }
  }

  // -----------------------------------------------------------------------
  // One endpoint: a Protocol and a stream over the same queues

  /** The Protocol and the stream share both queues, and the transport the
      Protocol holds, if any, is the stream's. */
  ghost predicate Wired(p: Protocol, s: DatagramStream)
    reads p
  {
    && p.recvq == s.recvq && p.excq == s.excq
    && (p.transport.Some? ==> p.transport.value == s.transport)
  }

  /** The Bridge state of a wired pair. */
  ghost function View(p: Protocol, s: DatagramStream): Endpoint
    reads p, s.recvq, s.excq, s.transport
  {
    Endpoint(Queues(s.recvq.items, s.excq.items), p.transport.Some?, s.transport.closing, s.transport.sent)
  }

  /** Every callback and every stream operation on a wired pair does what
      Bridge.Step says, and the pair stays wired. */
  method Apply(p: Protocol, s: DatagramStream, ev: Event) returns (out: Outcome)
    requires Wired(p, s)
    modifies p, s.recvq, s.excq, s.transport
    ensures Wired(p, s)
    ensures (out, View(p, s)) == Step(old(View(p, s)), ev)
  {
    match ev
    case Made =>
      var raised := p.ConnectionMade(s.transport);
      out := if raised then WarnFailed else Done;
    case Lost(exc) =>
      p.ConnectionLost(exc);
      out := Done;
    case Arrived(d) =>
      p.DatagramReceived(d.data, d.addr);
      out := Done;
    case Errored(f) =>
      p.ErrorReceived(f);
      out := Done;
    case CheckException =>
      out := s.Exception();
    case Receive =>
      out := s.Recv();
    case Send(call) =>
      ghost var e := old(View(p, s));
      out := s.Send(call.data, call.addr);
      assert Step(e, ev) == SendStep(e, call);
      if out.Done? {
        assert View(p, s).sent == e.sent + [call];
      } else {
        assert View(p, s).sent == e.sent;
      }
    case Close =>
      s.Close();
      out := Done;
  }

  /** A whole trace of callbacks and stream operations, applied in order to
      a wired pair, yields exactly the outcomes and the state of Bridge.Run,
      so every property proved of Run holds of these objects. */
  method ApplyAll(p: Protocol, s: DatagramStream, evs: seq<Event>) returns (outs: seq<Outcome>)
    requires Wired(p, s)
    modifies p, s.recvq, s.excq, s.transport
    ensures Wired(p, s)
    ensures (outs, View(p, s)) == Run(old(View(p, s)), evs)
  {
    ghost var e0 := View(p, s);
    outs := [];
    Traces.RunNil(e0);
    assert evs[..0] == [];
    var i := 0;
    while i < |evs|
      invariant 0 <= i <= |evs|
      invariant Wired(p, s)
      invariant (outs, View(p, s)) == Run(e0, evs[..i])
    {
      var out := Apply(p, s, evs[i]);
      Traces.RunSnoc(e0, evs[..i], evs[i]);
      assert evs[..i + 1] == evs[..i] + [evs[i]];
      outs := outs + [out];
      i := i + 1;
    }
    assert evs[..i] == evs;
  }

  // -----------------------------------------------------------------------
  // Factories

  /** bind(): new queues, a Protocol that receives the transport through
      connection_made, and a DatagramServer over the same queues. The
      transport stands for what the event loop's create_datagram_endpoint
      returns for the bound socket. */
  method Bind(transport: Transport) returns (server: DatagramServer, protocol: Protocol)
    ensures fresh(protocol) && fresh(server) && fresh(server.stream)
    ensures fresh(protocol.recvq) && fresh(protocol.excq)
    ensures server.stream.transport == transport && Wired(protocol, server.stream)
    ensures View(protocol, server.stream)
         == Opened().(closing := transport.closing, sent := transport.sent)
  {
    var recvq := new Queue<Datagram>();
    var excq := new Queue<Fault>();
    protocol := new Protocol(recvq, excq);
    var _ := protocol.ConnectionMade(transport);
    server := new DatagramServer(transport, recvq, excq);
  }

  /** connect(): as bind(), returning a DatagramClient. */
  method Connect(transport: Transport) returns (client: DatagramClient, protocol: Protocol)
    ensures fresh(protocol) && fresh(client) && fresh(client.stream)
    ensures fresh(protocol.recvq) && fresh(protocol.excq)
    ensures client.stream.transport == transport && Wired(protocol, client.stream)
    ensures View(protocol, client.stream)
         == Opened().(closing := transport.closing, sent := transport.sent)
  {
    var recvq := new Queue<Datagram>();
    var excq := new Queue<Fault>();
    protocol := new Protocol(recvq, excq);
    var _ := protocol.ConnectionMade(transport);
    client := new DatagramClient(transport, recvq, excq);
  }

  // -----------------------------------------------------------------------
  // The echo exchange between a bound and a connected endpoint

  /** A server binds, a client connects to it and sends "hi"; the server
      receives it with the client's address and answers "bye" to that
      address; the client receives the answer with the server's address.
      Carrying a datagram from one socket to the other is the network's
      part, played here by calling the receiving Protocol's
      datagram_received with the payload the sender handed to sendto. */
  method Echo(serverAddr: Address, clientAddr: Address)
    returns (atServer: Outcome, atClient: Outcome, clientSent: seq<SendCall>, serverSent: seq<SendCall>)
    ensures clientSent == [SendCall([0x68, 0x69], None)]
    ensures atServer == Received(Datagram([0x68, 0x69], Some(clientAddr)))
    ensures serverSent == [SendCall([0x62, 0x79, 0x65], Some(clientAddr))]
    ensures atClient == Received(Datagram([0x62, 0x79, 0x65], Some(serverAddr)))
  {
    var serverTransport := new Transport();
    var clientTransport := new Transport();
    var server, serverProtocol := Bind(serverTransport);
    var client, clientProtocol := Connect(clientTransport);

    var sent := client.Send([0x68, 0x69]);
    assert clientTransport.sent == [SendCall([0x68, 0x69], None)];
    serverProtocol.DatagramReceived(clientTransport.sent[0].data, Some(clientAddr));
    atServer := server.stream.Recv();

    sent := server.Send([0x62, 0x79, 0x65], atServer.datagram.addr);
    assert serverTransport.sent == [SendCall([0x62, 0x79, 0x65], Some(clientAddr))];
    clientProtocol.DatagramReceived(serverTransport.sent[0].data, Some(serverAddr));
    atClient := client.stream.Recv();
    clientSent, serverSent := clientTransport.sent, serverTransport.sent;
  }

  /** A datagram from a sender with no address (an unbound AF_UNIX socket)
      reaches the bound server with address None, and recv hands that None
      back unchanged. */
  method RecvFromUnboundSender(serverTransport: Transport) returns (atServer: Outcome)
    ensures atServer == Received(Datagram([0x68, 0x69], None))
  {
    var server, serverProtocol := Bind(serverTransport);
    serverProtocol.DatagramReceived([0x68, 0x69], None);
    atServer := server.stream.Recv();
  }

  // -----------------------------------------------------------------------
  // Re-establishing a connection

  /** connection_made on a Protocol that already holds a transport, as
      written: the call fails and the first transport stays in the slot. */
  method ReestablishKeepsFirst(t1: Transport, t2: Transport) returns (raised: bool, held: Option<Transport>)
    requires t1 != t2
    ensures raised && held == Some(t1) && held != Some(t2)
  {
    var recvq := new Queue<Datagram>();
    var excq := new Queue<Fault>();
    var protocol := new Protocol(recvq, excq);
    var first := protocol.ConnectionMade(t1);
    raised := protocol.ConnectionMade(t2);
    held := protocol.transport;
  }

  /** The same sequence with connection_made as intended: a warning, and the
      second transport takes the slot. */
  method ReestablishTakesSecond(t1: Transport, t2: Transport) returns (warned: bool, held: Option<Transport>)
    ensures warned && held == Some(t2)
  {
    var recvq := new Queue<Datagram>();
    var excq := new Queue<Fault>();
    var protocol := new Protocol(recvq, excq);
    var first := protocol.ConnectionMadeAsIntended(t1);
    warned := protocol.ConnectionMadeAsIntended(t2);
    held := protocol.transport;
  }
}
