/** Properties of whole runs of the Bridge model: arrival order is the
    order recv hands datagrams out, every exception is raised exactly once
    and in order, a raised exception consumes no datagram, sends go out
    exactly as issued, and teardown is idempotent. */
module Traces {
  import opened Types
  import opened Bridge

  // ---------------------------------------------------------------------
  // Building and reading traces

  function Repeat(ev: Event, n: nat): seq<Event> {
    if n == 0 then [] else [ev] + Repeat(ev, n - 1)
  }

  function Arrivals(ds: seq<Datagram>): seq<Event> {
    if ds == [] then [] else [Arrived(ds[0])] + Arrivals(ds[1..])
  }

  function Sends(calls: seq<SendCall>): seq<Event> {
    if calls == [] then [] else [Send(calls[0])] + Sends(calls[1..])
  }

  function Dones(n: nat): seq<Outcome> {
    if n == 0 then [] else [Done] + Dones(n - 1)
  }

  function Receiveds(ds: seq<Datagram>): seq<Outcome> {
    if ds == [] then [] else [Received(ds[0])] + Receiveds(ds[1..])
  }

  function Raiseds(fs: seq<Fault>): seq<Outcome> {
    if fs == [] then [] else [Raised(fs[0])] + Raiseds(fs[1..])
  }

  /** The callbacks that feed the two queues. */
  predicate FeedsQueues(ev: Event) {
    ev.Arrived? || ev.Errored?
  }

  /** The datagram one event delivers, if any. */
  function DatagramOf(ev: Event): seq<Datagram> {
    if ev.Arrived? then [ev.d] else []
  }

  /** The exception one event reports, if any: error_received always
      reports one, connection_lost only when it is given one. */
  function FaultOf(ev: Event): seq<Fault> {
    match ev
    case Errored(f) => [f]
    case Lost(Some(f)) => [f]
    case _ => []
  }

  /** The datagrams a trace delivers, in trace order. */
  function Datagrams(evs: seq<Event>): seq<Datagram>
    decreases |evs|
  {
    if evs == [] then [] else DatagramOf(evs[0]) + Datagrams(evs[1..])
  }

  /** The exceptions a trace reports through error_received and
      connection_lost, in trace order. */
  function Faults(evs: seq<Event>): seq<Fault>
    decreases |evs|
  {
    if evs == [] then [] else FaultOf(evs[0]) + Faults(evs[1..])
  }

  // ---------------------------------------------------------------------
  // Composition

  /** The empty run changes nothing. */
  lemma RunNil(e: Endpoint)
    ensures Run(e, []) == ([], e)
  {
  }

  /** A run that starts with a known step. */
  lemma RunStep(e: Endpoint, ev: Event, rest: seq<Event>, o: Outcome, e1: Endpoint)
    requires Step(e, ev) == (o, e1)
    ensures Run(e, [ev] + rest) == ([o] + Run(e1, rest).0, Run(e1, rest).1)
  {
    var evs := [ev] + rest;
    assert evs[0] == ev && evs[1..] == rest;
  }

  /** Unfolds a non-empty run by its first step. */
  lemma RunFirst(e: Endpoint, evs: seq<Event>)
    requires evs != []
    ensures Run(e, evs) == ([Step(e, evs[0]).0] + Run(Step(e, evs[0]).1, evs[1..]).0,
                            Run(Step(e, evs[0]).1, evs[1..]).1)
  {
  }

  /** A run of one known step. */
  lemma RunSingle(e: Endpoint, ev: Event, o: Outcome, e1: Endpoint)
    requires Step(e, ev) == (o, e1)
    ensures Run(e, [ev]) == ([o], e1)
  {
    RunStep(e, ev, [], o, e1);
    RunNil(e1);
    assert [ev] + [] == [ev];
    assert [o] + [] == [o];
  }

  /** Running a concatenation is running its halves one after the other. */
  lemma {:induction false} RunAppend(e: Endpoint, a: seq<Event>, b: seq<Event>)
    ensures Run(e, a + b) == (Run(e, a).0 + Run(Run(e, a).1, b).0, Run(Run(e, a).1, b).1)
    decreases |a|
  {
    if a == [] {
      assert a + b == b;
      RunNil(e);
      assert [] + Run(e, b).0 == Run(e, b).0;
    } else {
      var first := Step(e, a[0]);
      var mid := Run(first.1, a[1..]);
      var last := Run(mid.1, b);
      assert (a + b)[0] == a[0] && (a + b)[1..] == a[1..] + b;
      RunFirst(e, a);
      RunFirst(e, a + b);
      RunAppend(first.1, a[1..], b);
      assert ([first.0] + mid.0) + last.0 == [first.0] + (mid.0 + last.0);
    }
  }

  /** Extending a run by one event is one more step. */
  lemma RunSnoc(e: Endpoint, a: seq<Event>, ev: Event)
    ensures Run(e, a + [ev])
         == (Run(e, a).0 + [Step(Run(e, a).1, ev).0], Step(Run(e, a).1, ev).1)
  {
    var r := Run(e, a);
    RunAppend(e, a, [ev]);
    RunSingle(r.1, ev, Step(r.1, ev).0, Step(r.1, ev).1);
  }

  /** A run followed by another, given what each does. */
  lemma RunThen(e: Endpoint, a: seq<Event>, b: seq<Event>, oa: seq<Outcome>, ea: Endpoint, ob: seq<Outcome>, eb: Endpoint)
    requires Run(e, a) == (oa, ea) && Run(ea, b) == (ob, eb)
    ensures Run(e, a + b) == (oa + ob, eb)
  {
    RunAppend(e, a, b);
  }

  // ---------------------------------------------------------------------
  // The event sink

  /** One datagram_received or error_received call, as SinkAppendsInOrder
      sees it. */
  lemma SinkStep(e: Endpoint, ev: Event)
    requires FeedsQueues(ev)
    ensures Step(e, ev)
         == (Done, e.(q := Queues(e.q.recvq + DatagramOf(ev), e.q.excq + FaultOf(ev))))
  {
    if ev.Arrived? {
      assert e.q.excq + FaultOf(ev) == e.q.excq;
    } else {
      assert e.q.recvq + DatagramOf(ev) == e.q.recvq;
    }
  }

  /** Any mix of datagram_received and error_received calls leaves each
      queue extended by exactly its own items, in arrival order: errors
      never reorder, drop or duplicate datagrams, and vice versa. Nothing
      else about the endpoint changes. */
  lemma {:induction false} SinkAppendsInOrder(e: Endpoint, evs: seq<Event>)
    requires forall i :: 0 <= i < |evs| ==> FeedsQueues(evs[i])
    ensures Run(e, evs)
         == (Dones(|evs|), e.(q := Queues(e.q.recvq + Datagrams(evs), e.q.excq + Faults(evs))))
    decreases |evs|
  {
    if evs == [] {
      RunNil(e);
      assert e.q == Queues(e.q.recvq + [], e.q.excq + []);
    } else {
      var ev, tail := evs[0], evs[1..];
      var e1 := e.(q := Queues(e.q.recvq + DatagramOf(ev), e.q.excq + FaultOf(ev)));
      SinkStep(e, ev);
      RunFirst(e, evs);
      SinkAppendsInOrder(e1, tail);
      SinkQueues(e.q, ev, tail, evs);
    }
  }

  /** Peeling the first event off a trace of callbacks, as far as the two
      queues are concerned. */
  lemma SinkQueues(q: Queues, ev: Event, tail: seq<Event>, evs: seq<Event>)
    requires evs != [] && evs[0] == ev && evs[1..] == tail
    ensures (q.recvq + DatagramOf(ev)) + Datagrams(tail) == q.recvq + Datagrams(evs)
    ensures (q.excq + FaultOf(ev)) + Faults(tail) == q.excq + Faults(evs)
  {
    Regroup(q.recvq, DatagramOf(ev), Datagrams(tail), Datagrams(evs));
    Regroup(q.excq, FaultOf(ev), Faults(tail), Faults(evs));
  }

  lemma Regroup<T>(a: seq<T>, x: seq<T>, t: seq<T>, whole: seq<T>)
    requires whole == x + t
    ensures (a + x) + t == a + whole
  {
  }

  /** A run of datagram_received calls appends its datagrams, in order. */
  lemma {:induction false} ArrivalsAppend(e: Endpoint, ds: seq<Datagram>)
    ensures Run(e, Arrivals(ds)) == (Dones(|ds|), e.(q := e.q.(recvq := e.q.recvq + ds)))
    decreases |ds|
  {
    if ds == [] {
      RunNil(e);
      assert e.q.recvq + ds == e.q.recvq;
    } else {
      var e1 := e.(q := e.q.(recvq := e.q.recvq + [ds[0]]));
      RunStep(e, Arrived(ds[0]), Arrivals(ds[1..]), Done, e1);
      ArrivalsAppend(e1, ds[1..]);
      assert (e.q.recvq + [ds[0]]) + ds[1..] == e.q.recvq + ([ds[0]] + ds[1..]);
      assert [ds[0]] + ds[1..] == ds;
    }
  }

  // ---------------------------------------------------------------------
  // The stream facade

  /** With no exception pending, n calls of recv hand out the first n
      queued datagrams in queue order and remove exactly those. */
  lemma {:induction false} ReceivesInOrder(e: Endpoint, n: nat)
    requires e.q.excq == [] && n <= |e.q.recvq|
    ensures Run(e, Repeat(Receive, n))
         == (Receiveds(e.q.recvq[..n]), e.(q := e.q.(recvq := e.q.recvq[n..])))
    decreases n
  {
    if n == 0 {
      RunNil(e);
      assert e.q.recvq[..n] == [];
      assert e.q.recvq[n..] == e.q.recvq;
    } else {
      var recvq := e.q.recvq;
      var e1 := e.(q := e.q.(recvq := recvq[1..]));
      assert Step(e, Receive) == (Received(recvq[0]), e1);
      RunStep(e, Receive, Repeat(Receive, n - 1), Received(recvq[0]), e1);
      ReceivesInOrder(e1, n - 1);
      assert recvq[..n][0] == recvq[0] && recvq[..n][1..] == recvq[1..][..n - 1];
      assert recvq[1..][n - 1..] == recvq[n..];
    }
  }

  /** With no exception pending, as many recv calls as there are queued
      datagrams return all of them in queue order and empty the queue. */
  lemma ReceivesAll(e: Endpoint)
    requires e.q.excq == []
    ensures Run(e, Repeat(Receive, |e.q.recvq|)) == (Receiveds(e.q.recvq), e.(q := Queues([], [])))
  {
    var n := |e.q.recvq|;
    ReceivesInOrder(e, n);
    assert e.q.recvq[..n] == e.q.recvq;
    assert e.q.recvq[n..] == [];
  }

  /** FIFO delivery: datagrams that arrive one after another and are then
      read by as many recv calls come out in arrival order, after whatever
      was already queued, and the receive queue ends empty. */
  lemma FifoDelivery(e: Endpoint, ds: seq<Datagram>)
    requires e.q.excq == []
    ensures Run(e, Arrivals(ds) + Repeat(Receive, |e.q.recvq| + |ds|))
         == (Dones(|ds|) + Receiveds(e.q.recvq + ds), e.(q := Queues([], [])))
  {
    var e1 := e.(q := e.q.(recvq := e.q.recvq + ds));
    ArrivalsAppend(e, ds);
    ReceivesAll(e1);
    assert |e1.q.recvq| == |e.q.recvq| + |ds|;
    assert e1.(q := Queues([], [])) == e.(q := Queues([], []));
    RunThen(e, Arrivals(ds), Repeat(Receive, |e.q.recvq| + |ds|),
            Dones(|ds|), e1, Receiveds(e.q.recvq + ds), e.(q := Queues([], [])));
  }

  /** While exceptions are pending, both the `exception` check and recv
      raise them one per call, oldest first, and leave the receive queue
      untouched: a raised exception consumes no datagram. */
  lemma {:induction false} PendingFaultsFirst(e: Endpoint, ev: Event, k: nat)
    requires ev == CheckException || ev == Receive
    requires k <= |e.q.excq|
    ensures Run(e, Repeat(ev, k))
         == (Raiseds(e.q.excq[..k]), e.(q := e.q.(excq := e.q.excq[k..])))
    decreases k
  {
    if k == 0 {
      RunNil(e);
      assert e.q.excq[..k] == [];
      assert e.q.excq[k..] == e.q.excq;
    } else {
      var excq := e.q.excq;
      var e1 := e.(q := e.q.(excq := excq[1..]));
      assert Step(e, ev) == (Raised(excq[0]), e1);
      RunStep(e, ev, Repeat(ev, k - 1), Raised(excq[0]), e1);
      PendingFaultsFirst(e1, ev, k - 1);
      assert excq[..k][0] == excq[0] && excq[..k][1..] == excq[1..][..k - 1];
      assert excq[1..][k - 1..] == excq[k..];
    }
  }

  /** Every pending exception is raised by the `exception` check or by recv,
      one per call, in the order it was reported. */
  lemma AllPendingFaults(e: Endpoint, ev: Event)
    requires ev == CheckException || ev == Receive
    ensures Run(e, Repeat(ev, |e.q.excq|)) == (Raiseds(e.q.excq), e.(q := e.q.(excq := [])))
  {
    var n := |e.q.excq|;
    PendingFaultsFirst(e, ev, n);
    assert e.q.excq[..n] == e.q.excq;
    assert e.q.excq[n..] == [];
  }

  /** Every queued exception is raised exactly once, in the order it was
      reported; the check after the last one returns None. */
  lemma ExceptionsRaisedOnceInOrder(e: Endpoint)
    ensures Run(e, Repeat(CheckException, |e.q.excq|) + [CheckException])
         == (Raiseds(e.q.excq) + [Done], e.(q := e.q.(excq := [])))
  {
    var e1 := e.(q := e.q.(excq := []));
    AllPendingFaults(e, CheckException);
    assert Step(e1, CheckException) == (Done, e1);
    RunSingle(e1, CheckException, Done, e1);
    RunThen(e, Repeat(CheckException, |e.q.excq|), [CheckException],
            Raiseds(e.q.excq), e1, [Done], e1);
  }

  /** recv on an endpoint with pending exceptions raises each of them and
      then returns the datagram that was at the head of the queue all along. */
  lemma RaisedFaultsKeepDatagram(e: Endpoint)
    requires e.q.recvq != []
    ensures Run(e, Repeat(Receive, |e.q.excq|) + [Receive])
         == (Raiseds(e.q.excq) + [Received(e.q.recvq[0])], e.(q := Queues(e.q.recvq[1..], [])))
  {
    var e1 := e.(q := e.q.(excq := []));
    var e2 := e.(q := Queues(e.q.recvq[1..], []));
    AllPendingFaults(e, Receive);
    assert Step(e1, Receive) == (Received(e.q.recvq[0]), e2);
    RunSingle(e1, Receive, Received(e.q.recvq[0]), e2);
    RunThen(e, Repeat(Receive, |e.q.excq|), [Receive],
            Raiseds(e.q.excq), e1, [Received(e.q.recvq[0])], e2);
  }

  /** With no exception pending, each send issues exactly one sendto, with
      the caller's data and address, in call order. */
  lemma {:induction false} SendsIssuedInOrder(e: Endpoint, calls: seq<SendCall>)
    requires e.q.excq == []
    ensures Run(e, Sends(calls)) == (Dones(|calls|), e.(sent := e.sent + calls))
    decreases |calls|
  {
    if calls == [] {
      RunNil(e);
      assert e.sent + calls == e.sent;
    } else {
      var e1 := e.(sent := e.sent + [calls[0]]);
      assert Step(e, Send(calls[0])) == (Done, e1);
      RunStep(e, Send(calls[0]), Sends(calls[1..]), Done, e1);
      SendsIssuedInOrder(e1, calls[1..]);
      assert (e.sent + [calls[0]]) + calls[1..] == e.sent + ([calls[0]] + calls[1..]);
      assert [calls[0]] + calls[1..] == calls;
    }
  }

  /** error_received does not tear the endpoint down: the next send raises
      the reported exception without issuing sendto, and the send after it
      goes out as usual. */
  lemma ErrorKeepsEndpointUsable(e: Endpoint, f: Fault, c1: SendCall, c2: SendCall)
    requires e.q.excq == []
    ensures Run(e, [Errored(f), Send(c1), Send(c2)])
         == ([Done, Raised(f), Done], e.(sent := e.sent + [c2]))
  {
    var e1 := e.(q := e.q.(excq := [f]));
    var e3 := e.(sent := e.sent + [c2]);
    assert Step(e, Send(c2)) == (Done, e3);
    RunSingle(e, Send(c2), Done, e3);
    assert Step(e1, Send(c1)) == (Raised(f), e);
    RunStep(e1, Send(c1), [Send(c2)], Raised(f), e);
    assert [Send(c1)] + [Send(c2)] == [Send(c1), Send(c2)];
    assert [Raised(f)] + [Done] == [Raised(f), Done];
    assert Step(e, Errored(f)) == (Done, e1);
    RunStep(e, Errored(f), [Send(c1), Send(c2)], Done, e1);
    assert [Errored(f)] + [Send(c1), Send(c2)] == [Errored(f), Send(c1), Send(c2)];
    assert [Done] + [Raised(f), Done] == [Done, Raised(f), Done];
  }

  /** A recv that found both queues empty is issued again after an error
      and a datagram have arrived: the second recv raises the error and
      leaves the datagram queued. (A suspended recv that asyncio resumes
      would instead be handed the datagram, with the error still pending.) */
  lemma ReissuedRecvRaisesFirst(e: Endpoint, f: Fault, d: Datagram)
    requires e.q == Queues([], [])
    ensures Run(e, [Receive, Errored(f), Arrived(d), Receive])
         == ([Blocked, Done, Done, Raised(f)], e.(q := Queues([d], [])))
  {
    var e1 := e.(q := Queues([], [f]));
    var e3 := e.(q := Queues([d], []));
    ArrivalThenRaise(e1, f, d);
    assert Step(e, Errored(f)) == (Done, e1);
    RunStep(e, Errored(f), [Arrived(d), Receive], Done, e1);
    assert [Errored(f)] + [Arrived(d), Receive] == [Errored(f), Arrived(d), Receive];
    assert [Done] + [Done, Raised(f)] == [Done, Done, Raised(f)];
    assert Step(e, Receive) == (Blocked, e);
    RunStep(e, Receive, [Errored(f), Arrived(d), Receive], Blocked, e);
    assert [Receive] + [Errored(f), Arrived(d), Receive] == [Receive, Errored(f), Arrived(d), Receive];
    assert [Blocked] + [Done, Done, Raised(f)] == [Blocked, Done, Done, Raised(f)];
  }

  /** The second half of ReissuedRecvRaisesFirst: a datagram arrives while
      an error is pending, and recv raises the error. */
  lemma ArrivalThenRaise(e1: Endpoint, f: Fault, d: Datagram)
    requires e1.q == Queues([], [f])
    ensures Run(e1, [Arrived(d), Receive]) == ([Done, Raised(f)], e1.(q := Queues([d], [])))
  {
    var e2 := e1.(q := Queues([d], [f]));
    var e3 := e1.(q := Queues([d], []));
    assert Step(e2, Receive) == (Raised(f), e3);
    RunSingle(e2, Receive, Raised(f), e3);
    assert Step(e1, Arrived(d)) == (Done, e2);
    RunStep(e1, Arrived(d), [Receive], Done, e2);
    assert [Arrived(d)] + [Receive] == [Arrived(d), Receive];
    assert [Done] + [Raised(f)] == [Done, Raised(f)];
  }

  // ---------------------------------------------------------------------
  // Conservation over any trace

  /** The datagram one outcome hands to the caller, if any. */
  function DatagramOut(o: Outcome): seq<Datagram> {
    if o.Received? then [o.datagram] else []
  }

  /** The exception one outcome raises, if any. */
  function FaultOut(o: Outcome): seq<Fault> {
    if o.Raised? then [o.fault] else []
  }

  /** The datagrams recv handed out over a run, in order. */
  function Delivered(outs: seq<Outcome>): seq<Datagram>
    decreases |outs|
  {
    if outs == [] then [] else DatagramOut(outs[0]) + Delivered(outs[1..])
  }

  /** The exceptions raised over a run, in order. */
  function RaisedFaults(outs: seq<Outcome>): seq<Fault>
    decreases |outs|
  {
    if outs == [] then [] else FaultOut(outs[0]) + RaisedFaults(outs[1..])
  }

  /** One step neither loses, duplicates nor reorders a datagram: what it
      hands out, followed by the receive queue after it, is the receive
      queue before it followed by what it delivers. */
  lemma StepConservesDatagrams(e: Endpoint, ev: Event)
    ensures DatagramOut(Step(e, ev).0) + Step(e, ev).1.q.recvq == e.q.recvq + DatagramOf(ev)
  {
    if ev.Receive? {
      var r := Recv(e.q);
      if r.0.Received? {
        assert [r.0.datagram] + r.1.recvq == e.q.recvq;
      } else {
        assert r.1.recvq == e.q.recvq;
      }
    } else if !ev.Arrived? {
      assert Step(e, ev).1.q.recvq == e.q.recvq;
      assert !Step(e, ev).0.Received?;
    }
  }

  /** One step neither loses, duplicates nor reorders an exception. */
  lemma StepConservesFaults(e: Endpoint, ev: Event)
    ensures FaultOut(Step(e, ev).0) + Step(e, ev).1.q.excq == e.q.excq + FaultOf(ev)
  {
    match ev
    case Receive =>
      var r := Recv(e.q);
      if r.0.Raised? {
        assert [r.0.fault] + r.1.excq == e.q.excq;
      } else {
        assert r.1.excq == e.q.excq;
      }
    case CheckException =>
      var r := Exception(e.q);
      if r.0.Raised? {
        assert [r.0.fault] + r.1.excq == e.q.excq;
      }
    case Send(call) =>
      var r := SendStep(e, call);
      if r.0.Raised? {
        assert [r.0.fault] + r.1.q.excq == e.q.excq;
      }
    case _ =>
  }

  lemma DeliveredCons(o: Outcome, outs: seq<Outcome>)
    ensures Delivered([o] + outs) == DatagramOut(o) + Delivered(outs)
  {
    assert ([o] + outs)[0] == o && ([o] + outs)[1..] == outs;
  }

  lemma RaisedFaultsCons(o: Outcome, outs: seq<Outcome>)
    ensures RaisedFaults([o] + outs) == FaultOut(o) + RaisedFaults(outs)
  {
    assert ([o] + outs)[0] == o && ([o] + outs)[1..] == outs;
  }

  /** The bookkeeping of one induction step: a first step that conserves
      items, followed by a rest that conserves them, conserves them. */
  lemma Chain<T>(out: seq<T>, restOut: seq<T>, before: seq<T>, mid: seq<T>, after: seq<T>, input: seq<T>, restIn: seq<T>)
    requires out + mid == before + input
    requires restOut + after == mid + restIn
    ensures (out + restOut) + after == before + (input + restIn)
  {
    calc {
      (out + restOut) + after;
      out + (restOut + after);
      out + (mid + restIn);
      (out + mid) + restIn;
      (before + input) + restIn;
    }
  }

  /** Datagram conservation over any trace, whatever it interleaves: the
      datagrams recv handed out, followed by those still queued, are
      exactly the datagrams queued at the start followed by those that
      arrived, in arrival order. No datagram is lost, duplicated or
      reordered. */
  lemma {:induction false} DatagramsConserved(e: Endpoint, evs: seq<Event>)
    ensures Delivered(Run(e, evs).0) + Run(e, evs).1.q.recvq == e.q.recvq + Datagrams(evs)
    decreases |evs|
  {
    if evs == [] {
      RunNil(e);
      assert e.q.recvq + [] == e.q.recvq;
    } else {
      var o, e1 := Step(e, evs[0]).0, Step(e, evs[0]).1;
      var rest := Run(e1, evs[1..]);
      RunFirst(e, evs);
      DeliveredCons(o, rest.0);
      StepConservesDatagrams(e, evs[0]);
      DatagramsConserved(e1, evs[1..]);
      Chain(DatagramOut(o), Delivered(rest.0), e.q.recvq, e1.q.recvq, rest.1.q.recvq,
            DatagramOf(evs[0]), Datagrams(evs[1..]));
    }
  }

  /** Exception conservation over any trace, whatever it interleaves: the
      exceptions raised, followed by those still pending, are exactly the
      exceptions pending at the start followed by those error_received and
      connection_lost reported, in report order. Every reported exception
      is raised at most once, and none is raised out of order. */
  lemma {:induction false} FaultsConserved(e: Endpoint, evs: seq<Event>)
    ensures RaisedFaults(Run(e, evs).0) + Run(e, evs).1.q.excq == e.q.excq + Faults(evs)
    decreases |evs|
  {
    if evs == [] {
      RunNil(e);
      assert e.q.excq + [] == e.q.excq;
    } else {
      var o, e1 := Step(e, evs[0]).0, Step(e, evs[0]).1;
      var rest := Run(e1, evs[1..]);
      RunFirst(e, evs);
      RaisedFaultsCons(o, rest.0);
      StepConservesFaults(e, evs[0]);
      FaultsConserved(e1, evs[1..]);
      Chain(FaultOut(o), RaisedFaults(rest.0), e.q.excq, e1.q.excq, rest.1.q.excq,
            FaultOf(evs[0]), Faults(evs[1..]));
    }
  }

  // ---------------------------------------------------------------------
  // Lifecycle

  /** connection_lost closes the transport it holds and empties the slot;
      a second connection_lost changes nothing but the exception queue. */
  lemma TeardownIdempotent(e: Endpoint, first: Option<Fault>, second: Option<Fault>)
    ensures var e1 := Step(e, Lost(first)).1;
      && !e1.attached && e1.closing == (e.closing || e.attached)
      && Step(e1, Lost(second)) == (Done, e1.(q := ConnectionLost(e1.q, second)))
      && Step(e1, Lost(None)).1 == e1
  {
  }
}
