# asyncio-dgram bridge, modelled in Dafny

asyncio-dgram wraps asyncio's callback-driven datagram endpoints in
call-and-return streams. Each endpoint has two halves that share two
queues:

- the **Protocol** is the event sink. asyncio calls it with
  `connection_made`, `connection_lost`, `datagram_received` and
  `error_received`. It appends to a receive queue of `(data, addr)` pairs
  and to an exception queue, and it keeps a slot for the transport;
- the **DatagramStream** is the facade. Its `exception` property raises the
  oldest pending exception. `recv` checks for an exception, then takes the
  oldest datagram. `send` checks for an exception, then calls
  `transport.sendto`. `close` closes the transport.
  `DatagramServer.send` takes a destination address;
  `DatagramClient.send` always passes `None`.

The project has four modules:

- `Types` (types.dfy) holds the values that cross between the halves:
  payload bytes, addresses, exceptions (`Fault`), datagrams and `sendto` calls.
- `Bridge` (bridge.dfy) is a value-level reference model. It has one
  function per callback and per stream operation over the shared `Queues`.
  An `Endpoint` adds the transport slot, the transport's closed flag and the
  log of `sendto` calls. `Step` applies one event and `Run` applies a trace
  of them.
- `Traces` (traces.dfy) proves properties of runs:
  - over any trace, whatever it interleaves, the datagrams `recv` hands
    out followed by those still queued are exactly the datagrams that
    arrived, in arrival order;
  - over any trace, the exceptions raised followed by those still pending
    are exactly the exceptions reported, in report order, so none is
    raised twice or out of order;
  - errors never reorder datagrams;
  - a raised exception consumes no datagram;
  - sends go out exactly as issued;
  - an `error_received` leaves the endpoint usable;
  - teardown is idempotent.
- `Aio` (aio.dfy) models the objects of `asyncio_dgram/aio.py`: the
  classes `Transport`, `Queue`, `Protocol`, `DatagramStream`,
  `DatagramServer` and `DatagramClient`, plus `bind`, `connect` and the echo
  exchange from the tests. The postconditions of the queue-handling methods
  (`DatagramReceived`, `ErrorReceived`, `ConnectionLost`, `Exception`,
  `Send`, `Recv`) tie their new queues to the `Bridge` function of the same
  name. `ConnectionMade`, `Close` and the constructors state their effect
  directly. `Apply` ties every callback and stream operation of a wired
  Protocol and stream to `Bridge.Step`. `ApplyAll` applies a
  whole trace in a loop and proves that the outcomes and the final state
  are those of `Bridge.Run`, so the `Traces` lemmas hold of the objects.

The tests ask for more than `asyncio_dgram/aio.py` provides, and the model
follows `aio.py`:
- test/test_aio.py:497-533 expects a `TransportClosed` error, which `aio.py`
  does not define. `send` after `close` still calls `sendto`
  (asyncio_dgram/aio.py:71-79), and `recv` on an empty queue suspends even
  after `close` (asyncio_dgram/aio.py:88-89).
- test/test_aio.py:408-492 checks a write-flow gate: the Protocol's
  `pause_writing` and `resume_writing` and the stream's `_drained` event.
  `aio.py` has none of them. It also has no `from_socket`, which those tests
  and test/test_aio.py:223-291 call, and `bind` takes no `reuse_port`
  argument (test/test_aio.py:536-554).
- `DatagramClient.send` takes no address (asyncio_dgram/aio.py:111-115). A
  client can only send to its connected peer.

## Model

| member | source | states |
|---|---|---|
| `Bridge.DatagramReceived` | asyncio_dgram/aio.py:154-155 | the pair is appended at the back of the receive queue; the old entries keep their places and the exception queue is unchanged |
| `Bridge.ErrorReceived` | asyncio_dgram/aio.py:157-158 | the exception is appended at the back of the exception queue; the receive queue is unchanged |
| `Bridge.ConnectionLost` | asyncio_dgram/aio.py:146-148 | with `None` the queues are unchanged; with an exception it is queued exactly as `error_received` would queue it; the receive queue is never touched |
| `Bridge.Exception` | asyncio_dgram/aio.py:39-49 | returns None exactly when no exception is pending, and then changes nothing; otherwise raises the oldest one and removes only that one; the receive queue is untouched |
| `Bridge.Recv` | asyncio_dgram/aio.py:81-90 | raises exactly when an exception is pending, removing that exception and no datagram; suspends exactly when both queues are empty, changing nothing; otherwise returns the head datagram and removes exactly it |
| `Bridge.SendStep` | asyncio_dgram/aio.py:71-79 | exactly one `sendto(data, addr)` is issued when no exception is pending; otherwise the oldest exception is raised and nothing is sent; the slot, the closed flag and the receive queue do not change |
| `Bridge.Opened` | asyncio_dgram/aio.py:171-179 | a freshly bound or connected endpoint has both queues empty, holds its transport, is open and has sent nothing |
| `Bridge.Step` | asyncio_dgram/aio.py:39-158 | only `send` issues `sendto`; only the two connection callbacks change the slot; `connection_made` fills an empty slot, and on a full one fails and changes nothing; `close` closes the transport and changes nothing else; after `connection_lost` the slot is empty and a transport it held is closed; a closed transport stays closed; only arrivals and `recv` touch the receive queue |
| `Bridge.Run` | asyncio_dgram/aio.py:65-69 | each event of a trace yields one outcome; once the transport is closed it stays closed for the rest of any trace |
| `Traces.SinkAppendsInOrder` | asyncio_dgram/aio.py:154-158 | any interleaving of `datagram_received` and `error_received` extends each queue by exactly its own items in arrival order; errors never reorder, drop or duplicate datagrams; nothing else changes |
| `Traces.ArrivalsAppend` | asyncio_dgram/aio.py:154-155 | a run of `datagram_received` calls appends its datagrams, in order, to the receive queue |
| `Traces.ReceivesInOrder` | asyncio_dgram/aio.py:81-90 | with no exception pending, n calls of `recv` return the first n queued datagrams in queue order and remove exactly those |
| `Traces.ReceivesAll` | asyncio_dgram/aio.py:88-90 | with no exception pending, as many `recv` calls as there are queued datagrams return all of them in queue order and empty the receive queue |
| `Traces.FifoDelivery` | asyncio_dgram/aio.py:88-90 | datagrams that arrive and are then read by as many `recv` calls come out in arrival order, after those already queued, leaving the receive queue empty |
| `Traces.PendingFaultsFirst` | asyncio_dgram/aio.py:45-49 | while exceptions are pending, both the `exception` check and `recv` raise them one per call, oldest first, and leave the receive queue as it was |
| `Traces.AllPendingFaults` | asyncio_dgram/aio.py:45-49 | as many `exception` checks, or as many `recv` calls, as there are pending exceptions raise all of them in the order they were reported and empty the exception queue |
| `Traces.ExceptionsRaisedOnceInOrder` | asyncio_dgram/aio.py:39-49 | every queued exception is raised exactly once, in the order it was reported, and the next check returns None |
| `Traces.ReissuedRecvRaisesFirst` | asyncio_dgram/aio.py:81-90 | a `recv` that found both queues empty, issued again after an error and then a datagram arrive, raises the error and leaves the datagram queued |
| `Traces.RaisedFaultsKeepDatagram` | asyncio_dgram/aio.py:81-90 | `recv` raises each pending exception and then returns the datagram that was at the head of the queue before the first raise |
| `Traces.SendsIssuedInOrder` | asyncio_dgram/aio.py:71-79 | with no exception pending, each `send` issues exactly one `sendto` with the caller's data and address, in call order |
| `Traces.ErrorKeepsEndpointUsable` | asyncio_dgram/aio.py:157-158 | after `error_received` the next `send` raises the reported exception without sending, and the following `send` goes out normally |
| `Traces.DatagramsConserved` | asyncio_dgram/aio.py:81-155 | for any trace, whatever it interleaves, the datagrams `recv` returned followed by the receive queue at the end equal the receive queue at the start followed by every datagram `datagram_received` queued, in arrival order: none is lost, duplicated or reordered |
| `Traces.FaultsConserved` | asyncio_dgram/aio.py:39-158 | for any trace, the exceptions raised by the `exception` check, `send` and `recv`, followed by the exception queue at the end, equal the exception queue at the start followed by every exception `error_received` and `connection_lost` reported, in report order: each is raised at most once and oldest first |
| `Traces.TeardownIdempotent` | asyncio_dgram/aio.py:146-152 | `connection_lost` empties the slot and closes a held transport; a second call only queues its exception, and a second call with `None` changes nothing |
| `Aio.Protocol.constructor` | asyncio_dgram/aio.py:125-134 | the Protocol keeps the two queues it is given and starts with an empty transport slot |
| `Aio.Protocol.ConnectionMade` | asyncio_dgram/aio.py:136-144 | on an empty slot the new transport takes it; on a full slot the call raises (the `warnings.warn` call fails) and the slot keeps the old transport |
| `Aio.Protocol.ConnectionMadeAsIntended` | asyncio_dgram/aio.py:136-144 | the intended behaviour: the new transport always takes the slot, and a warning is reported exactly when one was already there |
| `Aio.Protocol.ConnectionLost` | asyncio_dgram/aio.py:146-152 | the exception is queued only when present; the slot ends empty; a transport it held has been closed, with no `sendto` issued |
| `Aio.Protocol.DatagramReceived` | asyncio_dgram/aio.py:154-155 | the shared queues change as `Bridge.DatagramReceived` says; the transport slot is not touched |
| `Aio.Protocol.ErrorReceived` | asyncio_dgram/aio.py:157-158 | the shared queues change as `Bridge.ErrorReceived` says; the transport slot is not touched, so the endpoint stays usable |
| `Aio.DatagramStream.constructor` | asyncio_dgram/aio.py:24-34 | the stream keeps the transport and the two queues it is given |
| `Aio.DatagramStream.Exception` | asyncio_dgram/aio.py:39-49 | the result and the new queues are those of `Bridge.Exception` |
| `Aio.DatagramStream.Close` | asyncio_dgram/aio.py:65-69 | the transport is closed and nothing is sent |
| `Aio.DatagramStream.Send` | asyncio_dgram/aio.py:71-79 | the exception check matches `Bridge.Exception`; the `sendto` log grows by exactly `(data, addr)` when nothing was raised and is unchanged otherwise; the transport is not closed |
| `Aio.DatagramStream.Recv` | asyncio_dgram/aio.py:81-90 | the result and the new queues are those of `Bridge.Recv` |
| `Aio.DatagramServer.Send` | asyncio_dgram/aio.py:98-103 | as `DatagramStream.Send`, with the caller's address forwarded to `sendto` exactly as given |
| `Aio.DatagramClient.Send` | asyncio_dgram/aio.py:111-115 | as `DatagramStream.Send`, with address `None` forwarded to `sendto` |
| `Aio.Apply` | asyncio_dgram/aio.py:118-158 | on a Protocol and stream sharing their queues and transport, every callback and stream operation produces exactly the outcome and state of `Bridge.Step`, and the pair stays wired |
| `Aio.ApplyAll` | asyncio_dgram/aio.py:24-158 | applying any trace of callbacks and stream operations in order to a wired pair yields exactly the outcomes and the final state of `Bridge.Run` |
| `Aio.Bind` | asyncio_dgram/aio.py:161-179 | returns a new Protocol and a new DatagramServer over the same new, empty queues; the Protocol's slot holds the server's transport |
| `Aio.Connect` | asyncio_dgram/aio.py:182-199 | returns a new Protocol and a new DatagramClient over the same new, empty queues; the Protocol's slot holds the client's transport |
| `Aio.Echo` | test/test_aio.py:322-340 | the client's "hi" goes to `sendto` with no address and reaches the server with the client's address; the server's "bye" goes to `sendto` with that address and reaches the client with the server's address |
| `Aio.ReestablishKeepsFirst` | asyncio_dgram/aio.py:136-144 | a second `connection_made` with a different transport raises, and the Protocol still holds the first transport |
| `Aio.ReestablishTakesSecond` | asyncio_dgram/aio.py:136-144 | with the intended `connection_made`, a second call warns and the Protocol holds the second transport |
| `Aio.RecvFromUnboundSender` | test/test_aio.py:195-201 | a datagram from a sender with no address (an unbound AF_UNIX socket) reaches the server with address None, and `recv` returns that None unchanged |

## Findings

| source | as written | input that shows it | evidently intended | confidence | as-written member | corrected member |
|---|---|---|---|---|---|---|
| asyncio_dgram/aio.py:140-142 | the old and new peer names are passed to `warnings.warn` as its second and third positional arguments, which are the warning category and the stack level. So `warn` raises TypeError, and the assignment at line 144 is never reached. | `connection_made(t2)` on a Protocol that already holds `t1` | issue a warning that names both peers, then store `t2` | not executed; follows from the signature of `warnings.warn` | `Aio.Protocol.ConnectionMade`, shown by `Aio.ReestablishKeepsFirst` | `Aio.Protocol.ConnectionMadeAsIntended`, shown by `Aio.ReestablishTakesSecond` |

The rest of the model uses the as-written `ConnectionMade`. `Bind` and `Connect` call it only on an empty slot, where both versions agree.

## Left out

- Event-loop scheduling is left out. A `recv` on an empty queue returns `Blocked` and changes nothing, where asyncio suspends the caller until a datagram arrives. Concurrent `recv` calls, cancellation and wakeups are not modelled.
- Aio.DatagramStream.Recv: it does not model the later resumption of a suspended `recv`. After a `Blocked` outcome the caller issues `recv` again, and the re-issued call checks the exception queue first. Suppose an error and then a datagram arrive after the block. The re-issued `recv` raises the error and leaves the datagram queued (`Traces.ReissuedRecvRaisesFirst`). asyncio's resumed `get()` (asyncio_dgram/aio.py:89) would instead return the datagram and leave the error pending.
- `DatagramStream.__del__` (asyncio_dgram/aio.py:36-37) closes the transport from the garbage collector. Finalisation cannot be modelled, and its effect is that of `Close`.
- `sockname` and `peername` (asyncio_dgram/aio.py:51-63) only query the socket through `get_extra_info`. Addresses are opaque here.
- The peer names that `connection_made` looks up for its warning (asyncio_dgram/aio.py:138-139) are not modelled. The failing `warnings.warn` call is modelled as the outcome `WarnFailed`/`raised`, and its TypeError is not given a value. What the event loop does with an exception raised from this callback is not modelled.
- The transport is asyncio's, not this repository's. It is reduced to a closed flag and a log of `sendto` calls. Whether asyncio drops a `sendto` on a closed transport is not modelled.
- The socket and event-loop work inside `create_datagram_endpoint` is a parameter of `Bind`/`Connect`: the transport it returns. This covers address-family selection, binding, connecting and `reuse_address=True`.
- Exceptions are arbitrary Python objects. They are reduced to the `Fault` datatype, whose contents the bridge never inspects.
- `TransportClosed`, `pause_writing`/`resume_writing` with the `_drained` event, `from_socket` and `reuse_port` are absent from `asyncio_dgram/aio.py`, so they are not modelled.
- OS behaviour in the tests, such as ICMP-driven refusals and address-in-use, is not modelled. In `Aio.Echo` the network's delivery of a datagram is a direct call of the receiving Protocol's `datagram_received`.
