/** Values that cross the boundary between the transport, the event sink
    (Protocol) and the stream facade (DatagramStream). Payloads and
    addresses are opaque: the bridge never looks inside them. */
module Types {

  datatype Option<+T> = None | Some(value: T)

  /** The payload of one datagram, exactly as the socket hands it over. */
  type Bytes = seq<bv8>

  /** A socket address: (host, port) for AF_INET; AF_INET6 adds flow
      information and scope id; AF_UNIX uses a path. */
  datatype Address =
    | Inet(host: string, port: nat)
    | Inet6(host: string, port: nat, flowInfo: nat, scopeId: nat)
    | Unix(path: string)

  /** An exception reported by the transport: ConnectionRefusedError from an
      ICMP port-unreachable, or another OSError carrying its errno. */
  datatype Fault = ConnectionRefused | OSError(errno: int)

  /** One entry of the receive queue: the payload and the sender's address,
      which is None when the sender has no address (an unbound AF_UNIX
      socket). */
  datatype Datagram = Datagram(data: Bytes, addr: Option<Address>)

  /** One call `transport.sendto(data, addr)`; `addr` is None when the
      socket's connected peer is to be used. */
  datatype SendCall = SendCall(data: Bytes, addr: Option<Address>)
}
