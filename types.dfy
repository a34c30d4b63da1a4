/** Values shared by the ICMP transaction matcher: tuples, messages, transactions,
    the notes attached on anomalies, and the helpers the matcher calls but does not define. */
module IcmpTypes {

  newtype uint8 = x: int | 0 <= x < 0x100
  newtype uint16 = x: int | 0 <= x < 0x1_0000

  /** A network-layer address (Go's net.IP is a byte slice). */
  type Ip = seq<uint8>

  /** The hashable form of a tuple, used as the key of the transaction store. */
  type HashKey = seq<uint8>

  datatype Option<T> = None | Some(value: T)

  /** Identity of one direction of an ICMP exchange. */
  datatype Tuple = Tuple(icmpVersion: uint8, srcIp: Ip, dstIp: Ip, id: uint16, sequence: uint16)

  /** One observed ICMP message; timestamps are abstract integers. */
  datatype Message = Message(ts: int, typ: uint8, code: uint8, length: nat)

  /** A request, optionally paired with its response, plus anomaly notes. */
  datatype Transaction = Transaction(
    ts: int,
    tuple: Tuple,
    request: Option<Message>,
    response: Option<Message>,
    notes: seq<string>)

  /** The header and payload bytes of a decoded ICMP layer. */
  datatype BaseLayer = BaseLayer(contents: seq<uint8>, payload: seq<uint8>)

  /** An ICMPv4 or ICMPv6 layer: the 16-bit TypeCode and its base layer. */
  datatype IcmpLayer = IcmpLayer(typeCode: uint16, base: BaseLayer)

  /** The parts of a captured packet the matcher reads. */
  datatype Packet = Packet(ts: int, srcIp: Ip, dstIp: Ip)

  /** Configuration of the ICMP analyzer; an absent option keeps its default. */
  datatype IcmpConfig = IcmpConfig(
    sendRequest: Option<bool>,
    sendResponse: Option<bool>,
    transactionTimeout: Option<int>)

  const DuplicateRequestMsg: string :=
    "Another request with the same Id and Seq was received so this request was closed without receiving a response."
  const OrphanedRequestMsg: string := "Request was received without an associated response."
  const OrphanedResponseMsg: string := "Response was received without an associated request."

  /** Nanoseconds in a second: a time.Duration counts nanoseconds. */
  const NanosPerSecond: int := 1_000_000_000

  /** The helpers the matcher uses whose definitions live outside its file.
      Each is taken as an arbitrary total function: nothing is assumed about it. */
  datatype Collaborators = Collaborators(
    isRequest: (Tuple, Message) -> bool,
    requiresCounterpart: (Tuple, Message) -> bool,
    reverse: Tuple -> Tuple,
    hashable: Tuple -> HashKey,
    extractTrackingData: (uint8, uint8, BaseLayer) -> (uint16, uint16),
    hasError: Transaction -> bool,
    responseTimeMillis: Transaction -> Option<int>,
    humanReadable: (Tuple, Message) -> string,
    isLoopback: Ip -> bool,
    ipEqual: (Ip, Ip) -> bool)
}
