/** The event published for a transaction: which fields appear and what they hold. */
module Events {
  import opened IcmpTypes
  import opened Classifier

  datatype EventStatus = OkStatus | ErrorStatus

  /** A value stored in an event field; nested objects are maps themselves. */
  datatype Value =
    | IpValue(ip: Ip)
    | Time(ts: int)
    | Text(text: string)
    | Number(n: int)
    | StatusValue(status: EventStatus)
    | NoteList(notes: seq<string>)
    | Object(fields: map<FieldName, Value>)

  /** Field names of an event and of its nested objects. */
  datatype FieldName =
    | ClientIp | DstIp | Timestamp | Type | Count | Path | Status | Notes
    | ResponseTime | BytesIn | BytesOut | IcmpGroupName | Version | Request | Response | MessageText | Code

  /** The name each field carries in the published record. */
  function Name(f: FieldName): string
  {
    match f
    case ClientIp => "client_ip"
    case DstIp => "ip"
    case Timestamp => "@timestamp"
    case Type => "type"
    case Count => "count"
    case Path => "path"
    case Status => "status"
    case Notes => "notes"
    case ResponseTime => "responsetime"
    case BytesIn => "bytes_in"
    case BytesOut => "bytes_out"
    case IcmpGroupName => "icmp"
    case Version => "version"
    case Request => "request"
    case Response => "response"
    case MessageText => "message"
    case Code => "code"
  }

  type Event = map<FieldName, Value>

  /** The `request` or `response` sub-object of the `icmp` group. */
  function MessageObject(c: Collaborators, tuple: Tuple, m: Message): map<FieldName, Value>
  {
    map[MessageText := Text(c.humanReadable(tuple, m)),
        Type := Number(m.typ as int),
        Code := Number(m.code as int)]
  }

  /** The `icmp` group: the version, and a sub-object for each message present. */
  function IcmpGroup(c: Collaborators, t: Transaction): map<FieldName, Value>
  {
    var g := map[Version := Number(t.tuple.icmpVersion as int)];
    var g := if t.request.Some? then g[Request := Object(MessageObject(c, t.tuple, t.request.value))] else g;
    if t.response.Some? then g[Response := Object(MessageObject(c, t.tuple, t.response.value))] else g
  }

  /** The byte counters: which message length counts as "out" and which as "in" depends
      on the direction; a local-only transaction has neither. */
  function ByteCounters(d: Direction, t: Transaction): Event
  {
    var (reqKey, respKey) := if d == FromInside then (BytesOut, BytesIn) else (BytesIn, BytesOut);
    if d == LocalOnly then map[]
    else
      var e := if t.request.Some? then map[reqKey := Number(t.request.value.length)] else map[];
      if t.response.Some? then e[respKey := Number(t.response.value.length)] else e
  }

  /** The event assembled for transaction `t`. Map entries are unordered, so the optional
      fields are gathered first and the fields every event has are added on top. */
  function EventOf(c: Collaborators, localIps: seq<Ip>, t: Transaction): (e: Event)
    ensures e.Keys <= EventKeys
  {
    var rt := c.responseTimeMillis(t);
    var e := ByteCounters(DirectionOf(c, localIps, t), t);
    var e := if |t.notes| > 0 then e[Notes := NoteList(t.notes)] else e;
    var e := if rt.Some? then e[ResponseTime := Number(rt.value)] else e;
    e[ClientIp := IpValue(t.tuple.srcIp)]
     [DstIp := IpValue(t.tuple.dstIp)]
     [Timestamp := Time(t.ts)]
     [Type := Text("icmp")]
     [Count := Number(1)]
     [Path := IpValue(t.tuple.dstIp)]
     [Status := StatusValue(if c.hasError(t) then ErrorStatus else OkStatus)]
     [IcmpGroupName := Object(IcmpGroup(c, t))]
  }

  /** The fields every event carries, whatever the transaction. */
  lemma EventFixedFields(c: Collaborators, localIps: seq<Ip>, t: Transaction)
    ensures var e := EventOf(c, localIps, t);
      && ClientIp in e && e[ClientIp] == IpValue(t.tuple.srcIp)
      && DstIp in e && e[DstIp] == IpValue(t.tuple.dstIp)
      && Path in e && e[Path] == IpValue(t.tuple.dstIp)
      && Timestamp in e && e[Timestamp] == Time(t.ts)
      && Type in e && e[Type] == Text("icmp")
      && Count in e && e[Count] == Number(1)
  {
  }

  /** Status is ERROR exactly when the transaction reports an error; notes and the
      response time appear only when there is something to report. */
  lemma EventStatusNotesResponseTime(c: Collaborators, localIps: seq<Ip>, t: Transaction)
    ensures var e := EventOf(c, localIps, t);
      && Status in e
      && (e[Status] == StatusValue(ErrorStatus) <==> c.hasError(t))
      && (e[Status] == StatusValue(OkStatus) <==> !c.hasError(t))
      && (Notes in e <==> |t.notes| > 0)
      && (Notes in e ==> e[Notes] == NoteList(t.notes))
      && (ResponseTime in e <==> c.responseTimeMillis(t).Some?)
      && (ResponseTime in e ==> e[ResponseTime] == Number(c.responseTimeMillis(t).value))
  {
  }

  /** From inside, the request is outgoing and the response incoming; from outside the
      roles swap; a local-only transaction reports no byte counts. */
  lemma EventByteCounters(c: Collaborators, localIps: seq<Ip>, t: Transaction)
    ensures var e := EventOf(c, localIps, t);
      && (DirectionOf(c, localIps, t) == FromInside ==>
            && (BytesOut in e <==> t.request.Some?) && (BytesIn in e <==> t.response.Some?)
            && (t.request.Some? ==> e[BytesOut] == Number(t.request.value.length))
            && (t.response.Some? ==> e[BytesIn] == Number(t.response.value.length)))
      && (DirectionOf(c, localIps, t) == FromOutside ==>
            && (BytesIn in e <==> t.request.Some?) && (BytesOut in e <==> t.response.Some?)
            && (t.request.Some? ==> e[BytesIn] == Number(t.request.value.length))
            && (t.response.Some? ==> e[BytesOut] == Number(t.response.value.length)))
      && (DirectionOf(c, localIps, t) == LocalOnly ==> BytesIn !in e && BytesOut !in e)
  {
  }

  /** The icmp group holds the version, and a request or response sub-object exactly
      when the transaction has that message. */
  lemma EventIcmpGroup(c: Collaborators, localIps: seq<Ip>, t: Transaction)
    ensures var e := EventOf(c, localIps, t);
      && IcmpGroupName in e && e[IcmpGroupName].Object?
      && var g := e[IcmpGroupName].fields;
      && g.Keys <= {Version, Request, Response}
      && Version in g && g[Version] == Number(t.tuple.icmpVersion as int)
      && (Request in g <==> t.request.Some?)
      && (Response in g <==> t.response.Some?)
      && (t.request.Some? ==> g[Request] == Object(MessageObject(c, t.tuple, t.request.value)))
      && (t.response.Some? ==> g[Response] == Object(MessageObject(c, t.tuple, t.response.value)))
  {
  }

  /** Every field name an ICMP event may carry. */
  const EventKeys: set<FieldName> :=
    {ClientIp, DstIp, Timestamp, Type, Count, Path, Status, Notes,
     ResponseTime, BytesIn, BytesOut, IcmpGroupName}

  /** The events of a sequence of transactions, in order. */
  function EventsOf(c: Collaborators, localIps: seq<Ip>, ts: seq<Transaction>): (es: seq<Event>)
    ensures |es| == |ts|
    ensures forall i :: 0 <= i < |ts| ==> es[i] == EventOf(c, localIps, ts[i])
  {
    if |ts| == 0 then [] else EventsOf(c, localIps, ts[..|ts| - 1]) + [EventOf(c, localIps, ts[|ts| - 1])]
  }

  lemma EventsOfAppend(c: Collaborators, localIps: seq<Ip>, a: seq<Transaction>, b: seq<Transaction>)
    ensures EventsOf(c, localIps, a + b) == EventsOf(c, localIps, a) + EventsOf(c, localIps, b)
  {
  }

}
