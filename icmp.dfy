/** The ICMP analyzer: its settings, the store of pending transactions, and the
    publisher it hands finished transactions to. */
module Icmp {
  import opened IcmpTypes
  import opened Classifier
  import opened Events
  import opened Matching

  /** The ICMP type is the high byte of the 16-bit TypeCode and the code its low byte. */
  function SplitTypeCode(typeCode: uint16): (r: (uint8, uint8))
    ensures r.0 as int * 0x100 + r.1 as int == typeCode as int
  {
    ((typeCode as int / 0x100) as uint8, (typeCode as int % 0x100) as uint8)
  }

  /** The tuple and message built from an ICMP layer of the given version and its packet. */
  function Decoded(c: Collaborators, version: uint8, layer: IcmpLayer, pkt: Packet): (r: (Tuple, Message))
    ensures r.1.typ as int * 0x100 + r.1.code as int == layer.typeCode as int
    ensures r.1.ts == pkt.ts && r.1.length == |layer.base.payload|
    ensures r.0.icmpVersion == version && r.0.srcIp == pkt.srcIp && r.0.dstIp == pkt.dstIp
    ensures (r.0.id, r.0.sequence) == c.extractTrackingData(version, r.1.typ, layer.base)
  {
    var (typ, code) := SplitTypeCode(layer.typeCode);
    var (id, sq) := c.extractTrackingData(version, typ, layer.base);
    (Tuple(version, pkt.srcIp, pkt.dstIp, id, sq), Message(pkt.ts, typ, code, |layer.base.payload|))
  }

  class Icmp {
    var sendRequest: bool
    var sendResponse: bool
    /** Lifetime of a pending transaction, in nanoseconds. */
    var transactionTimeout: int

    const localIps: seq<Ip>
    const collab: Collaborators
    /** Whether a publisher client is attached; without one nothing is published. */
    const hasResults: bool

    /** Pending transactions, keyed by the hashable form of the request's tuple. */
    var transactions: Store
    /** The events the publisher client has received, in order. */
    var published: seq<Event>
    /** Every transaction handed to the publishing step, in order. */
    ghost var closed: seq<Transaction>

    /** Every stored entry is a request-only, note-free transaction filed under its own key. */
    ghost predicate Valid()
      reads this`transactions
    {
      AllPending(collab, transactions)
    }

    /** A new analyzer; `discovered` is the result of local address discovery (None when
        it failed), `results` whether a publisher client is given. */
    constructor (testMode: bool, config: IcmpConfig, defaultExpiration: int,
                 discovered: Option<seq<Ip>>, collab: Collaborators, results: bool)
      ensures Valid()
      ensures transactions == map[] && published == [] && closed == []
      ensures this.collab == collab && hasResults == results
      ensures localIps == (if discovered.Some? then discovered.value else [])
      ensures sendRequest == (!testMode && config.sendRequest == Some(true))
      ensures sendResponse == (!testMode && config.sendResponse == Some(true))
      ensures transactionTimeout ==
        if !testMode && config.transactionTimeout.Some? && config.transactionTimeout.value > 0
        then config.transactionTimeout.value * NanosPerSecond
        else defaultExpiration
    {
      localIps := if discovered.Some? then discovered.value else [];
      this.collab := collab;
      hasResults := results;
      transactions := map[];
      published := [];
      closed := [];
      new;
      InitDefaults(defaultExpiration);
      if !testMode {
        SetFromConfig(config);
      }
    }

    method InitDefaults(defaultExpiration: int)
      modifies this`sendRequest, this`sendResponse, this`transactionTimeout
      ensures !sendRequest && !sendResponse && transactionTimeout == defaultExpiration
    {
      sendRequest := false;
      sendResponse := false;
      transactionTimeout := defaultExpiration;
    }

    /** Options present in `config` override the current settings; the timeout only when positive. */
    method SetFromConfig(config: IcmpConfig)
      modifies this`sendRequest, this`sendResponse, this`transactionTimeout
      ensures sendRequest == if config.sendRequest.Some? then config.sendRequest.value else old(sendRequest)
      ensures sendResponse == if config.sendResponse.Some? then config.sendResponse.value else old(sendResponse)
      ensures transactionTimeout ==
        if config.transactionTimeout.Some? && config.transactionTimeout.value > 0
        then config.transactionTimeout.value * NanosPerSecond
        else old(transactionTimeout)
    {
      if config.sendRequest.Some? {
        sendRequest := config.sendRequest.value;
      }
      if config.sendResponse.Some? {
        sendResponse := config.sendResponse.value;
      }
      if config.transactionTimeout.Some? && config.transactionTimeout.value > 0 {
        transactionTimeout := config.transactionTimeout.value * NanosPerSecond;
      }
    }

    method ProcessICMPv4(icmp4: IcmpLayer, pkt: Packet)
      requires Valid()
      modifies this`transactions, this`published, this`closed
      ensures Valid()
      ensures var (tuple, msg) := Decoded(collab, 4, icmp4, pkt);
        var o := OnMessage(collab, old(transactions), tuple, msg);
        && transactions == o.store && closed == old(closed) + o.out
        && published == old(published) + (if hasResults then EventsOf(collab, localIps, o.out) else [])
    {
      var (tuple, msg) := Decoded(collab, 4, icmp4, pkt);
      ProcessMessage(tuple, msg);
    }

    method ProcessICMPv6(icmp6: IcmpLayer, pkt: Packet)
      requires Valid()
      modifies this`transactions, this`published, this`closed
      ensures Valid()
      ensures var (tuple, msg) := Decoded(collab, 6, icmp6, pkt);
        var o := OnMessage(collab, old(transactions), tuple, msg);
        && transactions == o.store && closed == old(closed) + o.out
        && published == old(published) + (if hasResults then EventsOf(collab, localIps, o.out) else [])
    {
      var (tuple, msg) := Decoded(collab, 6, icmp6, pkt);
      ProcessMessage(tuple, msg);
    }

    method ProcessMessage(tuple: Tuple, msg: Message)
      requires Valid()
      modifies this`transactions, this`published, this`closed
      ensures Valid()
      ensures var o := OnMessage(collab, old(transactions), tuple, msg);
        transactions == o.store && closed == old(closed) + o.out
      ensures var o := OnMessage(collab, old(transactions), tuple, msg);
        published == old(published) + (if hasResults then EventsOf(collab, localIps, o.out) else [])
    {
      if collab.isRequest(tuple, msg) {
        ProcessRequest(tuple, msg);
      } else {
        ProcessResponse(tuple, msg);
      }
    }

    method ProcessRequest(tuple: Tuple, msg: Message)
      requires Valid()
      modifies this`transactions, this`published, this`closed
      ensures Valid()
      ensures var o := OnRequest(collab, old(transactions), tuple, msg);
        transactions == o.store && closed == old(closed) + o.out
      ensures var o := OnRequest(collab, old(transactions), tuple, msg);
        published == old(published) + (if hasResults then EventsOf(collab, localIps, o.out) else [])
    {
      ghost var s0, c0 := transactions, closed;
      var k := collab.hashable(tuple);
      var trans := DeleteTransaction(k);
      if trans.Some? {
        PublishTransaction(Noted(trans.value, DuplicateRequestMsg));
      }
      ghost var superseded := if k in s0 then [Noted(s0[k], DuplicateRequestMsg)] else [];
      var t := Transaction(msg.ts, tuple, Some(msg), None, []);
      ghost var o := OnRequest(collab, s0, tuple, msg);
      if collab.requiresCounterpart(tuple, msg) {
        transactions := transactions[k := t];
        assert o.out == superseded;
      } else {
        PublishTransaction(t);
        assert o.out == superseded + [t];
        EventsOfAppend(collab, localIps, superseded, [t]);
      }
    }

    method ProcessResponse(tuple: Tuple, msg: Message)
      requires Valid()
      modifies this`transactions, this`published, this`closed
      ensures Valid()
      ensures var o := OnResponse(collab, old(transactions), tuple, msg);
        transactions == o.store && closed == old(closed) + o.out
      ensures var o := OnResponse(collab, old(transactions), tuple, msg);
        published == old(published) + (if hasResults then EventsOf(collab, localIps, o.out) else [])
    {
      var revTuple := collab.reverse(tuple);
      var trans := DeleteTransaction(collab.hashable(revTuple));
      var t := if trans.Some? then trans.value
               else Transaction(msg.ts, revTuple, None, None, [OrphanedResponseMsg]);
      PublishTransaction(t.(response := Some(msg)));
    }

    /** Looks up a pending transaction without removing it. */
    method GetTransaction(k: HashKey) returns (t: Option<Transaction>)
      ensures t.Some? <==> k in transactions
      ensures t.Some? ==> t.value == transactions[k]
    {
      t := if k in transactions then Some(transactions[k]) else None;
    }

    /** Removes and returns the pending transaction under `k`, if any. */
    method DeleteTransaction(k: HashKey) returns (t: Option<Transaction>)
      requires Valid()
      modifies this`transactions
      ensures Valid()
      ensures t.Some? <==> k in old(transactions)
      ensures t.Some? ==> t.value == old(transactions)[k]
      ensures transactions == old(transactions) - {k}
    {
      t := if k in transactions then Some(transactions[k]) else None;
      transactions := transactions - {k};
    }

    /** The store's timer evicts the pending entry under `k` and notifies the analyzer. */
    method Expire(k: HashKey)
      requires Valid() && k in transactions
      modifies this`transactions, this`published, this`closed
      ensures Valid()
      ensures var o := OnExpire(collab, old(transactions), k);
        transactions == o.store && closed == old(closed) + o.out
      ensures published == old(published) +
        (if hasResults then [EventOf(collab, localIps, Noted(old(transactions)[k], OrphanedRequestMsg))] else [])
    {
      var t := transactions[k];
      transactions := transactions - {k};
      ExpireTransaction(k, t);
    }

    /** The removal listener: an evicted transaction is closed as an orphaned request. */
    method ExpireTransaction(k: HashKey, t: Transaction)
      modifies this`published, this`closed
      ensures closed == old(closed) + [Noted(t, OrphanedRequestMsg)]
      ensures published == old(published) +
        (if hasResults then [EventOf(collab, localIps, Noted(t, OrphanedRequestMsg))] else [])
    {
      PublishTransaction(Noted(t, OrphanedRequestMsg));
    }

    /** Hands `t` to the publisher client as one event; without a client nothing is sent. */
    method PublishTransaction(t: Transaction)
      modifies this`published, this`closed
      ensures closed == old(closed) + [t]
      ensures published == old(published) + (if hasResults then [EventOf(collab, localIps, t)] else [])
    {
      closed := closed + [t];
      if !hasResults {
        return;
      }
      published := published + [EventOf(collab, localIps, t)];
    }
  }
}
