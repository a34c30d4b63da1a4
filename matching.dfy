/** The matching rules as pure transitions over the store of pending transactions.
    Each transition yields the new store and the transactions handed to the publisher,
    in the order they are handed over. */
module Matching {
  import opened IcmpTypes

  /** Pending transactions, keyed by the hashable form of the request's tuple. */
  type Store = map<HashKey, Transaction>

  datatype Outcome = Outcome(store: Store, out: seq<Transaction>)

  /** The transaction a request opens: stamped with the request's time, no response, no notes. */
  function Opened(tuple: Tuple, msg: Message): Transaction
  {
    Transaction(msg.ts, tuple, Some(msg), None, [])
  }

  /** The transaction published for a response nobody asked for. */
  function OrphanResponse(c: Collaborators, tuple: Tuple, msg: Message): Transaction
  {
    Transaction(msg.ts, c.reverse(tuple), None, Some(msg), [OrphanedResponseMsg])
  }

  /** `t` with `note` appended to its notes. */
  function Noted(t: Transaction, note: string): Transaction
  {
    t.(notes := t.notes + [note])
  }

  /** Every key other than `k` has the same entry, or the same absence, in `s` and `s'`. */
  ghost predicate OnlyKeyChanged(s: Store, s': Store, k: HashKey)
  {
    forall k' :: k' != k ==> (k' in s' <==> k' in s) && (k' in s ==> s'[k'] == s[k'])
  }

  /** A request: close a pending duplicate under the same key, then either keep the new
      transaction pending or, when no response is expected, hand it over at once. */
  function OnRequest(c: Collaborators, s: Store, tuple: Tuple, msg: Message): (o: Outcome)
    ensures var k := c.hashable(tuple);
      && OnlyKeyChanged(s, o.store, k)
      && (k in o.store <==> c.requiresCounterpart(tuple, msg))
      && (k in o.store ==> o.store[k] == Opened(tuple, msg))
    ensures var k := c.hashable(tuple);
      && |o.out| == (if k in s then 1 else 0) + (if c.requiresCounterpart(tuple, msg) then 0 else 1)
      && (k in s ==> o.out[0] == Noted(s[k], DuplicateRequestMsg))
      && (!c.requiresCounterpart(tuple, msg) ==> o.out[|o.out| - 1] == Opened(tuple, msg))
  {
    var k := c.hashable(tuple);
    var superseded := if k in s then [Noted(s[k], DuplicateRequestMsg)] else [];
    var rest := s - {k};
    var t := Opened(tuple, msg);
    if c.requiresCounterpart(tuple, msg) then Outcome(rest[k := t], superseded)
    else Outcome(rest, superseded + [t])
  }

  /** A response: complete the transaction pending under the reversed tuple's key, or
      hand over an orphan made from the response alone. */
  function OnResponse(c: Collaborators, s: Store, tuple: Tuple, msg: Message): (o: Outcome)
    ensures var k := c.hashable(c.reverse(tuple));
      && OnlyKeyChanged(s, o.store, k) && k !in o.store
      && |o.out| == 1
      && (k in s ==> o.out[0] == s[k].(response := Some(msg)))
      && (k !in s ==> o.out[0] == OrphanResponse(c, tuple, msg))
  {
    var k := c.hashable(c.reverse(tuple));
    var t := if k in s then s[k] else Transaction(msg.ts, c.reverse(tuple), None, None, [OrphanedResponseMsg]);
    Outcome(s - {k}, [t.(response := Some(msg))])
  }

  /** The key a message is filed under: the request's own, or the reversed tuple's for a response. */
  function TouchedKey(c: Collaborators, tuple: Tuple, msg: Message): HashKey
  {
    if c.isRequest(tuple, msg) then c.hashable(tuple) else c.hashable(c.reverse(tuple))
  }

  /** Any message: requests and responses are told apart by `isRequest` alone. */
  function OnMessage(c: Collaborators, s: Store, tuple: Tuple, msg: Message): (o: Outcome)
    ensures OnlyKeyChanged(s, o.store, TouchedKey(c, tuple, msg))
    ensures !c.isRequest(tuple, msg) ==> |o.out| == 1
    ensures c.isRequest(tuple, msg) ==> |o.out| <= 2
  {
    if c.isRequest(tuple, msg) then OnRequest(c, s, tuple, msg) else OnResponse(c, s, tuple, msg)
  }

  /** A timeout eviction: the entry leaves the store and is handed over as an orphaned request. */
  function OnExpire(c: Collaborators, s: Store, k: HashKey): (o: Outcome)
    requires k in s
    ensures OnlyKeyChanged(s, o.store, k) && k !in o.store
    ensures o.out == [Noted(s[k], OrphanedRequestMsg)]
  {
    Outcome(s - {k}, [Noted(s[k], OrphanedRequestMsg)])
  }

  // ---------------------------------------------------------------------------
  // The store invariant

  /** What the store holds under `k`: a request-only transaction opened under `k`. */
  ghost predicate Pending(c: Collaborators, k: HashKey, t: Transaction)
  {
    && t.request.Some? && t.response.None? && t.notes == []
    && t.ts == t.request.value.ts
    && k == c.hashable(t.tuple)
  }

  ghost predicate AllPending(c: Collaborators, s: Store)
  {
    forall k :: k in s ==> Pending(c, k, s[k])
  }

  lemma MessageKeepsPending(c: Collaborators, s: Store, tuple: Tuple, msg: Message)
    requires AllPending(c, s)
    ensures AllPending(c, OnMessage(c, s, tuple, msg).store)
  {
  }

  lemma ExpireKeepsPending(c: Collaborators, s: Store, k: HashKey)
    requires AllPending(c, s) && k in s
    ensures AllPending(c, OnExpire(c, s, k).store)
  {
  }

  // ---------------------------------------------------------------------------
  // What is handed over, given the store invariant

  /** A superseded request is handed over with its request only and the duplicate note alone. */
  lemma SupersededRequest(c: Collaborators, s: Store, tuple: Tuple, msg: Message)
    requires AllPending(c, s) && c.hashable(tuple) in s
    ensures var t := OnRequest(c, s, tuple, msg).out[0];
      && t.request.Some? && t.response.None? && t.notes == [DuplicateRequestMsg]
      && t == Noted(s[c.hashable(tuple)], DuplicateRequestMsg)
  {
  }

  /** A matched response completes the pending transaction: its request and time are kept,
      the response is attached, and no note is added. */
  lemma CompletedTransaction(c: Collaborators, s: Store, tuple: Tuple, msg: Message)
    requires AllPending(c, s) && c.hashable(c.reverse(tuple)) in s
    ensures var old_ := s[c.hashable(c.reverse(tuple))];
      var t := OnResponse(c, s, tuple, msg).out[0];
      && t.request == old_.request && t.request.Some? && t.ts == t.request.value.ts
      && t.response == Some(msg) && t.notes == [] && t.tuple == old_.tuple
  {
  }

  /** An expired entry is handed over with its request only and the orphaned-request note alone. */
  lemma ExpiredRequest(c: Collaborators, s: Store, k: HashKey)
    requires AllPending(c, s) && k in s
    ensures var t := OnExpire(c, s, k).out[0];
      && t.request == s[k].request && t.request.Some? && t.response.None?
      && t.notes == [OrphanedRequestMsg] && t.ts == s[k].ts && t.tuple == s[k].tuple
  {
  }

  // ---------------------------------------------------------------------------
  // Conservation: no transaction is lost or handed over twice

  /** Transactions a message brings into existence: every request opens one, and a response
      opens one only when it finds nothing to complete. */
  function Created(c: Collaborators, s: Store, tuple: Tuple, msg: Message): nat
  {
    if c.isRequest(tuple, msg) then 1
    else if c.hashable(c.reverse(tuple)) in s then 0
    else 1
  }

  /** Per message: what was pending plus what was created is what is pending now plus
      what was handed over. */
  lemma MessageConserves(c: Collaborators, s: Store, tuple: Tuple, msg: Message)
    ensures var o := OnMessage(c, s, tuple, msg);
      |o.store| + |o.out| == |s| + Created(c, s, tuple, msg)
  {
  }

  lemma ExpireConserves(c: Collaborators, s: Store, k: HashKey)
    requires k in s
    ensures |OnExpire(c, s, k).store| + |OnExpire(c, s, k).out| == |s|
  {
  }

  // ---------------------------------------------------------------------------
  // Runs: sequences of arrivals and timeouts

  /** What the environment does next: a message arrives, or the store's timer evicts a key. */
  datatype Input = Arrive(tuple: Tuple, msg: Message) | Timeout(key: HashKey)

  /** One input; a timeout for a key that is not pending does nothing (the store only
      evicts entries it holds). */
  function Step(c: Collaborators, s: Store, i: Input): Outcome
  {
    match i
    case Arrive(tuple, msg) => OnMessage(c, s, tuple, msg)
    case Timeout(k) => if k in s then OnExpire(c, s, k) else Outcome(s, [])
  }

  /** The inputs applied in order; the handed-over transactions are concatenated. */
  function Run(c: Collaborators, s: Store, inputs: seq<Input>): Outcome
    decreases |inputs|
  {
    if |inputs| == 0 then Outcome(s, [])
    else
      var first := Step(c, s, inputs[0]);
      var rest := Run(c, first.store, inputs[1..]);
      Outcome(rest.store, first.out + rest.out)
  }

  /** Transactions created along a run. */
  function RunCreated(c: Collaborators, s: Store, inputs: seq<Input>): nat
    decreases |inputs|
  {
    if |inputs| == 0 then 0
    else
      var here := match inputs[0]
        case Arrive(tuple, msg) => Created(c, s, tuple, msg)
        case Timeout(_) => 0;
      here + RunCreated(c, Step(c, s, inputs[0]).store, inputs[1..])
  }

  /** Over any run, every transaction that was pending or created is either still pending
      or was handed over once. */
  lemma {:induction false} RunConserves(c: Collaborators, s: Store, inputs: seq<Input>)
    ensures |Run(c, s, inputs).store| + |Run(c, s, inputs).out| == |s| + RunCreated(c, s, inputs)
    decreases |inputs|
  {
    if |inputs| > 0 {
      match inputs[0] {
        case Arrive(tuple, msg) => MessageConserves(c, s, tuple, msg);
        case Timeout(k) => if k in s { ExpireConserves(c, s, k); }
      }
      RunConserves(c, Step(c, s, inputs[0]).store, inputs[1..]);
    }
  }

  /** Along any run from a store of pending transactions, the store stays one. */
  lemma {:induction false} RunKeepsPending(c: Collaborators, s: Store, inputs: seq<Input>)
    requires AllPending(c, s)
    ensures AllPending(c, Run(c, s, inputs).store)
    decreases |inputs|
  {
    if |inputs| > 0 {
      match inputs[0] {
        case Arrive(tuple, msg) => MessageKeepsPending(c, s, tuple, msg);
        case Timeout(k) => if k in s { ExpireKeepsPending(c, s, k); }
      }
      RunKeepsPending(c, Step(c, s, inputs[0]).store, inputs[1..]);
    }
  }

  // ---------------------------------------------------------------------------
  // Whole exchanges

  /** A run of two inputs is the two steps in order. */
  lemma {:induction false} RunOfTwo(c: Collaborators, s: Store, a: Input, b: Input)
    ensures var first := Step(c, s, a);
      var second := Step(c, first.store, b);
      Run(c, s, [a, b]) == Outcome(second.store, first.out + second.out)
  {
    var first := Step(c, s, a);
    assert [a, b][1..] == [b];
    assert [b][1..] == [];
    assert Run(c, first.store, [b]) == Outcome(Step(c, first.store, b).store, Step(c, first.store, b).out + []);
  }

  /** A request that expects a response, then its response: one transaction is handed over,
      carrying both messages, the request's time and no note, and the key is free again. */
  lemma {:induction false} RequestThenResponse(c: Collaborators, s: Store, req: Tuple, m1: Message, resp: Tuple, m2: Message)
    requires c.isRequest(req, m1) && c.requiresCounterpart(req, m1)
    requires !c.isRequest(resp, m2) && c.hashable(c.reverse(resp)) == c.hashable(req)
    requires c.hashable(req) !in s
    ensures Run(c, s, [Arrive(req, m1), Arrive(resp, m2)]) ==
      Outcome(s, [Transaction(m1.ts, req, Some(m1), Some(m2), [])])
  {
    var k := c.hashable(req);
    var s1 := OnRequest(c, s, req, m1).store;
    assert s1 == s[k := Opened(req, m1)];
    assert s1 - {k} == s;
    RunOfTwo(c, s, Arrive(req, m1), Arrive(resp, m2));
  }

  /** Two requests under one key before any response: the first is handed over as superseded,
      the second is pending. */
  lemma {:induction false} DuplicateRequests(c: Collaborators, s: Store, req: Tuple, m1: Message, m2: Message)
    requires c.isRequest(req, m1) && c.requiresCounterpart(req, m1)
    requires c.isRequest(req, m2) && c.requiresCounterpart(req, m2)
    requires c.hashable(req) !in s
    ensures Run(c, s, [Arrive(req, m1), Arrive(req, m2)]) ==
      Outcome(s[c.hashable(req) := Opened(req, m2)],
              [Transaction(m1.ts, req, Some(m1), None, [DuplicateRequestMsg])])
  {
    var k := c.hashable(req);
    var s1 := OnRequest(c, s, req, m1).store;
    assert s1 == s[k := Opened(req, m1)];
    assert (s1 - {k})[k := Opened(req, m2)] == s[k := Opened(req, m2)];
    assert Opened(req, m1).notes + [DuplicateRequestMsg] == [DuplicateRequestMsg];
    RunOfTwo(c, s, Arrive(req, m1), Arrive(req, m2));
  }

  /** A request nobody answers, then the timeout of its key: it is handed over once, as an
      orphaned request. */
  lemma {:induction false} RequestThenTimeout(c: Collaborators, s: Store, req: Tuple, m1: Message)
    requires c.isRequest(req, m1) && c.requiresCounterpart(req, m1)
    requires c.hashable(req) !in s
    ensures Run(c, s, [Arrive(req, m1), Timeout(c.hashable(req))]) ==
      Outcome(s, [Transaction(m1.ts, req, Some(m1), None, [OrphanedRequestMsg])])
  {
    var k := c.hashable(req);
    var s1 := OnRequest(c, s, req, m1).store;
    assert s1 == s[k := Opened(req, m1)];
    assert s1 - {k} == s;
    assert Opened(req, m1).notes + [OrphanedRequestMsg] == [OrphanedRequestMsg];
    RunOfTwo(c, s, Arrive(req, m1), Timeout(k));
  }
}
