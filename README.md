# ICMP transaction matcher (packetbeat) in Dafny

This project models the ICMP protocol analyzer of packetbeat
(`packetbeat/protos/icmp/icmp.go`). The analyzer pairs ICMP requests with their responses.
It keeps a store of pending transactions, keyed by the hashable form of the request's tuple.

For each message it does one of four things:
- opens a pending transaction;
- completes one with a response;
- closes a superseded duplicate request;
- publishes an orphaned response.

When the store's timer evicts an unanswered request, the request is published as an orphan.
Published transactions become events. Each event records a status, notes, byte counters that
depend on traffic direction, and request and response sub-objects.

Files and modules:

- `types.dfy`, module `IcmpTypes`: tuples, messages, transactions, the three anomaly notes,
  the configuration record, and `Collaborators`. `Collaborators` is a record of the helpers
  the file calls but does not define: `isRequest`, `requiresCounterpart`, `Reverse`,
  `Hashable`, `extractTrackingData`, `HasError`, `ResponseTimeMillis`, `humanReadable`,
  `IsLoopback` and `net.IP.Equal`. Each is an arbitrary total function, and the proofs
  assume nothing about any of them.
- `classifier.dfy`, module `Classifier`: `isLocalIp` and `direction`.
- `events.dfy`, module `Events`: the event assembled by `publishTransaction`.
- `matching.dfy`, module `Matching`: the matching rules as pure transitions from a store to
  a new store, plus the transactions handed to the publisher. It also holds the store
  invariant, conservation over whole runs, and three end-to-end exchanges.
- `icmp.dfy`, module `Icmp`: the class `Icmp`. It has the settings, the `transactions`
  store as a `map` field, and the publisher client's received events as a `seq` field. A
  ghost log `closed` records every transaction handed to the publishing step. Its methods
  follow the Go methods statement by statement and are proved against the `Matching`
  transitions. `Valid()` keeps one fact: every stored entry is a request-only, note-free
  transaction whose time is its request's time, filed under its own tuple's key. Each processing method also states that the
  client's new events are exactly the events of the transactions it hands over, or none
  when there is no client.

## Model

| member | source | states |
|---|---|---|
| Icmp.SplitTypeCode | packetbeat/protos/icmp/icmp.go:108-109 | the type (high byte) and code (low byte) recompose the 16-bit TypeCode: type*256 + code = TypeCode |
| Icmp.Decoded | packetbeat/protos/icmp/icmp.go:107-123 | the tuple carries the version, the packet's addresses and the tracking data for the decoded type; the message carries the packet time, type, code and payload length |
| Icmp.Icmp.ProcessICMPv4 | packetbeat/protos/icmp/icmp.go:107-125 | an ICMPv4 layer is decoded and processed as one message, with the store and closed log changed exactly as `OnMessage` says |
| Icmp.Icmp.ProcessICMPv6 | packetbeat/protos/icmp/icmp.go:127-145 | the same for ICMPv6, with version 6 |
| Icmp.Icmp.ProcessMessage | packetbeat/protos/icmp/icmp.go:147-153 | the request path is taken iff `isRequest`; the new store and log are `OnMessage`'s, and the client gets exactly the events of the transactions handed over |
| Icmp.Icmp.ProcessRequest | packetbeat/protos/icmp/icmp.go:155-173 | store and log change as `OnRequest` says; the client receives the events of those transactions, in order |
| Icmp.Icmp.ProcessResponse | packetbeat/protos/icmp/icmp.go:175-188 | store and log change as `OnResponse` says; the client receives the event of the one transaction handed over |
| Icmp.Icmp.GetTransaction | packetbeat/protos/icmp/icmp.go:214-220 | returns the pending transaction under the key iff there is one, and changes nothing |
| Icmp.Icmp.DeleteTransaction | packetbeat/protos/icmp/icmp.go:222-228 | returns the pending transaction under the key iff there was one, and removes exactly that key |
| Icmp.Icmp.Expire | packetbeat/protos/icmp/icmp.go:71-73 | an eviction removes exactly the evicted key and hands its transaction to the removal listener, as `OnExpire` says |
| Icmp.Icmp.ExpireTransaction | packetbeat/protos/icmp/icmp.go:230-234 | the evicted transaction gets the orphaned-request note appended and is published once |
| Icmp.Icmp.PublishTransaction | packetbeat/protos/icmp/icmp.go:236-320 | the transaction is logged as closed; the client receives its event only when a client is attached (results not nil) |
| Icmp.Icmp.constructor | packetbeat/protos/icmp/icmp.go:52-85 | empty store; local addresses are the discovered ones, or none if discovery failed; settings are the defaults, overridden from the configuration outside test mode |
| Icmp.Icmp.InitDefaults | packetbeat/protos/icmp/icmp.go:87-91 | both send flags are off and the timeout is the default expiration |
| Icmp.Icmp.SetFromConfig | packetbeat/protos/icmp/icmp.go:93-105 | each option present overrides its setting; the timeout only when present and positive, converted from seconds to nanoseconds |
| Classifier.InLocalList | packetbeat/protos/icmp/icmp.go:205-209 | the scan finds a match iff some entry of the local list equals the address |
| Classifier.IsLocalIp | packetbeat/protos/icmp/icmp.go:200-212 | an address is local iff it is loopback or equals some local address; with no local addresses, iff loopback |
| Classifier.DirectionOf | packetbeat/protos/icmp/icmp.go:190-198 | from-outside iff the source is not local; from-inside iff the source is local and the destination is not; local-only iff both are local |
| Classifier.SwappedDirection | packetbeat/protos/icmp/icmp.go:190-198 | exchanging source and destination turns from-inside into from-outside, and local-only stays local-only |
| Events.EventOf | packetbeat/protos/icmp/icmp.go:243-317 | an event carries only the fields an ICMP event may have |
| Events.EventFixedFields | packetbeat/protos/icmp/icmp.go:245-253 | client_ip is the source, ip and path the destination, @timestamp the transaction time, type "icmp", count 1 |
| Events.EventStatusNotesResponseTime | packetbeat/protos/icmp/icmp.go:254-267 | status is ERROR iff `HasError`, else OK; notes are present iff non-empty; responsetime is present iff `ResponseTimeMillis` gives one |
| Events.EventByteCounters | packetbeat/protos/icmp/icmp.go:268-283 | from-inside: request length in bytes_out and response length in bytes_in, each iff that message exists; from-outside swaps them; local-only sets neither |
| Events.EventIcmpGroup | packetbeat/protos/icmp/icmp.go:285-317 | the icmp group holds the version, and a request or response sub-object (message text, type, code) iff that message exists |
| Events.EventsOf | packetbeat/protos/icmp/icmp.go:319 | one event per handed-over transaction, in order |
| Matching.OnRequest | packetbeat/protos/icmp/icmp.go:155-173 | only the request's key changes; a pending duplicate is handed over first with the duplicate note appended; the key then holds exactly the new transaction iff a counterpart is required, else the new transaction is handed over last; 0 to 2 are handed over |
| Matching.OnResponse | packetbeat/protos/icmp/icmp.go:175-188 | only the reversed tuple's key changes and it ends empty; exactly one transaction is handed over: the pending one with the response attached, or an orphan with the reversed tuple, the response's time, no request and the orphaned-response note |
| Matching.OnMessage | packetbeat/protos/icmp/icmp.go:147-153 | only the touched key changes; a response hands over exactly one transaction, a request at most two |
| Matching.OnExpire | packetbeat/protos/icmp/icmp.go:230-234 | the evicted key leaves the store, nothing else changes, and exactly its transaction with the orphaned-request note is handed over |
| Matching.MessageKeepsPending | packetbeat/protos/icmp/icmp.go:165-170 | after any message, every stored entry is still a request-only, note-free transaction with its request's time, under its own key |
| Matching.ExpireKeepsPending | packetbeat/protos/icmp/icmp.go:230-234 | an eviction keeps that invariant |
| Matching.SupersededRequest | packetbeat/protos/icmp/icmp.go:158-163 | a superseded transaction has its request, no response and exactly the duplicate note |
| Matching.CompletedTransaction | packetbeat/protos/icmp/icmp.go:178-187 | a matched response keeps the pending request, time and tuple, attaches the response, and adds no note |
| Matching.ExpiredRequest | packetbeat/protos/icmp/icmp.go:230-234 | an expired transaction has its request, no response and exactly the orphaned-request note |
| Matching.MessageConserves | packetbeat/protos/icmp/icmp.go:155-188 | pending + created = pending afterwards + handed over, where every request creates one transaction and a response creates one only if it is an orphan |
| Matching.ExpireConserves | packetbeat/protos/icmp/icmp.go:230-234 | an eviction moves exactly one transaction from the store to the publisher |
| Matching.RunConserves | packetbeat/protos/icmp/icmp.go:147-234 | over any run of arrivals and evictions the counts balance: initially pending + created = finally pending + handed over (which transaction each step hands over is fixed by `OnRequest`, `OnResponse` and `OnExpire`) |
| Matching.RunKeepsPending | packetbeat/protos/icmp/icmp.go:147-234 | the store invariant holds along any run |
| Matching.RequestThenResponse | packetbeat/protos/icmp/icmp.go:155-187 | a request expecting a response, then its response: one transaction with both messages, the request's time and no notes; the store is back to what it was |
| Matching.DuplicateRequests | packetbeat/protos/icmp/icmp.go:158-172 | two requests under one key: the first is handed over with only the duplicate note, and the second is pending |
| Matching.RequestThenTimeout | packetbeat/protos/icmp/icmp.go:165-234 | an unanswered request, then its eviction: it is handed over once, with only the orphaned-request note |

## Left out

- The store's internals are not part of this model: `common.Cache`, its janitor timer
  (`StartJanitor`) and its locking. An eviction is the method `Icmp.Expire`, which the
  environment may call for any pending key. The per-entry deadline and the timeout value
  play no part in when it is called.
- Configuration comes in as a constructor parameter instead of `config.ConfigSingleton`.
  Local address discovery (`common.LocalIpAddrs`) comes in as an optional list, where
  absent means discovery failed. Both are I/O or global state.
- `protos.DefaultTransactionExpiration` is not part of this model. It is a constructor
  parameter.
- `NewIcmp` returns an error only when `setFromConfig` fails, and `setFromConfig` always
  returns nil. So the constructor has no error path.
- Logging (`logp`) is left out. The publisher transport (`PublishEvent`) is the
  `published` sequence: events are appended to it.
- Packet decoding by gopacket and time formatting (`common.Time`) are left out. A layer
  is its TypeCode plus its header and payload bytes. Timestamps are abstract integers.
- The helpers listed under `Collaborators` are not defined in this file. The model takes
  them as arbitrary functions. This includes `net.IP.Equal`, whose IPv4-in-IPv6
  equivalence is therefore not modelled.
- Transactions are values, not pointers. The Go code appends a note or attaches a
  response only after the transaction has left the store, so no aliasing is visible.
- Status values come from libbeat's `common.OK_STATUS`/`common.ERROR_STATUS`, which are
  not shown. They are the datatype `EventStatus`.
- Event field names are the datatype `FieldName`. `Events.Name` gives each one's
  published name, so proofs compare constructors, not strings.
- `Events.EventOf` builds the event by successive inserts, as `publishTransaction` does.
  `Icmp.Icmp.PublishTransaction` sends the result.
- `sendRequest` and `sendResponse` are stored but have no effect, because payload
  capture is commented out in the source.
- Icmp.Icmp.SetFromConfig: does not model the 64-bit overflow of `time.Duration(seconds) * time.Second`. The product is exact in the model.
- Events.EventStatusNotesResponseTime: the `responsetime` value is `ResponseTimeMillis`'s integer. Its 32-bit width is not modelled.
- Status is ERROR iff `HasError()` holds, and `HasError()` is defined outside this file.
  The model does not equate it with "the transaction has a note".
- Nothing is assumed about `Reverse`, not even that reversing twice gives back the tuple.
