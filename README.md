# Signalling relay — a Dafny model

This project models the WebSocket signalling relay of a Go/Gin service (`main.go`). Peers connect
with a caller-chosen identity (`callerId`) and exchange opaque WebRTC negotiation payloads
(`rtcMessage`) addressed by identity. The relay keeps two in-memory maps:

- `clients`: connection → identity;
- `rooms`: identity → mailbox, i.e. the set of connections currently claiming that identity.

Each inbound frame is routed by its `event` tag:

- `ping` is answered with `pong` on the same connection;
- `call`, `answerCall`, `callEnding` and `ICEcandidate` are relabelled and forwarded to every
  connection in the target identity's mailbox.

The model has four modules:

- `Wire` (wire.dfy): connections as natural-number handles, identities as strings, inbound frames
  as string-keyed JSON records (a missing key reads as null, as a Go map lookup yields `nil`),
  outbound frames `{event, data}`.
- `Dispatcher` (dispatcher.dfy): the routing decision of `handleMessage` as a pure function
  `Dispatch`, per-event lemmas, and a recipient-side reading (`Originator`, `RtcMessage`) that the
  relabelling is proved to preserve.
- `Registry` (registry.dfy): `registerClient`/`unregisterClient`/`joinRoom`/`leaveRoom` as
  functions on the pair of maps, the invariant `Consistent` (no empty mailbox; the two maps
  describe the same relation), and lemmas about it.
- `Signalling` (relay.dfy): `forwardMessageToRoom` as a loop over the mailbox, the handling of
  one frame, and the class `Relay`. Its fields `clients` and `rooms` are updated in place by
  `JoinRoom`, `LeaveRoom`, `RegisterClient` and `UnregisterClient`. Its `Serve` method is the
  `/ws` handler's lifecycle over a finite sequence of read frames.

Socket writes are abstract: a write to a connection in the parameter `fails` returns an error,
and every other write delivers its frame.

Two behaviours of the handler are worth stating up front:

- A forwarded event whose target field (`calleeId`/`callerId`) is missing or not a string is not
  dropped: the Go code applies an unchecked type assertion (main.go:133, 141, 149, 153), which
  panics. `Dispatch` returns `Panic(field)` for it. The panic unwinds the handler, so the deferred
  `unregisterClient` and `conn.Close` run. `Serve` therefore stops reading at that frame and
  deregisters the connection.
- Deregistration removes the connection from the mailbox of the identity it was registered
  with, passed in by the handler (main.go:58). It does not look that identity up in `clients`.

## Model

| member | source | states |
|---|---|---|
| `Dispatcher.Dispatch` | main.go:115-162 | at most one output per frame; only `ping` is answered on the sender's connection; a panic happens exactly when a forwarded event's target field is absent or not a string, and names that field |
| `Dispatcher.PingEchoes` | main.go:123-130 | `ping` yields exactly one `pong` reply to the sending connection, with `data` copied unchanged (null when absent) |
| `Dispatcher.CallRoutesToCallee` | main.go:132-138 | `call` goes to the mailbox named by `calleeId` as `newCall`, with `callerId` = sender and `rtcMessage` passed through |
| `Dispatcher.AnswerRoutesToCaller` | main.go:140-146 | `answerCall` goes to the mailbox named by `callerId` as `callAnswered`, with `callee` = sender and `rtcMessage` passed through |
| `Dispatcher.EndingRoutesToCaller` | main.go:148-150 | `callEnding` goes to the mailbox named by `callerId` as `callEnd` with an empty payload |
| `Dispatcher.IceRoutesToCallee` | main.go:152-158 | `ICEcandidate` goes to the mailbox named by `calleeId` under the same name, with `sender` = sender and `rtcMessage` passed through |
| `Dispatcher.UnknownIsIgnored` | main.go:116-161 | a frame with no string `event`, or an event outside the fixed set, produces no output |
| `Dispatcher.ForwardIdentifiesSender` | main.go:132-158 | every forwarded frame is addressed to the identity in the inbound event's target field; its recipient reads back the sender's identity and the unchanged `rtcMessage` (nothing for `callEnd`) |
| `Registry.RegisterEffect` | main.go:79-102 | after registration the connection claims the identity and is in its mailbox (created if absent) with all previous members; every other entry of both maps is unchanged |
| `Registry.UnregisterEffect` | main.go:87-113 | after deregistration the connection is in neither map, the mailbox loses exactly that connection and is deleted when empty; other entries unchanged; no mailbox means rooms untouched |
| `Registry.EmptyIsConsistent` | main.go:16-21 | the initial empty maps satisfy the invariant |
| `Registry.RegisterKeepsConsistent` | main.go:79-102 | registration keeps every mailbox non-empty and keeps `c in rooms[i]` equivalent to `clients[c] == i` |
| `Registry.UnregisterKeepsConsistent` | main.go:87-113 | deregistration under the identity used at registration keeps the same invariant |
| `Registry.UnregisterUnknownIsNoOp` | main.go:104-113 | deregistering a connection that was never registered changes nothing |
| `Registry.RegisterThenUnregister` | main.go:79-113 | registering a new connection and then deregistering it under the same identity restores both maps exactly |
| `Registry.RegisterIdempotent` | main.go:79-102 | registering the same connection under the same identity twice equals registering it once |
| `Registry.SecondDeviceStays` | main.go:79-113 | with two connections under one identity, the one that stays remains registered and in the mailbox after the other leaves |
| `Signalling.ForwardToRoom` | main.go:165-180 | writes the `{event, data}` frame exactly once to every mailbox member whose write does not fail, and to nothing else; a failed write does not stop the rest; no mailbox means no writes |
| `Signalling.HandleMessage` | main.go:115-163 | handling a frame panics exactly when `Dispatch` does; otherwise each output's frame is written once to each of its recipients (the sender for `pong`, the target mailbox for forwards) whose write does not fail |
| `Signalling.Consumed` | main.go:60-68 | the read loop hands every frame to the dispatcher, in order, up to and including the first one that panics |
| `Signalling.Relay.constructor` | main.go:16-21 | the relay starts with empty maps, which are consistent |
| `Signalling.Relay.JoinRoom` | main.go:95-102 | `rooms` becomes `Joined(old rooms)`: the connection added, the mailbox created on demand |
| `Signalling.Relay.LeaveRoom` | main.go:104-113 | `rooms` becomes `Left(old rooms)`: the connection removed, the mailbox deleted when it becomes empty, nothing done when there is no mailbox |
| `Signalling.Relay.RegisterClient` | main.go:79-85 | both maps become `Register(old state)`, and the invariant is kept when the connection is new or already under the same identity |
| `Signalling.Relay.UnregisterClient` | main.go:87-93 | both maps become `Unregister(old state)`, and the invariant is kept under the same condition |
| `Signalling.Relay.Serve` | main.go:41-69 | an empty `callerId` registers nothing; otherwise the trace is registration, then each consumed frame handled in receive order against the mailboxes as they stand after registration, then exactly one deregistration; both maps end as they began |

## Left out

- Concurrency: `clientsLock` and `roomsLock`, their nested acquisition, and the lock held across
  writes in `forwardMessageToRoom` are not modelled. The relay is one sequential actor, and
  `Serve` runs one connection's session to completion, so interleavings of several sessions are
  not covered.
- Transport: the WebSocket upgrade and its failure (main.go:43-47), `ReadJSON`/`WriteJSON`
  encoding, `conn.Close`, logging, Gin routing, `callerIDMiddleware`, `os.Getenv` and the
  database connection are I/O or framework code. Reads are the given frame sequence, whose end
  stands for the read error that breaks the loop. Writes succeed or fail according to `fails`,
  which is fixed for a whole session rather than chosen per write. Go decodes every JSON number
  into a `float64` and re-encodes it on write, so `rtcMessage` and `data` pass through as decoded
  values rather than byte for byte (an integer above 2^53 can come back changed); the model's
  `Num(int)` does not capture that, and nothing in the relay reads numbers.
- Enumeration order: Go iterates a mailbox in unspecified order. `ForwardToRoom` picks members
  nondeterministically, and its contract is stated on the set of recipients, not their order.
- A panic that escapes the handler (main.go:133, 141, 149, 153) is modelled only as the end of
  that connection's session. What the panic does to the rest of the process is not modelled.
- `Signalling.Relay.RegisterClient`: the invariant is promised only when the connection is new or
  already registered under the same identity. The handler only ever registers a freshly upgraded
  connection, and re-registering one under a different identity would leave it in its old
  mailbox.
- `Signalling.Relay.Serve`: requires a consistent relay and a connection not yet registered,
  which is what a freshly upgraded socket is.
- Account, authentication and user CRUD code (controllers, routes, models) is not part of this
  model.
