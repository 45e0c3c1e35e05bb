# A model of the execution-layer REST proxy

The proxy turns an Ethereum node's JSON-RPC into REST resources and
server-sent event streams.  This project models the parts of it that are
protocols or codecs, and proves what they promise.

- **Log paging.** `Pagination.dfy` is the adaptive chunk loop, for every
  pattern of "too large" refusals.  `LogsProtocol.dfy` is one `/logs` request
  against a chain of hash-linked blocks; `LogsRuns.dfy` is whole runs of
  requests that follow cursors while the chain reorganizes between them, and
  `StillChain.dfy` counts the requests when it does not.
- **Cursors.** `CursorCodec.dfy`, over compact JSON (`JsonText.dfy`,
  `JsonRoundTrip.dfy`, `JsonVisible.dfy`), base64url (`Base64Url.dfy`) and
  positional numerals (`Numerals.dfy`).
- **Subscription multiplexer.** `Multiplexer.dfy` is a state machine of
  await-free stretches with arbitrary interleaving; `MultiplexerInvariant.dfy`
  proves its invariant, `MultiplexerRefinement.dfy` and
  `IndependentSubscriptions.dfy` prove that it refines independent
  subscriptions, first of keys and then of what consumers asked for,
  `SubscriptionManager.dfy` is the class whose methods perform its steps.
  `Canonical.dfy` is the dictionary key.
- **Request correlation.** `UpstreamWs.dfy` (state machine, runs) and
  `UpstreamWebSocket.dfy` (class).  `Reconnect.dfy` composes both machines.
- **Streams.** `Sse.dfy` prints frames and interprets them as a standard client
  does; `Heartbeat.dfy` is the heartbeat combinator; `Replay.dfy` the
  resume-then-live handover and `Sessions.dfy` a client that keeps resuming.
- **Codecs.** `AbiRevert.dfy`, `MetricLabels.dfy`, `Encoding.dfy`,
  `ContentNegotiation.dfy`.

`dafny verify dfyconfig.toml` checks everything.

## How the parts are modelled

The chunk loop, the page loop, the handler, the replay loops, the heartbeat
loop and the Accept parser are methods with the loops of the source, each
proved against a specification function; the manager and the socket are
classes, each method proved to be one step of its state machine.  The codecs
are functions.

Assumptions, all of them visible as parameters or preconditions:

- `eth_getLogs` delivers exactly the matching logs of the range, increasing by
  (block, log index), and the chain stands still within one request.
- A block hash, compared without regard to case, identifies a block across the
  chains of one run, and blocks name their parent's hash.
- Nothing is assumed of `default_page_size` and `max_page_size`; what a page
  size below 1 breaks is stated exactly.  Counting requests needs a page size
  of at least 1.
- Upstream subscription ids are globally fresh.
- Negotiation is asked with at least one supported type.

## What the proofs found

- **Re-subscription after a reconnect cannot succeed.** `on_reconnect`
  documents that it re-issues all subscriptions
  (`src/exec_rest_api/subscriptions.py:142`), but the socket awaits it before
  it starts reading (`src/exec_rest_api/upstream_ws.py:139-141`), so no answer
  can be dispatched to it.  `Reconnect.ReissueNeverSucceeds` and
  `Reconnect.SilentExactly` state this, the latter as the exact condition: a
  registered slot is silent iff a reconnect has happened since it was
  registered.  `Reconnect.SilencedRun` is a run.  The model follows the code.
  The multiplexer's own theorems allow a re-subscription to succeed or fail.
- **An effective page size below 1 hides logs**: the handler takes it from
  `max_page_size`, or from `default_page_size` when the request names no limit,
  as a request that follows a `Link` never does, and the configuration checks
  neither.  `LogsRuns.LinklessRunIsComplete` is the exact condition over all
  runs, `LogsRuns.ZeroMaxPageSizeHidesLogs` and
  `LogsRuns.ZeroDefaultPageSizeHidesLogs` are witnesses.
- **`start` can raise on a live connection**: it raises iff the first attempt
  failed (`UpstreamWs.StartRaisesExactly`), also when a later attempt of a
  reconnecting socket has succeeded by then, which its documentation
  (`src/exec_rest_api/upstream_ws.py:83-86`) does not say.
  `UpstreamWs.StartKeepsItsWordExactly` is the condition under which it does
  what it says, `UpstreamWs.StartRaisesThoughConnected` a run.
- **`"id": true` answers request 1**: `UpstreamWs.BooleanIdAnswersRequestOne`
  says when, `UpstreamWs.TrueAnswersRequestOne` is a run.
- **A source that raises `TimeoutError` is taken for silence**: heartbeats go
  on for ever.  `Heartbeats.StreamWithHeartbeat` states exactly when the
  stream ends.
- **Replay of logs drops the log index** of the client's last event, and a
  failing call loses whatever was to be replayed:
  `Replay.LogsAfterIdCoveredExactly` says exactly which logs are covered,
  `Replay.LogsMissedInOwnBlock` what remains when nothing fails.
- **Blocks are missed on resume** when a replay call fails or finds nothing:
  `Replay.ResumeCoversExactly` is the exact condition, `Replay.NoHole` the case
  in which nothing is missed.  Later live events move the client's id on, so
  what a failed replay missed is lost for good: `Sessions.LostExactly`,
  `Sessions.LostForGood`.

## Model

| member | source | states |
|---|---|---|
| `Pagination.FetchLogsPaginated` | src/exec_rest_api/pagination.py:48-98 | For every ordered log list and every (even non-deterministic) pattern of refusals: a returned page is exactly the first `limit` unseen logs of the range and the position of the last of them, with no position iff fewer than `limit` remained. Every call is the one the answers before it lead to, the chunk starting at 5000, doubling when served up to 5000, halving when refused down to 1. If every answer is served, or refuses several blocks with code -32000 and one of the two texts, a page is returned; any other failure ends the fetch with that answer at that call. Calls number at most twice the chunks served plus 12, and one that fails, hence at most 2n+12 for n blocks; terminates |
| `Pagination.TooLargeExactly` | src/exec_rest_api/pagination.py:41-45 | An answer counts as too large iff it is an error with code -32000 some slice of whose message lowers to one of the two texts |
| `Pagination.TakePage` | src/exec_rest_api/pagination.py:83-93 | The loop over one served page keeps every log outside the skip window in order, or stops at exactly the log that fills the page |
| `Pagination.ScanChunks` | src/exec_rest_api/pagination.py:69-98 | The chunk loop returns that page, and keeps every claim about the calls so far, the position and the chunk size that each single call keeps |
| `Pagination.WindowTaken` | src/exec_rest_api/pagination.py:83-95 | Taking one chunk continues the page built so far: either the collected prefix now reaches the end of the chunk, or the result is already the promised page |
| `Pagination.UnseenSplit` | src/exec_rest_api/pagination.py:69-97 | Scanning two consecutive block ranges and concatenating equals scanning their union, skip window included |
| `Pagination.ChunkPotential` | src/exec_rest_api/pagination.py:80-97 | Chunk size stays in 1..5000; a halving lowers floor(log2 chunk) by exactly one and a growth raises it by at most one |
| `LogsProtocol.VerifyCursorBoundary` | src/exec_rest_api/handlers/logs.py:99-117 | No early answer iff the boundary block exists and its hash equals the cursor's up to case; 409 for a missing or different block, upstream failure if the call fails |
| `LogsProtocol.HandleLogs` | src/exec_rest_api/handlers/logs.py:167-251 | The handler answers as the request relation `Answers` demands: limit check, cursor or fresh range, boundary check, page, and `Link` cursor |
| `LogsProtocol.LimitsRespected` | src/exec_rest_api/handlers/logs.py:170-182 | Of any response: a page holds at most `max_page_size` items and at most the limit asked for or else `default_page_size`; one with a `Link` holds exactly the smaller of the two; a limit is a reason for a 400 iff it is malformed or below 1 |
| `LogsProtocol.MatchingExactly` | src/exec_rest_api/handlers/logs.py:223-230 | The list the paging theorems speak of holds exactly the chain's logs the filter matches, under their block and index |
| `LogsProtocol.SameHashSameHistory` | src/exec_rest_api/handlers/logs.py:99-117 | On parent-linked chains, equal hashes at one height mean equal blocks at and below that height |
| `LogsProtocol.SeenOfHistory` | src/exec_rest_api/handlers/logs.py:99-117 | What a client has seen up to a position depends only on the blocks up to that position |
| `LogsProtocol.SeenThenUnseen` | src/exec_rest_api/pagination.py:63-98 | The logs up to a resume position followed by the logs left after it are the whole window |
| `LogsProtocol.WindowPrefix` | src/exec_rest_api/pagination.py:89-93 | Cutting a window after one of its logs gives exactly what lies at or before that log's position |
| `LogsRuns.RunDelivers` | src/exec_rest_api/handlers/logs.py:184-251 | Reorg-safe paging over whole runs, whatever page sizes are configured or asked for: while the chain changes arbitrarily between requests, what has been delivered when a page arrives is an ordered prefix, without repetition, of the matching logs of the chain the last request saw, and all of them when the page has no `Link` and the request's effective page size was at least 1 |
| `LogsRuns.LinklessRunIsComplete` | src/exec_rest_api/handlers/logs.py:182 | Over all runs, a page without `Link` means that everything was delivered if and only if the effective page size of that request is at least 1 or nothing was left to deliver before it |
| `LogsRuns.RunsGoOn` | src/exec_rest_api/handlers/logs.py:184-251 | The runs of these theorems exist for every history of reorganizations: whatever chain the next request meets, it has an answer that continues the run |
| `LogsRuns.ReorgDetectedExactly` | src/exec_rest_api/handlers/logs.py:190-192 | A resumed request answers 409 if and only if the history up to the boundary block is not the one the cursor was issued on |
| `LogsRuns.ResumedSameHistory` | src/exec_rest_api/handlers/logs.py:186-196 | A cursor decodes to what was handed out, and a resumed request that gets a page saw the issuing chain's history up to the boundary |
| `LogsRuns.HealthyRequestsComplete` | src/exec_rest_api/pagination.py:76-82 | If one-block queries are never refused and no call fails, every accepted first request gets a page |
| `LogsRuns.HealthyResumesComplete` | src/exec_rest_api/handlers/logs.py:184-251 | Under the same conditions, a request that resumes from a handed-out cursor on a chain with the history it was issued on gets a page |
| `StillChain.StableRunRequests` | src/exec_rest_api/handlers/logs.py:223-249 | On a chain that stands still under a healthy upstream, following cursors takes N div L + 1 requests: every request gets a page, there are never more, and the run is over iff it has made that many |
| `StillChain.StableRunExists` | src/exec_rest_api/handlers/logs.py:223-249 | Such a run exists and can be reached from every start: exactly N div L + 1 requests deliver all matching logs |
| `LogsRuns.LinklessPageIsComplete` | src/exec_rest_api/handlers/logs.py:182 | A first page without `Link` is complete if and only if the effective limit is at least 1 or nothing matches |
| `LogsRuns.ZeroMaxPageSizeHidesLogs` | src/exec_rest_api/handlers/logs.py:182 | Witness: with `max_page_size` 0 a matching log exists and the page is empty and has no `Link` |
| `LogsRuns.ZeroDefaultPageSizeHidesLogs` | src/exec_rest_api/handlers/logs.py:181-182 | Witness run: with `default_page_size` 0, following the `Link` of a first request with limit 1 gives an empty page without `Link` while a log is undelivered |
| `CursorCodec.CursorRoundTrip` | src/exec_rest_api/cursor.py:68-109 | Every log cursor, with any integers, string and nested JSON filter, decodes to itself, uses only the unpadded alphabet, and is no trace cursor |
| `CursorCodec.TraceCursorRoundTrip` | src/exec_rest_api/cursor.py:122-154 | Every trace cursor decodes to itself, uses only the unpadded alphabet, and is no log cursor |
| `CursorCodec.CursorOfExactly` | src/exec_rest_api/cursor.py:82-109 | A payload is read as a log cursor iff it has the five named fields with their types |
| `CursorCodec.TraceCursorOfExactly` | src/exec_rest_api/cursor.py:134-154 | A payload is read as a trace cursor iff it has the four named fields with their types |
| `CursorCodec.PayloadRoundTrip` | src/exec_rest_api/cursor.py:29-48 | Every JSON object survives compact JSON, base64url, stripping and restoring the padding |
| `Base64Url.UnpaddedRoundTrip` | src/exec_rest_api/cursor.py:29-41 | `-len % 4` restores exactly the stripped padding and decoding gives the bytes back, for all byte strings (section 5 of RFC 4648) |
| `Base64Url.SextetTable` | src/exec_rest_api/cursor.py:31 | The 64 characters are those of table 2 of RFC 4648, in order |
| `Base64Url.QuadValue` | src/exec_rest_api/cursor.py:31 | Three bytes and their four sextets are the same 24-bit number |
| `JsonRoundTrip.LoadsPrint` | src/exec_rest_api/cursor.py:30-43 | `json.loads` inverts compact `json.dumps` on every null, boolean, integer, string, list and dictionary, escapes and surrogate pairs included |
| `JsonRoundTrip.PrintInjective` | src/exec_rest_api/subscriptions.py:52-54 | Two values with the same compact text are the same value |
| `Canonical.CanonicalExactly` | src/exec_rest_api/subscriptions.py:52-54 | Two subscribe parameters get one dictionary key if and only if they are the same JSON value up to the order of object keys |
| `Multiplexer.KeyExactly` | src/exec_rest_api/subscriptions.py:172 | Two subscriptions share a key iff they are of one kind and their parameters are the same JSON value up to key order |
| `MultiplexerInvariant.StepInv` | src/exec_rest_api/subscriptions.py:121-219 | Every atomic step keeps: registered slots have distinct consumers, each open stream is a consumer of exactly the slot under its key, indexed ids point at registered slots carrying them, no indexed id is unsubscribed, gauges count slots |
| `MultiplexerInvariant.ReachableInv` | src/exec_rest_api/subscriptions.py:121-219 | The invariant holds after every interleaving of steps from the empty manager |
| `MultiplexerInvariant.NoDuplicateSlots` | src/exec_rest_api/subscriptions.py:172-190 | Under the invariant two registered slots of one kind never hold the same parameters up to key order |
| `MultiplexerInvariant.GaugesExactly` | src/exec_rest_api/subscriptions.py:115-119 | In every reachable state each published gauge is the number of registered slots of its kind |
| `MultiplexerRefinement.StepSimulated` | src/exec_rest_api/subscriptions.py:121-219 | Each step is matched by one step of a machine that has keys but no slots and no sharing, and a queue with room stays exact |
| `IndependentSubscriptions.DeliversOwnEvents` | src/exec_rest_api/subscriptions.py:121-139 | In every interleaving a consumer's queue received an order-preserving subsequence of the events and gaps of what that consumer asked for, a kind and a JSON value, between registration and close; the reference knows no keys and no slots |
| `IndependentSubscriptions.DeliversAllUnlessFull` | src/exec_rest_api/subscriptions.py:121-125 | A consumer whose queue never holds 1024 items received the whole sequence |
| `IndependentSubscriptions.StreamsServed` | src/exec_rest_api/subscriptions.py:172-195 | In every reachable state the slot that serves an open stream is of the kind, and for the JSON value, its consumer asked for |
| `IndependentSubscriptions.StepAgrees` | src/exec_rest_api/subscriptions.py:121-219 | Each step of the machine with keys is matched by the reference that knows only what was asked for |
| `MultiplexerRefinement.QueuesBounded` | src/exec_rest_api/subscriptions.py:173 | In every reachable state a queue holds at most 1024 items |
| `SubscriptionManagement.SubscriptionManager.constructor` | src/exec_rest_api/subscriptions.py:106-111 | A new manager is empty and satisfies the invariant |
| `SubscriptionManagement.SubscriptionManager.Enqueue` | src/exec_rest_api/subscriptions.py:121-125 | One queue gains the event, or is unchanged when it holds 1024 items; no other queue changes |
| `SubscriptionManagement.SubscriptionManager.EnqueueAll` | src/exec_rest_api/subscriptions.py:138-139 | The loop over consumers offers the event once to each consumer's queue and touches no other |
| `SubscriptionManagement.SubscriptionManager.PublishGauge` | src/exec_rest_api/subscriptions.py:115-119 | The gauge of the kind becomes the number of registered slots of that kind |
| `SubscriptionManagement.SubscriptionManager.OnNotification` | src/exec_rest_api/subscriptions.py:129-139 | One notify step; keeps the invariant |
| `SubscriptionManagement.SubscriptionManager.SubscribeEnter` | src/exec_rest_api/subscriptions.py:162-193 | `subscribe` up to its request: refuses and changes nothing without a connected socket, else joins the slot of its key or asks the upstream for the kind, and the parameters unless there are none; keeps the invariant |
| `SubscriptionManagement.SubscriptionManager.SubscribeIssued` | src/exec_rest_api/subscriptions.py:184-195 | Registers the slot under its key and id and publishes the gauge; keeps the invariant |
| `SubscriptionManagement.SubscriptionManager.SubscribeFails` | src/exec_rest_api/subscriptions.py:179-183 | A failed request registers nothing and releases the lock |
| `SubscriptionManagement.SubscriptionManager.OnReconnect` | src/exec_rest_api/subscriptions.py:141-145 | Clears the id index and starts over a copy of the slot list; keeps the invariant |
| `SubscriptionManagement.SubscriptionManager.ReissueArgs` | src/exec_rest_api/subscriptions.py:146-149 | The next re-subscription asks for the kind and the parameters of its slot |
| `SubscriptionManagement.SubscriptionManager.Reissue` | src/exec_rest_api/subscriptions.py:146-158 | One turn of the reconnect loop: a new id is recorded and indexed or the slot keeps its stale id, every consumer is offered the gap, and the loop goes on with the next slot; keeps the invariant |
| `SubscriptionManagement.SubscriptionManager.RemoveConsumer` | src/exec_rest_api/subscriptions.py:197-213 | Removes one consumer; the last one takes the slot, its id and its gauge entry with it and yields that slot's id, which is then not indexed |
| `SubscriptionManagement.SubscriptionManager.BeginClose` | src/exec_rest_api/subscriptions.py:93-97 | Marks the stream closed before the lock is waited for; only the first call goes on, later ones change nothing; keeps the invariant |
| `SubscriptionManagement.SubscriptionManager.Close` | src/exec_rest_api/subscriptions.py:197-213 | The rest of the first close, under the lock: detaches the stream and keeps the invariant; an id is handed out for unsubscribing iff the slot goes, and it is that slot's |
| `SubscriptionManagement.SubscriptionManager.TakeNext` | src/exec_rest_api/subscriptions.py:88-91 | Nothing once the stream is closed; otherwise the oldest event not yet taken |
| `UpstreamWs.StepInv` | src/exec_rest_api/upstream_ws.py:106-204 | Every step keeps: ids 1..n are exactly the futures ever made, every waiting future is pending, everything pending belongs to the present connection |
| `UpstreamWs.ReachableInv` | src/exec_rest_api/upstream_ws.py:106-204 | The invariant holds after every run |
| `UpstreamWs.RequestTakesFreshId` | src/exec_rest_api/upstream_ws.py:117-119 | A request takes an id that no request of the run has had |
| `UpstreamWs.StepCorrelates` | src/exec_rest_api/upstream_ws.py:168-204 | In one step a completed request keeps its outcome, and a waiting one is answered only by a received message bearing its id, on its own connection |
| `UpstreamWs.CompletesAtMostOnce` | src/exec_rest_api/upstream_ws.py:186-204 | Over a whole run a completed request keeps its outcome for ever |
| `UpstreamWs.AnswersAreCorrelated` | src/exec_rest_api/upstream_ws.py:168-198 | Every answer of a run has a witness: the message of that run that bore the request's id, read on the request's own connection |
| `UpstreamWs.MatchingMessageAnswers` | src/exec_rest_api/upstream_ws.py:182-198 | The converse, in every reachable state and in whatever order responses come: a response with the id of any waiting request completes that request with its result or its error, and changes nothing else |
| `UpstreamWs.UnmatchedMessageIgnored` | src/exec_rest_api/upstream_ws.py:168-187 | A message that is no object, or has no id, an id of another type or one nobody waits for, changes nothing |
| `UpstreamWs.UnreadableErrorDrops` | src/exec_rest_api/upstream_ws.py:188-196 | A response to a waiting request whose error cannot be read ends the connection |
| `UpstreamWs.DisconnectClosesExactly` | src/exec_rest_api/upstream_ws.py:147-159 | When a connection ends exactly the waiting requests are closed; the loop ends iff it is not to reconnect or is stopping, and otherwise waits |
| `UpstreamWs.BackoffExactly` | src/exec_rest_api/upstream_ws.py:156-159 | Over every run the delay slept on is the one whose index is the number of earlier waits since the last successful connect, or the last one |
| `UpstreamWs.NoneSurvivesDisconnect` | src/exec_rest_api/upstream_ws.py:147-149 | In every reachable state a waiting request belongs to the present connection and is in the pending table |
| `UpstreamWs.BooleanIdAnswersRequestOne` | src/exec_rest_api/upstream_ws.py:182-187 | A boolean id passes the integer check: it completes a request iff it is `true` and request 1 is waiting |
| `UpstreamWs.TrueAnswersRequestOne` | src/exec_rest_api/upstream_ws.py:182-198 | Witness run: the first request of a connection is completed by a message whose id is `true` |
| `UpstreamWs.CallbackRequestsFail` | src/exec_rest_api/upstream_ws.py:139-141 | While the reconnect callback runs, no request of its connection has been answered |
| `UpstreamWs.StartRaisesExactly` | src/exec_rest_api/upstream_ws.py:82-90 | Over every run, once the event is set, `start` raises if and only if the first connection attempt failed, whatever happened since |
| `UpstreamWs.StartKeepsItsWordExactly` | src/exec_rest_api/upstream_ws.py:82-90 | `start` raises as its documentation says, on a failed first attempt without reconnecting and only then, if and only if it is not the case that the first attempt failed while reconnecting is on; without reconnecting it never raises on a live connection |
| `UpstreamWs.StartRaisesThoughConnected` | src/exec_rest_api/upstream_ws.py:82-90 | Witness run: after a failed first attempt and a successful second one `start` raises on a live connection |
| `WebSocketClient.UpstreamWebSocket.Request` | src/exec_rest_api/upstream_ws.py:113-119 | Refuses without a live socket and changes nothing; otherwise registers one waiting future under the next id |
| `WebSocketClient.UpstreamWebSocket.FailAllPending` | src/exec_rest_api/upstream_ws.py:200-204 | Completes exactly the waiting pending futures as closed and empties the table |
| `WebSocketClient.UpstreamWebSocket.ConnectionOver` | src/exec_rest_api/upstream_ws.py:147-159 | Fails the pending requests, then ends or picks the back-off step |
| `WebSocketClient.UpstreamWebSocket.Connects` | src/exec_rest_api/upstream_ws.py:134-141 | A new connection; the callback phase comes first iff the event was set before |
| `WebSocketClient.UpstreamWebSocket.ConnectRaises` | src/exec_rest_api/upstream_ws.py:143-159 | Records the failure only before the first connect, then as `ConnectionOver` |
| `WebSocketClient.UpstreamWebSocket.Dispatch` | src/exec_rest_api/upstream_ws.py:168-198 | One message is a notification iff it has a method and no id; it escapes iff it answers a waiting request with an unreadable error; the state changes as the machine says |
| `Reconnect.ReissueFailureKills` | src/exec_rest_api/subscriptions.py:150-154 | A failed re-subscription leaves its slot registered with no id leading to it |
| `Reconnect.DeadStaysDead` | src/exec_rest_api/subscriptions.py:141-193 | Only a successful re-subscription revives such a slot: new subscribers of its key merely join it |
| `Reconnect.DeadHearsNothing` | src/exec_rest_api/subscriptions.py:129-139 | No notification changes the queue of a consumer of such a slot |
| `Reconnect.ReissueNeverSucceeds` | src/exec_rest_api/upstream_ws.py:137-141 | In the composed system no reachable state lets a re-subscription return an id, because the read loop starts only after the callback returns |
| `Reconnect.SilentAfterReconnect` | src/exec_rest_api/subscriptions.py:141-158 | From a reconnect on, for as long as a slot registered then stays registered, no upstream id leads to it |
| `Reconnect.AliveStaysAlive` | src/exec_rest_api/subscriptions.py:162-219 | No step but a reconnect takes the id from a slot that stays registered |
| `Reconnect.SilentExactly` | src/exec_rest_api/subscriptions.py:141-158 | In every reachable state no upstream id leads to a registered slot if and only if a reconnect has happened since the slot was registered |
| `Reconnect.SilencedRun` | src/exec_rest_api/upstream_ws.py:137-141 | Witness run: a subscription is made, the connection drops and returns, the re-subscription times out, and the socket reads on with the client subscribed and no id leading to its slot |
| `Sse.InterpretFrame` | src/exec_rest_api/sse.py:19-41 | A client conforming to section 9.2.6 of the WHATWG HTML standard reads one printed frame as exactly its meaning, whatever follows |
| `Sse.ClientSeesFrames` | src/exec_rest_api/sse.py:19-41 | Any concatenation of retry, comment and event frames is read as exactly the emitted events in order: name, data, sticky last id, reconnection time |
| `Sse.FrameTexts` | src/exec_rest_api/sse.py:19-41 | The frames as they stand on the wire |
| `Sse.UnbreakExactly` | src/exec_rest_api/sse.py:40 | A comment keeps every character but CR and LF, which become blanks |
| `Heartbeats.StreamWithHeartbeat` | src/exec_rest_api/sse.py:44-70 | In every schedule of time-outs and completions the output less its heartbeats is the source so far in order, all of it at the end; each silence gives one heartbeat in place; the stream ends with its source iff the source completes once more than it has frames and does not end in a TimeoutError of its own; at most one `__anext__` is outstanding |
| `Heartbeats.PingsInvisible` | src/exec_rest_api/sse.py:62 | Erasing heartbeats changes nothing a conforming client observes |
| `Heartbeats.ClientSeesSource` | src/exec_rest_api/sse.py:44-70 | End to end: the bytes of the interleaved stream are read as the source's events |
| `Replay.ReplayBlocks` | src/exec_rest_api/handlers/streams.py:182-210 | Writes exactly what `ReplayFrames` says: nothing, one gap, or the blocks up to the first failing call without the missing ones |
| `Replay.ReplayLogs` | src/exec_rest_api/handlers/streams.py:213-248 | Writes nothing, one gap, or every log of the missed blocks in order; a failing head query or fetch writes nothing |
| `Replay.InBlocksIncrease` | src/exec_rest_api/handlers/streams.py:245-248 | The replayed logs come in order and once each |
| `Replay.ResumeCoversExactly` | src/exec_rest_api/handlers/streams.py:182-210 | Which missed blocks a resuming client learns of, as an iff: live ones, ones a gap spans, and ones reached before a failing call |
| `Replay.NoHole` | src/exec_rest_api/handlers/streams.py:88-130 | Because the subscription precedes the head query, on a growing chain every block after the client's last one is covered |
| `Replay.OrderMatters` | src/exec_rest_api/handlers/streams.py:88-130 | In the opposite order exactly the blocks that arrive between the two would be lost |
| `Replay.ReplayBounded` | src/exec_rest_api/handlers/streams.py:196-210 | At most `sse_replay_window` blocks, or one gap, are replayed |
| `Sessions.StickyId` | src/exec_rest_api/handlers/streams.py:182-210 | What a conforming client holds as last event id after a session is the number of the last block event it received, in decimal; gaps leave it alone |
| `Sessions.GapDataTells` | src/exec_rest_api/handlers/streams.py:200-203 | A client that looks up `from` and `to` in a gap's data learns the first and the last block of the gap |
| `Sessions.SessionTellsExactly` | src/exec_rest_api/handlers/streams.py:88-166 | Of the blocks a session's id moves past, wherever the connection was cut, exactly those are told that came live, lie in a gap, or are reached by the replay |
| `Sessions.LostExactly` | src/exec_rest_api/handlers/streams.py:182-210 | Over any run of resumed sessions, a block is lost if and only if some session moved past it, not told before, that did not bring it live and whose replay did not reach it |
| `Sessions.LostForGood` | src/exec_rest_api/handlers/streams.py:190-197 | What is lost stays lost, however often the client resumes |
| `Sessions.NothingLost` | src/exec_rest_api/handlers/streams.py:88-130 | If no head query or block call fails or finds nothing, nothing is ever lost, wherever connections are cut |
| `Sessions.FailedHeadLoses` | src/exec_rest_api/handlers/streams.py:122-126 | After a failing head query one live event is enough to lose every block between the id and the subscription |
| `Replay.LogsAfterIdCoveredExactly` | src/exec_rest_api/handlers/streams.py:223-248 | Which matching logs after its id a resuming client learns of, as an iff that includes a failing head query and a failing fetch: live ones, and those of later blocks up to the head that a gap spans or the fetch delivers |
| `Replay.LogsMissedInOwnBlock` | src/exec_rest_api/handlers/streams.py:223-248 | When no call fails, a log after the id is missed if and only if it lies in the id's own block and came before the subscription: the log index is discarded |
| `AbiRevert.ReasonIsDeclaredBytes` | src/exec_rest_api/abi_revert.py:72-98 | A decoded reason is exactly the declared number of bytes at the declared offset, inside the data |
| `AbiRevert.ReasonDecodesExactly` | src/exec_rest_api/abi_revert.py:72-98 | A reason is decoded iff head, length and declared bytes lie in the data, at whatever offset, and the length is at most 2^20 |
| `AbiRevert.SelectorsExactly` | src/exec_rest_api/abi_revert.py:51-69 | Which payloads are decoded as what, for every string: selectors 08c379a0 and 4e487b71 in any case, nothing shorter and nothing that is not hexadecimal |
| `AbiRevert.ErrorRoundTrip` | src/exec_rest_api/abi_revert.py:72-98 | Every standard tail decodes to its bytes if they fit 2^20, and to nothing otherwise |
| `AbiRevert.PanicRoundTrip` | src/exec_rest_api/abi_revert.py:101-107 | Every 32-byte code decodes to its number, whatever follows |
| `AbiRevert.StandardErrorDecodes` | src/exec_rest_api/abi_revert.py:51-69 | The whole decoder on any standard `Error(string)` payload |
| `AbiRevert.StandardPanicDecodes` | src/exec_rest_api/abi_revert.py:51-69 | The whole decoder on any standard `Panic(uint256)` payload |
| `MetricLabels.EscapeIsCharacterMap` | src/exec_rest_api/metrics.py:41-43 | The three chained replacements equal one per-character map |
| `MetricLabels.EscapeLiterals` | src/exec_rest_api/metrics.py:41-43 | Backslash, newline and double quote are escaped with a backslash, and nothing else is |
| `MetricLabels.LabelsRoundTrip` | src/exec_rest_api/metrics.py:46-50 | A reader recovers the label tuple from the rendered text, whatever follows |
| `MetricLabels.SeriesNeverCollide` | src/exec_rest_api/metrics.py:71-72 | Two series of one metric render to the same text if and only if their labels are the same |
| `Encoding.HexRoundTrip` | src/exec_rest_api/encoding.py:29-64 | Every natural prints as a quantity without leading zeros that reads back as the number |
| `Encoding.QuantityIsMinimal` | src/exec_rest_api/encoding.py:60-64 | Reading a quantity and printing it gives it in lower case without leading zeros |
| `Encoding.WeiRoundTrip` | src/exec_rest_api/encoding.py:69-86 | A decimal amount survives the trip through hex up to leading zeros; exactly the digit strings are accepted |
| `Encoding.CoercionAgrees` | src/exec_rest_api/encoding.py:36-57 | A number, its hex quantity and its decimal string are read alike |
| `Encoding.AcceptedExactly` | src/exec_rest_api/encoding.py:29-57 | Which strings and values the decoders accept |
| `ContentNegotiation.Match` | src/exec_rest_api/content_neg.py:66-78 | The range of all types gives the first supported type; a range t followed by slash and star, the first one that begins with t and a slash, and none iff there is none; any other range, itself iff it is supported |
| `ContentNegotiation.ParseAccept` | src/exec_rest_api/content_neg.py:44-63 | One candidate per non-blank piece in order; the last `q` parameter decides, an unreadable one counts as 1 |
| `ContentNegotiation.ParsePrintedAccept` | src/exec_rest_api/content_neg.py:44-63 | Parsing any header made of media ranges with or without a quality, with other parameters, with blanks around the separators and with empty elements gives back what each range asks for, in order |
| `ContentNegotiation.SortIsStable` | src/exec_rest_api/content_neg.py:33 | The sort is a permutation, descending in quality, and keeps the order among equals |
| `ContentNegotiation.ScanFindsBest` | src/exec_rest_api/content_neg.py:32-41 | The first eligible candidate of the sorted list is the earliest-listed one of greatest quality, and there is none iff none is eligible |
| `ContentNegotiation.PositiveDecides` | src/exec_rest_api/content_neg.py:35-41 | A choice is made iff some candidate of positive quality matches a supported type |
| `ContentNegotiation.SelectRepresentation` | src/exec_rest_api/content_neg.py:19-41 | From the header to the choice: the match of the earliest-listed candidate among those of greatest positive quality that match, and None iff there is none; for an absent, blank or empty header, and for the range of all types alone, the first supported type |
| `ContentNegotiation.ElementsOffered` | src/exec_rest_api/content_neg.py:19-41 | For every such header, also a blank one, the candidates chosen among are what its elements ask for |

## Left out

- HTTP serving, aiohttp sessions, logging, configuration, signal handling: calls into libraries that are not part of this model.
- The converters between RPC and REST shapes, `errors.py`, `delegation.py`, `block_id.py`, `block_resolve.py`, `chain_head.py`: field-by-field or table code that would only add easy members.  Resolving a fresh request's range and parsing its filter are the parameter `Intake`.
- `handlers/traces.py` paging: an easier variant of log paging without a reorg check.
- Real time: time-outs, back-off delays and heartbeat intervals are non-deterministic steps; the clock value in a heartbeat is a parameter.
- Cancelling tasks inside `subscribe`, `aclose` or the reconnect callback.
- LogsProtocol.HandleLogs: stands for both handlers, which differ only in how a fresh request is taken in and in the path of the `Link`; the `X-Page-Size` header and the rendering of items are not modelled, and a failing upstream call is one response whatever its status.
- Pagination.FetchLogsPaginated: block numbers and log indexes arrive as numbers, so an unreadable hex quantity in an upstream answer does not occur; the number of upstream calls is a ghost result.
- LogsRuns.RunDelivers: says nothing of tampered cursors or of a chain that changes within one request, where the code gives no guarantee.
- CursorCodec.CursorRoundTrip: payload text is below U+0080 because the printer escapes everything else; decoding other bytes and the leniency of Python's base64 decoder towards non-alphabet input are not modelled.
- JsonRoundTrip.LoadsPrint: no floats, NaN, lone surrogates or Python's limit on integer digits.
- SubscriptionManagement.SubscriptionManager: slot objects are records under an address in a map rather than heap objects, and a queue is its history with a count of what was taken; the sharing between the two dictionaries is explicit, aliasing by reference is not.
- SubscriptionManagement.SubscriptionManager.Close: sending `eth_unsubscribe` is reduced to handing out the id.
- SubscriptionManagement.SubscriptionManager.PublishGauge: metrics are taken to be configured.
- WebSocketClient.UpstreamWebSocket: time-outs, a failing send, the removal of a finished request, waking from back-off and `stop` are steps of the state machine only; the value carried by `data` in an RPC error is dropped, and an exception in a notification handler, which is logged and swallowed, is not modelled.
- Sessions.LostExactly: the chain only grows, and frames are received whole; a live event carries the block it announces.
- UpstreamWs.StepInv: connecting and entering the callback or the read loop is one step; an empty back-off schedule, on which the source would raise, is treated as one delay.
- Sse.ClientSeesFrames: characters are code points, so UTF-8 encoding and a byte-order mark are left out; event names and ids must hold no line break and ids no NUL.
- Heartbeats.StreamWithHeartbeat: a consumer that stops asking and one whose generator is closed are the same ending.
- Replay.ReplayBlocks: reading `Last-Event-ID` as a number is a parameter, and the block answered for a number is taken to carry it.
- AbiRevert.ReasonIsDeclaredBytes: speaks of bytes; the final UTF-8 decoding with replacement characters is left out.
- MetricLabels.LabelsRoundTrip: needs label names without an equals sign, which identifiers are; counters, gauges, histograms and number formatting are left out, as they would only add easy members.
- Encoding.WeiRoundTrip: only the string form of an amount; mathematical integers, without Python's limit on digits.
- ContentNegotiation.ParseAccept: reading a number is the parameter `number`, so NaN and infinite qualities do not occur, and whitespace is the four ASCII characters a header can carry.  The precedence by specificity of section 12.5.1 of RFC 9110 is not proved because the code does not implement it.
