# FastNet verification model

A Dafny model of the protocol and resource-management core of FastNet, a C++17 networking library, with proofs of
what that core promises. `dafny verify dfyconfig.toml` checks the whole project.

## What is modelled

**Connection manager** (`Balancer`, `Breaker`, `ServicePool`, `PoolInvariant`, `PoolSteps`, `PoolRuns`,
`LeaseAccounting`, `FairLeases`, `ConnectionManager`). `ServicePool` gives every operation as a function on the
state of the manager; `ConnectionManager` is the object, whose methods compute those functions with the loops of the
source. `PoolInvariant` and `PoolSteps` prove one invariant over all operations, `PoolRuns` what follows for whole
runs, `LeaseAccounting` when the lease counters are exact, and `FairLeases` carries the fairness of the weighted
balancer over to runs of the whole manager.

**WebSocket** (`Octets`, `Optional`, `Sizes`, `FrameCodec`, `Incremental`, `StreamBuffer`, `FrameStream`,
`CloseProtocol`, `Sha1`, `Base64`). `Incremental` is the theory of parsing read by read that the WebSocket and HTTP
streams share: a scanner that never changes its mind gives the same result however its input is split.

**HTTP** (`Text`, `Walks`, `Chunked`, `SizeScan`, `ChunkStream`, `RequestCodec`, `BodyScan`, `RequestScanner`,
`RequestPipeline`). The chunked coding both ways and as a stream, requests both ways, and the server's per-connection
pipeline as a state machine over arrivals and work. `Walks` is the theory of scans whose offset may move back.

**TCP output** (`OutboundQueue`, `OutboundDrain`). Every stretch of code under the send lock and every call into the
socket is one step; the theorems hold for every interleaving of the steps of senders, closers, the reader and the
drainer.

**Timers** (`TimerQueue`, `TimerToken`). The manager's queue and worker, and the tokens that keep a stopped timer quiet.

## How it is modelled

- Where the source updates fields, the model has a class with those fields, and each method is proved to compute a
  function on values; the theorems over runs are about those functions.
- A lock-protected stretch of code is one step. Choices of the environment (clock values, socket results, random draws,
  callbacks that succeed or fail) are parameters or events.
- Bytes are integers below 256. Bit operations on them are written arithmetically, except in `Sha1`, which uses 32-bit
  words. Text is a sequence of characters.
- A header map is the list of its fields in the order in which they were stored. Where the code walks the map in the
  order of its keys, `RequestCodec.Get` takes the least key.
- The streaming HTTP client accepts trailer lines that the one-shot decoder refuses, so the refinement
  `Chunked.StreamRefinesParse` starts from messages that the decoder accepts.
- Sums of sizes that the input determines are the 64-bit sums of the source: frame sizes, the ends of chunks, and head
  size plus declared length. Beside each such scan stands the same scan with exact arithmetic, and a theorem on when
  the two agree. `Sizes.MAX_BYTES` is the length that no string or buffer exceeds.
- An exception is one of the outcomes of the function that it leaves, and so is not ending.

## What turned out not to hold

Each of these is a lemma of the model: the condition under which the promise holds, and a run or an input at which
it fails.

- The lease counters are exact all through a run if and only if no backend is registered at an unregistered address
  that still has leases (`LeaseAccounting.AlwaysAccounted`); adding again what was removed with leases is such a
  registration (`LeaseAccounting.RestartedCounter`, `LeaseAccounting.CounterTooLow`).
- A base64 text is what encoding gives back if and only if its unused bits are zero (`Base64.Canonical`); others are
  accepted as well (`Base64.NotCanonical`).
- A request without a header field is always rejected, because the length of the header lines wraps around
  (`RequestCodec.NoFieldsRejected`).
- The server extracts what exact arithmetic gives unless the declared length or a chunk wraps around
  (`RequestScanner.ExtractIsScan`). A declared length that does always makes a difference, and may be served without
  end (`RequestScanner.WrappedRequest`, `RequestPipeline.ServedAgainAndAgain`). A turn at a chunk makes one if and only
  if the chunk wraps around (`BodyScan.TurnIsExact`): the request is served, the scan throws, or it never ends
  (`RequestScanner.ChunkSizeWraps`, `RequestScanner.ScanThrows`, `RequestPipeline.ServerHangs`).
- The decoder, the size scan and the stream of the client do what exact arithmetic does unless a chunk wraps around
  (`Chunked.DecodeIsParse`, `SizeScan.SizeIsDrained`, `Chunked.StreamedIsFed`); then the decoder throws, the size scan
  need not end and the stream may deliver too much (`SizeScan.SizeGoesRound`, `Chunked.WrappedTake`).
- A frame whose size wraps around is refused, unless the size wraps around to zero (`FrameCodec.WrappedFrame`).
- An answer that closes the connection is the last one if and only if it was not for too large a request
  (`RequestPipeline.LastAnswer`, `RequestPipeline.TooLargeThenServed`): after that one the connection is not marked as
  busy.
- Between a write and its accounting the send lock is taken and released once; exactly in that window the queue still
  shows bytes that were accepted (`OutboundQueue.StreamWithoutFlight`, `OutboundQueue.TakenButQueued`).
- When `disconnectAfterPendingWrites` closes an idle connection, bytes sent meanwhile are lost if and only if they are
  still queued (`OutboundQueue.CloseNowLosesTheQueue`, `OutboundQueue.LateSendIsLost`).
- When a timer's callback starts, no live timer is due before it if and only if none such was pushed since it was
  taken (`TimerQueue.StartsLeastFirst`, `TimerQueue.StartsOutOfOrder`): callers read the clock before they take the lock.
- A repeating timer cannot be cancelled while its callback runs (`TimerQueue.CancelMissesCalling`,
  `TimerQueue.LivesOnAfterMissedCancel`, `TimerQueue.CancelledAndFiredAgain`).
- A `Timer` callback begins after `stop` returned if its task had passed its token check before, and only then
  (`TimerToken.StopIsFinal`, `TimerToken.CallsAfterStop`).

## Model

| member | source | states |
|---|---|---|
| Balancer.ScanWeighted | src/ConnectionManager.cpp:265-277 | the scan raises every healthy backend by its effective weight, finds the leader and the total |
| Balancer.SelectWeighted | src/ConnectionManager.cpp:265-282 | one selection is one turn of smooth weighted round robin |
| Balancer.LeaderIsGreatest | src/ConnectionManager.cpp:268-277 | the leader is healthy, no healthy backend overtakes it, and it strictly overtakes every earlier one: ties go to the first |
| Balancer.TurnKeepsBalance | src/ConnectionManager.cpp:265-282 | a turn keeps the current weights summing to zero and each above minus the total |
| Balancer.RotationKeepsBalance | src/ConnectionManager.cpp:265-282 | the same after any number of turns from zero, with weights and health unchanged |
| Balancer.Ledger | src/ConnectionManager.cpp:265-282 | after t turns a current weight is exactly t times the weight minus picks times the total |
| Balancer.NeverAheadOfShare | src/ConnectionManager.cpp:265-282 | after t turns n picks satisfy n*W < t*w + W: no backend is ever a whole pick ahead of its share |
| Balancer.ExactlyFair | src/ConnectionManager.cpp:265-282 | after any whole number of rounds each backend was picked exactly its weight per round and all current weights are zero again |
| FairLeases.TrafficStep | src/ConnectionManager.cpp:410-530 | in any state of the manager, traffic (leases, releases, closes, execution reports, anything done to other services, health reports and maintenance that change no health or current weight) takes a turn of the balancer exactly when it opens a connection, and otherwise leaves the shares alone |
| FairLeases.ReportKeepsShares | src/ConnectionManager.cpp:713-776 | a health report leaves the shares of a service alone if and only if it changes no health and no current weight: a success for a healthy backend at weight zero, a failure below the threshold, or one for an unhealthy backend at weight zero |
| FairLeases.MaintenanceKeepsShares | src/ConnectionManager.cpp:187-223 | a maintenance round leaves the shares of a service alone if and only if no unhealthy backend of it is due for recovery |
| FairLeases.TrafficIsRotation | src/ConnectionManager.cpp:236-297 | a stretch of traffic in a run of the whole manager is a rotation of the balancer, one turn for each connection opened |
| FairLeases.PicksAreOpenings | src/ConnectionManager.cpp:138-158 | the picks of a backend are the connections opened to its address |
| FairLeases.TrafficExactlyFair | src/ConnectionManager.cpp:265-282 | over runs of the whole manager: a whole number of rounds of openings gives every healthy backend exactly its weight per round |
| FairLeases.TrafficNeverAhead | src/ConnectionManager.cpp:265-282 | over runs of the whole manager: openings to a backend are never a whole one ahead of its share |
| Breaker.AlwaysSound | src/ConnectionManager.cpp:55-82 | over every sequence of events: closed exactly when the failures are below the threshold, half-open only with fewer successes than attempts |
| Breaker.DisabledStaysClosed | src/ConnectionManager.cpp:299-320 | a breaker that is switched off never changes |
| Breaker.RefusesWhileCooling | src/ConnectionManager.cpp:299-320 | an open breaker admits nothing before the recovery time has passed, whatever is reported meanwhile |
| Breaker.ProbationSoFar | src/ConnectionManager.cpp:55-82 | a half-open breaker has been on probation since some moment, with exactly its success count of success reports since and no failure |
| Breaker.ClosesOnlyAfterProbation | src/ConnectionManager.cpp:55-82 | every way from open to closed ends in a half-open stretch with exactly the required number of success reports and no failure |
| PoolRuns.StretchBreaker | src/ConnectionManager.cpp:299-336 | in a run of the manager the breaker of a service changes exactly as its own events say, whatever else happens |
| PoolRuns.BreakersAlwaysSound | src/ConnectionManager.cpp:55-82 | every breaker in every reachable state of the manager is sound |
| PoolRuns.NewServiceFresh | src/ConnectionManager.cpp:127-136 | a service enters the manager with a fresh breaker |
| PoolRuns.RecoversOnlyByProbation | src/ConnectionManager.cpp:55-82 | over runs of the manager: a service that was open and is closed went through a full probation |
| PoolRuns.NoLeaseWhileOpen | src/ConnectionManager.cpp:410-434 | over runs of the manager: no lease is granted while open before the recovery time has passed |
| PoolRuns.HalfOpenLimit | src/ConnectionManager.cpp:299-320 | a granted lease leaves the breaker not open, and in the half-open state at most the allowed number of counted leases |
| PoolRuns.LeaseCountsOne | src/ConnectionManager.cpp:436-483 | a granted lease raises the sum of the counters by exactly one, a refused one by none |
| PoolInvariant.RemoveConnectionKeeps | src/ConnectionManager.cpp:160-185 | removing a connection keeps the invariant |
| PoolInvariant.PurgeKeeps | src/ConnectionManager.cpp:646-665 | removing a set of idle connections, all that lead to a lost backend among them, restores the invariant |
| PoolInvariant.CreateKeeps | src/ConnectionManager.cpp:138-158 | opening a connection below the limit keeps the invariant |
| PoolSteps.IdleReusable | src/ConnectionManager.cpp:436-456 | every idle id is an inactive connection of the service whose backend is registered and healthy: the discard branches of the search cannot be taken |
| PoolSteps.SearchFinds | src/ConnectionManager.cpp:436-471 | the search drops the expired front of the idle list and leases the first connection that is not expired, or none |
| PoolSteps.AcquireKeeps | src/ConnectionManager.cpp:410-483 | acquiring keeps the invariant |
| PoolSteps.ReleaseKeeps | src/ConnectionManager.cpp:485-519 | releasing keeps the invariant, whether the backend still exists and is healthy or not |
| PoolSteps.AddBackendKeeps | src/ConnectionManager.cpp:606-634 | adding a backend keeps the invariant |
| PoolSteps.RemoveBackendKeeps | src/ConnectionManager.cpp:636-666 | removing a backend keeps the invariant |
| PoolSteps.UpdateWeightKeeps | src/ConnectionManager.cpp:668-689 | changing a weight keeps the invariant |
| PoolSteps.ReportStatusKeeps | src/ConnectionManager.cpp:713-776 | health reports keep the invariant |
| PoolSteps.ReportExecutionKeeps | src/ConnectionManager.cpp:778-804 | execution reports keep the invariant |
| PoolSteps.CleanupExpiredKeeps | src/ConnectionManager.cpp:187-200 | expiry keeps the invariant |
| PoolSteps.MaintainKeeps | src/ConnectionManager.cpp:202-223 | the health check keeps the invariant |
| PoolSteps.StepKeeps | src/ConnectionManager.cpp:410-804 | every operation keeps the invariant |
| PoolSteps.AlwaysInvariant | src/ConnectionManager.cpp:127-804 | in every reachable state: idle lists duplicate-free and exact, counters exact and within the limit, inactive connections only to healthy registered backends, lease counters never above the active entries |
| PoolRuns.GoneForever | src/ConnectionManager.cpp:160-185 | an id that was issued and is gone never comes back and is never handed out again |
| PoolRuns.HeldUntilReleased | src/ConnectionManager.cpp:457-470 | an acquired id stays active until it is released or gone |
| PoolRuns.NoDoubleLease | src/ConnectionManager.cpp:436-471 | between two acquisitions of the same id there is a release of it |
| PoolRuns.NeverAfterClose | src/ConnectionManager.cpp:521-530 | an id is never handed out after it was closed |
| LeaseAccounting.StepAccounted | src/ConnectionManager.cpp:410-804 | an operation keeps every counter equal to the active entries for its address if and only if it does not register a backend at an unregistered address that has leases |
| LeaseAccounting.AlwaysAccounted | src/ConnectionManager.cpp:410-804 | the counters are exact all through a run if and only if no operation of it is such a registration |
| LeaseAccounting.ExactWithoutOrphans | src/ConnectionManager.cpp:636-666 | in particular they are exact in every run that never removes a backend with outstanding leases |
| LeaseAccounting.CounterTooLow | src/ConnectionManager.cpp:606-666 | a run that adds, leases, removes and adds a backend ends with a counter of zero and one lease |
| LeaseAccounting.RestartedCounter | src/ConnectionManager.cpp:606-666 | removing and re-adding a backend leaves its counter exact if and only if it had no outstanding leases |
| ServicePool.Select | src/ConnectionManager.cpp:236-297 | with any strategy, key and draw: a healthy backend whenever there is one, and none otherwise |
| ServicePool.LeastLoaded | src/ConnectionManager.cpp:255-264 | the healthy backend that no other healthy one undercuts in leases, or in weight among equals, and the first of those |
| ConnectionManager.SelectBackend | src/ConnectionManager.cpp:236-297 | each strategy picks the backend its specification says, and none if none is healthy |
| ConnectionManager.FewestActive | src/ConnectionManager.cpp:255-264 | the healthy backend with the fewest leases, the heavier of equals, the first of those |
| ConnectionManager.ConnectionManager.EnsureService | src/ConnectionManager.cpp:127-136 | the service exists afterwards; nothing else changes |
| ConnectionManager.ConnectionManager.Remove | src/ConnectionManager.cpp:160-185 | the connection leaves table, idle list and counters |
| ConnectionManager.ConnectionManager.ReuseIdle | src/ConnectionManager.cpp:436-471 | the search loop over the idle list is the specified search |
| ConnectionManager.ConnectionManager.OpenConnection | src/ConnectionManager.cpp:138-158 | a fresh id, counted once for service and backend |
| ConnectionManager.ConnectionManager.AcquireConnection | src/ConnectionManager.cpp:410-483 | the whole new state and the id, or zero, are those of the specification |
| ConnectionManager.ConnectionManager.ReleaseConnection | src/ConnectionManager.cpp:485-519 | the new state is that of the specification: the connection is idle again, or gone if its backend is |
| ConnectionManager.ConnectionManager.CloseConnection | src/ConnectionManager.cpp:521-530 | the new state is that of the specification: the connection is gone, and out of all counters |
| ConnectionManager.ConnectionManager.AddBackendServer | src/ConnectionManager.cpp:606-634 | the new state is that of the specification: the backend is registered, or reset to healthy with the weight |
| ConnectionManager.ConnectionManager.RemoveBackendServer | src/ConnectionManager.cpp:636-666 | the whole new state is that of the specification, with a loop that removes idle connections one by one |
| ConnectionManager.ConnectionManager.UpdateBackendWeight | src/ConnectionManager.cpp:668-689 | the new state is that of the specification: only the weight and share of the backend change |
| ConnectionManager.ConnectionManager.SetStrategy | src/ConnectionManager.cpp:700-705 | the service, created if need be, gets the strategy |
| ConnectionManager.ConnectionManager.ReportBackendStatus | src/ConnectionManager.cpp:742-776 | the report to one service is that of the specification |
| ConnectionManager.ConnectionManager.ReportBackendStatusEverywhere | src/ConnectionManager.cpp:713-740 | going through the services one after the other is the report to all of them at once |
| ConnectionManager.ConnectionManager.ReportExecutionOf | src/ConnectionManager.cpp:791-804 | the breaker of the service changes as specified |
| ConnectionManager.ConnectionManager.ReportExecutionEverywhere | src/ConnectionManager.cpp:778-789 | every breaker changes as specified |
| ConnectionManager.ConnectionManager.CleanupExpiredConnections | src/ConnectionManager.cpp:187-200 | expired connections and stale idle entries are gone |
| ConnectionManager.ConnectionManager.PerformHealthCheck | src/ConnectionManager.cpp:202-223 | breakers that have cooled down go half-open and backends recover, as specified |
| ConnectionManager.ConnectionManager.MaintenanceRound | src/ConnectionManager.cpp:355-371 | expiry followed by the health check |
| ConnectionManager.ConnectionManager.Cleanup | src/ConnectionManager.cpp:391-404 | everything is dropped but the id counter |
| FrameCodec.EncodedSize | src/WebSocketProtocol.cpp:235-246 | the announced header size plus the payload is the size of the frame |
| FrameCodec.AppliedTwice | src/WebSocketProtocol.cpp:323-326 | masking twice with the same key gives the payload back |
| FrameCodec.DecodeEncode | src/WebSocketProtocol.cpp:306-328 | decoding an encoded frame, whatever follows it, gives payload, type and mask flag back if the payload is allowed for the type, and is rejected otherwise |
| FrameCodec.EncodeDecode | src/WebSocketProtocol.cpp:430-519 | every accepted final frame re-encodes with its own key to the same bytes |
| FrameCodec.DecodeNeedsFrame | src/WebSocketProtocol.cpp:493-506 | an accepted buffer holds a whole frame of the size that the framing scan reports |
| FrameCodec.SizeOfEncoded | src/WebSocketServer.cpp:612-645 | the framing scan with its 64-bit sum reports the exact frame size with any suffix, and zero on every proper prefix |
| FrameCodec.SizeIsStable | src/WebSocketClient.cpp:545-586 | a reported size, wrapped around or not, does not change when more bytes arrive; what it cuts off has that size itself if and only if the length field lies within it |
| FrameCodec.WrappedFrame | src/WebSocketClient.cpp:545-586 | a frame whose size wraps around is refused once its head is there, or waited for without end if and only if the size wraps around to zero |
| FrameCodec.WritePayloadLength | src/WebSocketProtocol.cpp:248-267 | the length field is the mask bit with the marker and the big-endian extension |
| FrameCodec.EncodeFrame | src/WebSocketProtocol.cpp:306-328 | the buffer filled step by step is the specified frame |
| FrameCodec.ParseLength | src/WebSocketProtocol.cpp:448-473 | the length field read byte by byte, minimal encodings only |
| FrameCodec.Unmask | src/WebSocketProtocol.cpp:499-507 | the loop over the payload applies the key |
| FrameCodec.DecodeFrame | src/WebSocketProtocol.cpp:430-519 | the decoder step by step is the specified one |
| StreamBuffer.StreamBuffer.Append | src/WebSocketServer.cpp:338-362 | the view grows by the data |
| StreamBuffer.StreamBuffer.Compact | src/WebSocketServer.cpp:656-672 | compaction never changes the view, and leaves no prefix that is both long and mostly waste |
| StreamBuffer.StreamBuffer.Consume | src/WebSocketServer.cpp:520-527 | the view loses exactly its first n bytes |
| Incremental.SplitIndependent | src/WebSocketServer.cpp:500-546 | for any scanner that does not change its mind, feeding read by read gives the outcome of the whole input |
| Incremental.DrainPrefix | src/WebSocketServer.cpp:500-546 | after any prefix of a stream of encoded items exactly the complete items were taken, and a proper part of the next is left |
| Incremental.DrainWhole | src/WebSocketClient.cpp:456-478 | a whole stream of encoded items is taken in full and in order however it is split |
| FrameStream.DeliversAll | src/WebSocketServer.cpp:500-546 | any split of the bytes of a message sequence into reads dispatches exactly the sequence, in order, with nothing left over |
| FrameStream.DeliversPromptly | src/WebSocketClient.cpp:456-478 | after any prefix exactly the messages complete in it were dispatched |
| FrameStream.SmallEnough | src/WebSocketServer.cpp:513-516 | reads that fit together with one message stay within the backlog limit |
| FrameStream.Receiver.HandleFrames | src/WebSocketClient.cpp:456-478 | the loop takes what the scanner takes, stops at a close frame, a bad frame or too much backlog |
| FrameStream.Receiver.HandleDataReceived | src/WebSocketClient.cpp:329-342 | one read continues where the last one stopped |
| FrameStream.Receiver.ReadAll | src/WebSocketServer.cpp:338-362 | all reads one after the other give the outcome of the whole input |
| FrameStream.Deliver | src/WebSocketServer.cpp:338-362 | end to end on the object: the dispatched frames are the sent messages, in order, and the buffer is empty |
| CloseProtocol.AlwaysSound | src/WebSocketClient.cpp:112-157 | over every sequence of calls and events: nothing but ping and pong follows a close frame, and the close callback runs at most once |
| CloseProtocol.ClosesAtMostOnce | src/WebSocketClient.cpp:130-157 | at most one close frame is sent, and no text or binary frame after it |
| CloseProtocol.OneClose | src/WebSocketClient.cpp:130-157 | an orderly sequence of frames holds at most one close frame |
| CloseProtocol.ToldExactlyOnce | src/WebSocketClient.cpp:316-327 | when the transport goes, the user of an open session has been told exactly once, and of one never opened not at all |
| CloseProtocol.NotifiedMeansOpen | src/WebSocketClient.cpp:224-232 | the user is told of a close only for a session that was open or closing |
| CloseProtocol.PeerCloseIsAnswered | src/WebSocketClient.cpp:498-521 | a close frame of the peer in an open session is answered with one |
| CloseProtocol.Client.SendMessage | src/WebSocketClient.cpp:112-128 | a message goes out exactly if the session is open and the transport takes it, and never behind a close frame; the session stays sound |
| CloseProtocol.Client.CloseSession | src/WebSocketClient.cpp:130-157 | however often it is called one close frame goes out at most, in an open session it does if the transport takes it, and no message is taken from then on |
| CloseProtocol.Client.HandleDisconnected | src/WebSocketClient.cpp:316-327 | the session is down and the user of one that was open or closing has been told exactly once |
| CloseProtocol.Client.Handle | src/WebSocketClient.cpp:112-157 | any event adds at most one frame, behind a close frame only ping or pong, and never a second notice |
| CloseProtocol.Live | src/WebSocketClient.cpp:480-530 | a client that goes through any events from connect on has sent one close frame at most, no message behind it, and told its user once at most |
| CloseProtocol.Client.HandlePing | src/WebSocketClient.cpp:522-524 | a ping is answered exactly if the session is open or closing and the transport takes the answer |
| CloseProtocol.Client.HandleClose | src/WebSocketClient.cpp:498-508 | the user of an open or closing session has then been told, once, and nothing was sent |
| CloseProtocol.Client.AnswerClose | src/WebSocketClient.cpp:509-519 | at most a close frame goes out, never a second one, and in an open session that is to answer it does if the transport takes it |
| Sha1.FillSchedule | src/WebSocketProtocol.cpp:92-106 | the 80 words of the message schedule |
| Sha1.RunRounds | src/WebSocketProtocol.cpp:108-133 | the 80 rounds |
| Sha1.Hasher.ProcessBlock | src/WebSocketProtocol.cpp:92-140 | one application of the block function of section 6.1.2 of FIPS 180-4 |
| Sha1.PaddingOf | src/WebSocketProtocol.cpp:46-60 | what is appended to a message of any length is the padding of section 5.1.1 of FIPS 180-4 |
| Sha1.Hasher.Update | src/WebSocketProtocol.cpp:29-44 | the buffered object has absorbed exactly the data so far, whole blocks folded in |
| Sha1.Hasher.Finalize | src/WebSocketProtocol.cpp:46-74 | the 20 bytes are the digest of everything absorbed, most significant bytes first |
| Sha1.DigestOf | src/WebSocketProtocol.cpp:29-74 | any split of a message into updates gives the 20 bytes of its digest |
| Sha1.WrittenBack | src/WebSocketProtocol.cpp:66-72 | read as big-endian words, the bytes of a digest are the words of the state |
| Base64.EncodeBytes | src/base64.cpp:36-55 | the encoding of section 4 of RFC 4648 |
| Base64.Normalize | src/base64.cpp:57-74 | white space is dropped; anything outside alphabet and padding is refused |
| Base64.TryDecode | src/base64.cpp:92-173 | the decoder step by step is the specified one |
| Base64.DecodeEncoded | src/base64.cpp:92-173 | encodings have the right alphabet and length and decode to the data |
| Base64.RoundTrip | src/base64.cpp:92-173 | an encoding with white space inserted anywhere decodes to the data |
| Base64.Canonical | src/base64.cpp:141-163 | an accepted text is the encoding of what it decodes to if and only if the unused bits of its last symbol are zero |
| Base64.NotCanonical | src/base64.cpp:141-147 | a concrete text that is accepted and not what encoding gives |
| Text.ReadNumber | src/HttpParser.cpp:62-108 | digit by digit with the overflow test: the number, or nothing if there is no digit, one is wrong, or it exceeds the largest size |
| Text.DigitsRoundTrip | src/HttpParser.cpp:237-259 | reading a number that was written, decimal or hexadecimal, gives it back |
| Chunked.ParseChunked | src/HttpParser.cpp:584-637 | the decoder with its moving offset and 64-bit sums is the specified one, the exception for an overlong append included |
| Chunked.DecodeIsParse | src/HttpParser.cpp:624-633 | the decoder does what exact arithmetic does if and only if no chunk on the way has an end that wraps around; if one has, it throws |
| Chunked.OnlyTrailers | src/HttpParser.cpp:606-621 | the rest is trailer lines and the empty line, and nothing more |
| Chunked.BuildChunked | src/HttpParser.cpp:639-658 | the encoder block by block is the specified one |
| Chunked.RoundTrip | src/HttpParser.cpp:584-658 | decoding an encoded body gives it back, for every body whose encoding fits into a string |
| Chunked.EndIsExact | src/HttpClient.cpp:270-276 | the end of a chunk is what exact arithmetic gives if and only if the 64-bit sum does not wrap around; if it does, exact arithmetic waits and the code does not |
| Chunked.StreamRefinesParse | src/HttpClient.cpp:1113-1177 | a message that the decoder accepts, in any split, delivers pieces that make up its body and completes with the last byte |
| Chunked.OpenUntilTheEnd | src/HttpClient.cpp:1113-1177 | before the last byte the stream is open and has delivered a prefix of the body |
| Chunked.StreamedIsFed | src/HttpClient.cpp:1113-1177 | if no chunk on the way wraps around, the stream with 64-bit sums is that of exact arithmetic, however the message is split |
| Chunked.WrappedTake | src/HttpClient.cpp:1160-1174 | of a chunk that wraps around: the stream delivers everything that is there if the size is 2^64 - 2, and otherwise throws or gives up |
| SizeScan.GetChunkedMessageSize | src/HttpClient.cpp:232-278 | wherever the size scan with its moving 64-bit offset ends, it answers as specified: undecided, malformed, an exception or a size |
| SizeScan.SizeOfAccepted | src/HttpClient.cpp:232-278 | an accepted message has its own length as its size |
| SizeScan.SizeIsStable | src/HttpClient.cpp:232-278 | whatever the scan comes to, unless it lacks input, is not changed by more input, wrapped around or not; a size is never mistaken for malformed |
| SizeScan.SizeIsDrained | src/HttpClient.cpp:232-278 | if no chunk on the way wraps around, the scan says of a message what the stream says of it |
| SizeScan.SizeGoesRound | src/HttpClient.cpp:232-278 | a message of 24 bytes on which the scan never ends |
| Walks.NeverEnds | src/HttpClient.cpp:232-278 | a scan with a moving offset that has not ended after one turn for every offset never ends |
| ChunkStream.BodyStream.WalkTrailers | src/HttpClient.cpp:1136-1163 | the trailer walk is the specified scan |
| ChunkStream.BodyStream.ReadChunk | src/HttpClient.cpp:1115-1174 | one chunk at the front, with the 64-bit sums of the source: complete, incomplete or malformed |
| ChunkStream.BodyStream.ConsumeStreamingChunkedBody | src/HttpClient.cpp:1113-1177 | the loop delivers, completes or fails as the whole buffer demands |
| ChunkStream.Consume | src/HttpClient.cpp:1113-1177 | all reads one after the other give the specified outcome of the stream |
| ChunkStream.DeliversBody | src/HttpClient.cpp:1100-1177 | end to end on the object: no failure, completion exactly once and exactly at the last byte, delivered pieces that make up the body |
| RequestCodec.ParseHeaderLines | src/HttpParser.cpp:166-224 | the loop over header lines is the specified one, duplicates, limits and folded lines included |
| RequestCodec.AppendHeaders | src/HttpParser.cpp:297-317 | the fields in order, with a generated length exactly if neither length nor encoding is given |
| RequestCodec.RoundTrip | src/HttpParser.cpp:403-479 | parsing a written request, whatever follows it, gives back method, target, the fields with the generated length, and the body |
| RequestCodec.HeadParses | src/HttpParser.cpp:418-479 | the head of a written request parses whatever lies behind it, and ends where the body begins |
| RequestCodec.BodyOfBuilt | src/HttpParser.cpp:145-164 | the generated length cuts the body out of whatever follows |
| RequestCodec.NoFieldsRejected | src/HttpParser.cpp:470-475 | a request without any header field is rejected, whatever else it holds |
| RequestCodec.AcceptedIsUnambiguous | src/HttpParser.cpp:187-214 | every accepted head declares at most one length or encoding, never both; its names are tokens and at most 128 |
| RequestScanner.GetFirst | src/HttpParser.cpp:345-352 | a lookup gives the matching field that comes first in the order of the map |
| RequestScanner.QuietIsKeptAlive | src/HttpServer.cpp:983-998 | a request of version 1.1 that does not mention the connection is kept alive |
| BodyScan.ChunkedBodyArrives | src/HttpServer.cpp:946-981 | a body that was chunked is found by the 64-bit scan as a whole and nothing more, and decodes to what was chunked |
| BodyScan.GetChunkedMessageSize | src/HttpServer.cpp:946-981 | wherever the scan with its moving 64-bit offset ends, it answers as specified: undecided, malformed, an exception or a size |
| BodyScan.TurnIsExact | src/HttpServer.cpp:949-979 | one turn of the scan is that of exact arithmetic if and only if the end of the chunk does not wrap around; if it does, exact arithmetic waits and the server does not |
| BodyScan.BodySizeIsScan | src/HttpServer.cpp:946-981 | if no chunk on the way wraps around, the scan says what exact arithmetic says of the body |
| BodyScan.BodySizeStable | src/HttpServer.cpp:946-981 | whatever the scan comes to, unless it lacks input, is not changed by more input, wrapped around or not |
| BodyScan.SameSize | src/HttpServer.cpp:955-960 | a size line that the decoder can read is read as the same size by the scan |
| BodyScan.MinusTwo | src/HttpServer.cpp:955-979 | the body with the chunk size -2, which the scan finds complete and exact arithmetic does not |
| BodyScan.GoesRound | src/HttpServer.cpp:955-979 | the body with the chunk size -6 behind a chunk of one byte, on which the scan never ends |
| BodyScan.MinusSix | src/HttpServer.cpp:973-976 | the body with the chunk size -6 at the front, on which the scan throws |
| RequestScanner.ExtractIsScan | src/HttpServer.cpp:346-412 | what the server extracts with its 64-bit sums is what exact arithmetic gives, unless the declared length or a chunk wraps around; if one does, exact arithmetic waits for more, and for a declared length the server never does |
| RequestScanner.ExtractStable | src/HttpServer.cpp:346-412 | whatever comes of an attempt to extract, unless it lacks input, comes of it when more has arrived, chunk sizes that wrap around included; only a declared length that wraps around is an exception |
| RequestScanner.TakesFour | src/HttpServer.cpp:346-412 | a request takes at least four bytes off, unless its declared length wraps around |
| RequestScanner.ChunkedRequestServed | src/HttpServer.cpp:346-412 | a request whose body was chunked is served with the decoded body and taken off as a whole, whatever follows it |
| RequestScanner.ChunkSizeWraps | src/HttpServer.cpp:367-377 | the request with the chunk size -2 is served, where exact arithmetic waits |
| RequestScanner.ScanHangs | src/HttpServer.cpp:367-377 | the request with the chunk size -6 behind a chunk of one byte: the attempt never ends |
| RequestScanner.ScanThrows | src/HttpServer.cpp:367-377 | the request with the chunk size -6 at the front: the attempt throws |
| RequestScanner.WrappedRequest | src/HttpServer.cpp:378-394 | a concrete request of 56 bytes whose sum wraps around to zero: the server takes nothing off and serves it |
| RequestScanner.WrittenNeverWraps | src/HttpServer.cpp:378-394 | no beginning of a written request that fits into memory wraps around |
| RequestScanner.LengthAlwaysReads | src/HttpServer.cpp:378-388 | of every accepted head the server reads the same length as the parser: the branch for an unreadable length is never taken |
| RequestScanner.WrittenIsExtracted | src/HttpServer.cpp:346-412 | a written request of a known method that fits into memory is extracted as one request: all of it and nothing more |
| RequestPipeline.NoStrandedRequest | src/HttpServer.cpp:237-344 | over every interleaving of arrivals and work: when nobody processes a connection, its buffer holds no request that could be extracted; a worker that does not come back keeps the connection busy |
| RequestPipeline.ServesTheStream | src/HttpServer.cpp:266-344 | if the worker always finds the buffer within the limit and no sum wraps around in it, then once it is through the answers are those of everything that arrived taken at once: the interleaving makes no difference |
| RequestPipeline.ArrivedExact | src/HttpServer.cpp:237-344 | it is enough that no sum wraps around on the way through the bytes that arrived |
| RequestPipeline.NeverTooLarge | src/HttpServer.cpp:280-291 | nothing is answered as too large if and only if the worker always finds the buffer within the limit |
| RequestPipeline.LastAnswer | src/HttpServer.cpp:280-341 | an answer that closes the connection or could not be sent is followed by no other, whatever happens, if and only if the buffer was within the limit |
| RequestPipeline.AnswersAfterTooLarge | src/HttpServer.cpp:280-291 | after a request that was too large, whatever arrives before the close is answered as if nothing had happened |
| RequestPipeline.TooLargeThenServed | src/HttpServer.cpp:280-291 | a run from the beginning, for every limit the server allows, that answers too large and then serves a request |
| RequestPipeline.QuietIsPipelined | src/HttpServer.cpp:346-412 | every writable request of a known method that fits into memory and does not mention the connection is covered by the next rows |
| RequestPipeline.ServesEveryRequest | src/HttpServer.cpp:237-344 | end to end: once all have arrived, requests written one behind the other have reached the application complete and in order, however they are split and interleaved, as long as the worker finds the buffer within the limit |
| RequestPipeline.ServesPromptly | src/HttpServer.cpp:237-344 | at any quiet moment exactly the requests that have arrived completely are answered, and the buffer holds a proper part of the next |
| RequestPipeline.PacedFits | src/HttpServer.cpp:280-291 | a sender that never has more than the limit on the way beyond the requests whose answers it has seen keeps the buffer within the limit |
| RequestPipeline.WorkTakesFour | src/HttpServer.cpp:292-297 | every turn after which the worker goes on takes at least four bytes off, unless a declared length wraps around |
| RequestPipeline.ClientState.HandleDataReceived | src/HttpServer.cpp:237-264 | the view grows by the data, and a worker is asked for exactly if none is at work |
| RequestPipeline.ClientState.ProcessOne | src/HttpServer.cpp:271-309 | one turn of the worker, where it ends, as the work step has it: too large, nothing, malformed, an exception or one request |
| RequestPipeline.ClientState.ProcessBufferedRequests | src/HttpServer.cpp:266-344 | whatever sends fail, the worker loop ends, in the state that working everything off leads to, if on the way no attempt to extract hangs and every request takes something off |
| RequestPipeline.ExactFinishes | src/HttpServer.cpp:266-344 | that is so in particular if no sum wraps around on the way |
| RequestPipeline.Silenced | src/HttpServer.cpp:266-344 | after an attempt that hangs or throws, nothing is ever answered on the connection |
| RequestPipeline.ServerHangs | src/HttpServer.cpp:266-344 | a run from the beginning, for every limit the server allows, after which nothing ever happens to the connection again |
| RequestPipeline.ServedAgainAndAgain | src/HttpServer.cpp:266-344 | the request whose declared length wraps around to nothing is served as often as the worker looks |
| OutboundQueue.Run | src/TcpClient.cpp:333-364 | in every reachable state: accepted bytes followed by what is unsent and not in flight are the bytes sent, the pending counter is exact, write interest is on exactly when something is queued, and a waiting close has bytes to wait for |
| OutboundQueue.StepGood | src/TcpClient.cpp:908-1042 | every step of sender, closer, reader and drainer keeps all of that |
| OutboundQueue.StreamWithoutFlight | src/TcpClient.cpp:981-991 | accepted bytes followed by the queue from its offset are the bytes sent if and only if no accepted bytes are unaccounted for |
| OutboundQueue.TakenButQueued | src/TcpClient.cpp:981-988 | a run into that window, for any data |
| OutboundQueue.NoStalledOutput | src/TcpClient.cpp:1967-2002 | while running, the socket is watched for writing exactly when something is queued, and a close waits only for queued bytes |
| OutboundQueue.NothingLiesIdle | src/TcpClient.cpp:908-938 | when nobody drains, nothing is queued or the socket last refused and is watched |
| OutboundQueue.CloseIsNotForgotten | src/TcpClient.cpp:304-331 | a waiting close is only ever given up by carrying it out, with everything accepted |
| OutboundQueue.GracefulCloseLosesNothing | src/TcpClient.cpp:304-331 | closed by the drainer, every byte ever sent was accepted; closed at once, every byte sent before the very call that closed it was |
| OutboundQueue.CloseNowLosesTheQueue | src/TcpClient.cpp:328-330 | a close at once loses bytes if and only if something is queued when it is carried out |
| OutboundQueue.LateSendIsLost | src/TcpClient.cpp:321-330 | and there is a run in which any data sent in between is lost |
| OutboundDrain.DrainsEverything | src/TcpClient.cpp:939-1042 | if the socket takes something with every write, one drain hands over everything sent, and closes exactly if that was asked for |
| OutboundDrain.Drained | src/TcpClient.cpp:939-1042 | a drain by itself ends leaving or closing, in a good state |
| OutboundDrain.Client.MarkFlushScheduled | src/TcpClient.cpp:895-906 | the drainer is started once, or asked to go round again |
| OutboundDrain.Client.Send | src/TcpClient.cpp:333-364 | the data is at the end of the queue, counted and announced; the caller is told whether to run the drainer |
| OutboundDrain.Client.DisconnectAfterPendingWrites | src/TcpClient.cpp:304-331 | the close waits if bytes are pending; otherwise the caller is told to close at once |
| OutboundDrain.Client.AccountFor | src/TcpClient.cpp:986-1019 | offset and counter move by what was taken, a finished entry leaves the queue, and a waiting close is due when it was the last |
| OutboundDrain.Client.DrainOnce | src/TcpClient.cpp:940-1037 | one turn of the loop is the drainer's steps in order |
| OutboundDrain.Client.DrainSendQueue | src/TcpClient.cpp:939-1042 | the loop is the specified drain |
| OutboundDrain.Client.FinishFlush | src/TcpClient.cpp:912-929 | the drainer leaves, or goes round again if it was asked to meanwhile |
| OutboundDrain.Client.Close | src/TcpClient.cpp:738-778 | queue and flags are dropped, what was sent and accepted stands |
| TimerQueue.AlwaysSound | src/Timer.cpp:94-205 | in every reachable state the active timers are exactly the queued ones that are not cancelled, and a timer in the worker's hand is neither queued nor cancelled |
| TimerQueue.TakesLeastFirst | src/Timer.cpp:141-167 | a timer is taken off when it is due and no live timer is due before it |
| TimerQueue.FiresWhenDue | src/Timer.cpp:169-180 | whenever a callback starts, its timer was taken and is due |
| TimerQueue.StartsLeastFirst | src/Timer.cpp:112-134 | when the callback of a taken timer is about to start, no live timer is due before it if and only if none was pushed since the take that is due before it and still live |
| TimerQueue.StartsLeastIfNonePrepared | src/Timer.cpp:119-130 | it is enough that at the take no caller was between reading the clock and pushing |
| TimerQueue.StartsOutOfOrder | src/Timer.cpp:119-130 | a run in which a timer starts although one due before it is live |
| TimerQueue.CancelledNeverStarts | src/Timer.cpp:94-105 | a timer whose cancellation succeeded never starts again |
| TimerQueue.CancelMissesCalling | src/Timer.cpp:94-105 | cancelling a timer that the worker has in hand fails and changes nothing |
| TimerQueue.LivesOnAfterMissedCancel | src/Timer.cpp:182-202 | a repeating timer cancelled during its own callback is queued again afterwards, live, and due at its next time, whatever else is queued |
| TimerQueue.FiresAfterMissedCancel | src/Timer.cpp:182-202 | with nothing else queued it then fires again |
| TimerQueue.CancelledAndFiredAgain | src/Timer.cpp:182-202 | a run from the beginning in which that happens |
| TimerQueue.IntervalsApart | src/Timer.cpp:188-193 | two due times at which the same timer fired are at least its interval apart |
| TimerQueue.NotBeforeDelay | src/Timer.cpp:112-134 | a timer never fires before its delay has passed since it was scheduled |
| TimerQueue.OneShotFiresOnce | src/Timer.cpp:182-186 | a timer fires twice only if it repeats |
| TimerQueue.TimerManager.PrepareTimer | src/Timer.cpp:119-124 | the timer has a fresh id and is due after its delay, and queue and active timers are as before |
| TimerQueue.TimerManager.PushTimer | src/Timer.cpp:126-130 | whatever happened since it was prepared, the timer is then queued and active |
| TimerQueue.TimerManager.CancelTimer | src/Timer.cpp:94-105 | an active timer is cancelled for good and true returned; otherwise nothing changes and false is returned |
| TimerQueue.TimerManager.Top | src/Timer.cpp:150-150 | no queued timer is due before the one on top |
| TimerQueue.TimerManager.TakeDue | src/Timer.cpp:141-167 | cancelled timers are thrown away, the live timer due first is taken if it is due, and nothing is taken exactly when no live timer is due |
| TimerQueue.TimerManager.Check | src/Timer.cpp:169-177 | the callback is called exactly if the manager still runs |
| TimerQueue.TimerManager.Finish | src/Timer.cpp:182-193 | the next due time is set as the step says |
| TimerQueue.TimerManager.PutBack | src/Timer.cpp:195-202 | the timer is queued and active again unless it was cancelled or the manager stopped |
| TimerQueue.TimerManager.Clear | src/Timer.cpp:70-79 | what was active is cancelled for good, the queue is empty |
| TimerToken.StopIsFinal | src/Timer.cpp:231-267 | after a stop, a callback of an earlier start begins only if its task had found the token set before the stop |
| TimerToken.CheckedStillCalls | src/Timer.cpp:237-242 | and such a task does call after the stop |
| TimerToken.CallsAfterStop | src/Timer.cpp:231-267 | a run from the beginning in which that happens |
| TimerToken.OneShotCallsOnce | src/Timer.cpp:246-251 | two tasks of the same start pass their check only if the timer repeats |
| TimerToken.TimerHandle.StopTimer | src/Timer.cpp:258-267 | when it returns, nothing that was started is live |
| TimerToken.TimerHandle.StartTimer | src/Timer.cpp:220-256 | what was started before is over, and a fresh token is live |
| TimerToken.TimerHandle.Wrapped | src/Timer.cpp:231-252 | a task is posted exactly if the token is live |
| TimerToken.TimerHandle.LookAtToken | src/Timer.cpp:237-251 | a posted call goes on exactly if the token is live, and a one-shot one clears it |

## Left out

- SizeScan.GetChunkedMessageSize: messages on which the scan never ends are excluded; `SizeScan.MessageSize` says of them that it does not end.
- BodyScan.GetChunkedMessageSize: the same for the server's scan and `BodyScan.BodySize`.
- RequestScanner.ExtractIsScan: for chunk sizes that wrap around, which bodies the server happens to wait for as exact arithmetic does is not characterised beyond a single turn.
- RequestPipeline.ClientState.ProcessOne: a buffer on which the attempt to extract never ends is excluded; the work step says of it that the connection is stuck.
- RequestPipeline.ClientState.ProcessBufferedRequests: so is one on which a request takes nothing off, because there the loop of the source need not end.
- RequestPipeline.ServerHangs: that the lock which a stuck worker keeps is shared with all other connections.
- ChunkStream.BodyStream.ReadChunk: an exception is not told apart from lacking input, since both leave the stream as it is; what the thread does that it ends in is left out.
- FrameStream.Deliver: message callbacks that close the connection or send while frames are handled.
- ChunkStream.DeliversBody: user callbacks that refuse a chunk; every delivery is accepted.
- CloseProtocol.AlwaysSound: races between API calls and events inside one handler; each handler is one step, except that the close callback may call back in.
- OutboundQueue.Run: TLS and the Windows completion-port transport, the write timer, and send variants that differ only in how the buffer is owned.
- TimerQueue.AlwaysSound: a start that overlaps a stop, a stop from inside a callback, and entries without a callback, which are not scheduled.
- ConnectionManager: pending-request counters, last-check and creation times, statistics, and condition variables.
- Random and IP-hash selection: the draw is a parameter; only that a healthy backend comes out is stated.
- Query strings, fragments and cookies of a request, and how a response is built and sent.
- The response head of the HTTP client, redirects, connection reuse and compression.
- WebSocket opening handshake, URLs, subprotocols, fragmented messages and keep-alive timers.
- Static files, MIME types, dates and caching of the HTTP server.
- The TCP connection pool, TCP and UDP servers, the pollers, sockets and the I/O service itself.
- Connection timeouts on top of the timer manager, TLS contexts, logging, errors, configuration, performance monitoring.
