# Verified model of the minerva studio asynchronous CoAP client and its runtime

The repository runs Rust and Python on top of RIOT. This project models, in Dafny, the code in
it that carries its own logic, and proves what that code promises:

- the **asynchronous blockwise CoAP client** (`examples/xbd-net/src/xbd/blockwise.rs`, `gcoap.rs`
  and `examples/xbd-net/modules/minerva_xbd/gcoap.c`): four transfer slots with zero-padded
  grids, a one-item stream per slot, one global index that attributes responses to slots, a
  three-state future per request, and a C handler that turns a Block2 response into the next
  request;
- the **synchronous command-line client** (`minerva_gcoap/client.c`), the reference for what a
  blockwise transfer must request;
- the **runtime under it**: the stream with its waker, the executor, the simple executor, the
  timer futures and the four allocations behind a timeout;
- three **codecs**: the shell's line assembler, the hex parser of `native-lwip`, and the hex
  codec, bytewise operators and random-bit trimming of the Python big integers.

## Layout

| file | content |
|---|---|
| `Wrappers.dfy`, `CBytes.dfy` | optional values, outcomes that may panic; bytes, padded rows, C strings |
| `BlockwiseCore.dfy` | what each entry point does to one slot, as functions on values |
| `BlockwiseStore.dfy` | the same data as a class with grids updated in place, method by method against `BlockwiseCore` |
| `Futures.dfy` | the three-state future |
| `BlockwiseRuns.dfy` | the whole client as a state machine, its discipline, and the invariant every step keeps |
| `BlockwiseTheorems.dfy` | safety over runs, attribution, slot accounting, what happens after a transfer, why each rule is needed |
| `BlockwisePanics.dfy` | exactly when an event, and a run, panics |
| `BlockwiseStalls.dfy` | exactly what strands a transfer, and what that costs |
| `BlockwiseServer.dfy` | a server that follows section 2.4 of RFC 7959: block order, reassembly, the shared buffer |
| `BlockwiseFetch.dfy` | the program's fetch loop, and transfers in arbitrary runs |
| `BlockwiseOverlap.dfy` | a run from boot in which the body does not survive |
| `BlockwiseRequests.dfy` | a request with its future, its poll and the response handler, updated in place |
| `SyncClient.dfy` | the synchronous client and the equivalence with it |
| `XStream.dfy`, `Executor.dfy`, `WakeSources.dfy`, `TimerOwnership.dfy` | the runtime |
| `ShellLines.dfy`, `HexBytes.dfy`, `BigInt.dfy` | the codecs |

## How the code is modelled

Every assertion, `unwrap`, explicit panic and out-of-buffer access is the outcome `Panic`; a
method that can panic returns `ok`, and after `ok == false` the program is gone. Nothing is
ruled out by a precondition that the code itself handles.

`BlockwiseRuns.Allowed` is the **client discipline** the code relies on without checking it. It
has two parts:

- the rules of order, `Orderly`: strings and rebuilt headers of at most 63 bytes; handles and
  requests not used once their slot has a new owner; one blockwise request in flight and no new
  one polled meanwhile; no `close` twice or under a request in flight; Block2 only in answers to
  blockwise requests;
- the rules of size, `Fits`: a response lies within its buffer, its memo state is one of 3 to 6,
  a payload that is copied out has at most 128 bytes, and a rebuilt request is no longer than the
  receive buffer; and no request is polled again between its first poll and its answer, in flight
  or not, nor after it gave its result.

No panic is reachable under both (`BlockwiseTheorems.DisciplinedRunsAreSafe`). Given the rules of
order, the rules of size are exact: a run panics if and only if it breaks one of them
(`BlockwisePanics.OrderlyRunsPanicExactly`). For the rules of order, `BlockwiseTheorems` shows what
happens without them.

The CoAP library and the server are parameters. `Parser` is how request bytes are understood;
what the library builds for "next block of this URI" is any byte string that parses to that. A
request datagram that cannot be delivered is an event of its own: the request then never
resolves. Interrupts, allocator addresses, drawn random bytes and tasks' behaviour are event
parameters.

## Results that differ from what the code seems to intend

- A response with a payload of more than 128 bytes panics, whether it answers a blockwise or a
  plain request (`BlockwisePanics.RespondPanicsExactly`, `PlainPanicsExactly`,
  `LongAnswerPanics`).
- A request whose datagram could not be delivered is never resolved, nothing is in flight after
  it, and to poll it again panics (`BlockwisePanics.UndeliveredRepollPanics`).
- The follow-up request is built in the receive buffer before the payload is copied out of it.
  Where it runs into the payload, the program gets bytes of the request
  (`BlockwiseServer.DeliveredInstead`). A completed transfer hands over the body exactly if those
  bytes are equal or there are none (`BlockwiseServer.WholeBody`), and `BlockwiseOverlap` holds a
  run from boot, against a conforming server, where it does not.
- Against an empty path the fetch loop never gets past block 0 of a longer body
  (`BlockwiseFetch.FetchAll`).
- A string of exactly 64 bytes is accepted when a transfer is opened and panics at its first
  poll (`BlockwiseTheorems.SixtyFourByteStrings`).
- A URI or address with a NUL in it is cut there; the follow-ups carry the original exactly when
  it has none (`BlockwiseFetch.FollowUpsKeepStrings`).
- The two clients disagree on an error response that carries a Block2 option with more to come:
  only the asynchronous one goes on (`SyncClient.HandlersAgreeExactly`), and only then do their
  requests differ (`SyncClient.AsyncMatchesSync`).
- A timeout, any other answer that neither ends a transfer nor calls for a next block, or a
  datagram that cannot be delivered, strands its transfer: the stream never yields again, not even
  its end, and the slot stays occupied until `close`. Nothing else does
  (`BlockwiseStalls.RunsStallExactly`, `StalledUntilClosed`). Four stranded transfers block every
  new one (`FourStalledRefuseNew`).
- An overlong shell line leaves a NUL in the buffer, so the command handler reads the line after
  it as empty. The NUL counts: a line of 127 characters then overflows as well and silences the
  next one (`ShellLines.HandlerReads`, `SilencedTwoLinesLater`). All lines are read as typed
  exactly if none has 128 characters (`AllReadExactly`).
- Bitwise operators fail on two zeros (`BigInt.Bitwise`).

## Model

| member | source | states |
|---|---|---|
| `BlockwiseTheorems.DisciplinedRunsAreSafe` | examples/xbd-net/src/xbd/blockwise.rs:158-197 | after any run from boot that keeps the rules of order and of size, no assertion, unwrap or panic was reached and the full invariant holds, including that occupied slots are successful NEWs minus COMPLETEs minus closes |
| `BlockwisePanics.OrderlyRunsPanicExactly` | examples/xbd-net/src/xbd/gcoap.rs:322-350 | a run from boot that keeps the rules of order panics if and only if a response in it does not fit or a request is polled out of turn |
| `BlockwisePanics.RunPanicsExactly` | examples/xbd-net/src/xbd/gcoap.rs:228-269 | the same from any state that satisfies the invariant |
| `BlockwisePanics.StepPanicsExactly` | examples/xbd-net/src/xbd/gcoap.rs:228-269 | given the rules of order, an event panics if and only if it breaks a rule of size |
| `BlockwisePanics.RespondPanicsExactly` | examples/xbd-net/src/xbd/gcoap.rs:338-350 | the answer to the request in flight panics exactly if it is out of bounds, has an unknown memo state, carries more than 128 bytes, or its follow-up exceeds the buffer or 64 bytes |
| `BlockwisePanics.PlainPanicsExactly` | examples/xbd-net/modules/minerva_xbd/gcoap.c:215-239 | the same for an answer to a plain request; with a Block2 option also if the global index names no slot, a released one, or one whose queue is not empty |
| `BlockwisePanics.PlainBlock2Misdirected` | examples/xbd-net/modules/minerva_xbd/gcoap.c:233-236 | a Block2 option in the answer to a plain request, unless it panics, ends or continues the transfer of the slot the global index names |
| `BlockwisePanics.PollPanicsExactly` | examples/xbd-net/src/xbd/gcoap.rs:231-268 | a poll panics exactly while the request is registered, after its result was taken, or if its strings do not fit an occupied slot |
| `BlockwisePanics.LongAnswerPanics` | examples/xbd-net/src/xbd/gcoap.rs:340-343 | a plain answer of 129 bytes right after boot keeps the rules of order and panics |
| `BlockwisePanics.UndeliveredRepollPanics` | examples/xbd-net/src/xbd/gcoap.rs:263-267 | after an undelivered first poll nothing is in flight, and polling again keeps the rules of order and panics |
| `BlockwiseTheorems.RunsNeverPanic` | examples/xbd-net/src/xbd/gcoap.rs:228-269 | the same from any state that satisfies the invariant, by induction over the run |
| `BlockwiseRuns.StepKeeps` | examples/xbd-net/modules/minerva_xbd/gcoap.c:166-239 | each event that keeps the rules of order and of size (open, stream poll, request poll delivered or not, response to a blockwise or plain request, close) succeeds and keeps the invariant |
| `BlockwiseTheorems.OneContinuation` | examples/xbd-net/src/xbd/blockwise.rs:249-264 | an occupied slot has at most one continuation: queued, handed out and unpolled, or in flight |
| `BlockwiseTheorems.AnswerFindsRoom` | examples/xbd-net/src/xbd/stream.rs:25-31 | when a response can arrive, its slot's queue is empty, so neither the length assertion nor the full-queue panic can fire |
| `BlockwiseTheorems.ResponseStaysHome` | examples/xbd-net/src/xbd/blockwise.rs:109-117 | from poll to resolve the global index is the slot of the request in flight, and its response changes that slot, that transfer and that request only |
| `BlockwiseTheorems.NewTakesLowestFree` | examples/xbd-net/src/xbd/blockwise.rs:154-197 | NEW is refused exactly when four more transfers were opened than finished; otherwise it takes the lowest free slot, whose rows are zero and header length 0 |
| `BlockwiseTheorems.EndsExactlyOnce` | examples/xbd-net/src/xbd/blockwise.rs:258-284 | a finished stream yields its end once and is pending ever after |
| `BlockwiseTheorems.LeftoverRequestFails` | examples/xbd-net/src/xbd/gcoap.rs:238-253 | an unpolled request of a finished transfer resolves to an error at once, sends nothing, touches no slot |
| `BlockwiseTheorems.PollTells` | examples/xbd-net/src/xbd/gcoap.rs:231-268 | a poll is pending at first, an error once the transfer is over, and yields the result after the answer, once |
| `BlockwiseTheorems.FinishedStaysSilent` | examples/xbd-net/src/lib.rs:277-292 | whatever the program does later, a finished transfer sends nothing and receives nothing |
| `BlockwiseStalls.AnswerStallsExactly` | examples/xbd-net/modules/minerva_xbd/gcoap.c:229-236 | an answer leaves its transfer alive without any continuation if and only if it neither ends it nor calls for a next block (a timeout, an error or a plain response) |
| `BlockwiseStalls.UndeliveredStalls` | examples/xbd-net/modules/minerva_xbd/gcoap.c:52-54 | a first poll whose datagram is not delivered leaves its transfer alive without any continuation |
| `BlockwiseStalls.StepStallsExactly` | examples/xbd-net/modules/minerva_xbd/gcoap.c:105-112 | an event stalls a live transfer if and only if it is such an answer to it or such a poll of it |
| `BlockwiseStalls.RunsStallExactly` | examples/xbd-net/src/xbd/blockwise.rs:158-197 | over every disciplined run from boot a live transfer ends up stalled if and only if one of these two happened to it somewhere in the run |
| `BlockwiseStalls.StalledUntilClosed` | examples/xbd-net/src/xbd/shell.rs:219-223 | in every later run without close such a transfer sends nothing, its stream is pending for ever and its slot stays occupied |
| `BlockwiseStalls.FourStalledRefuseNew` | examples/xbd-net/src/xbd/blockwise.rs:154-156 | with four stalled transfers every NEW is refused |
| `BlockwiseTheorems.ClosePanicsExactlyWhenOver` | examples/xbd-net/src/xbd/blockwise.rs:258-264 | close panics if and only if the transfer is already over |
| `BlockwiseTheorems.CloseInFlightPanicsLater` | examples/xbd-net/src/xbd/blockwise.rs:13-21 | closing under a request in flight makes every Block2 answer to it panic |
| `BlockwiseTheorems.SecondPollStealsResponse` | examples/xbd-net/src/xbd/blockwise.rs:69 | polling a second request makes the first one's slot deaf: no response changes it any more |
| `BlockwiseTheorems.StaleHandleSteals` | examples/xbd-net/src/xbd/blockwise.rs:272-284 | a handle used after its slot was reallocated is handed the new owner's request |
| `BlockwiseTheorems.SixtyFourByteStrings` | examples/xbd-net/src/xbd/blockwise.rs:223-231 | opening panics exactly above 64 bytes, and exactly 64 bytes panic at the first poll |
| `BlockwiseServer.BlocksInOrder` | examples/xbd-net/modules/minerva_xbd/gcoap.c:195-208 | against a conforming server the k-th request of a transfer asks for block k of its own URI at its own address, never past the end |
| `BlockwiseServer.CompleteAsksEveryBlock` | examples/xbd-net/modules/minerva_xbd/gcoap.c:209-212 | a completed transfer asked for each of the n blocks exactly once |
| `BlockwiseServer.RebuildSparesPayload` | examples/xbd-net/modules/minerva_xbd/gcoap.c:188-208 | rebuilding the request in the receive buffer spares the payload for all contents if and only if it ends before the payload or there is none |
| `BlockwiseServer.DeliveredInstead` | examples/xbd-net/modules/minerva_xbd/gcoap.c:188-208 | the bytes handed over where the rebuilt request runs into the payload: its own bytes, then the rest of the payload |
| `BlockwiseServer.PayloadsJoin` | examples/xbd-net/src/xbd/gcoap.rs:333-350 | the payloads of the first n responses have the length of the body up to block n, and are it if and only if each rebuilt request spares its payload |
| `BlockwiseServer.ClearSpares` | examples/xbd-net/modules/minerva_xbd/gcoap.c:188-208 | requests no longer than the bytes before the payload spare every payload |
| `BlockwiseServer.WholeBody` | examples/xbd-net/modules/minerva_xbd/gcoap.c:229-236 | the payloads of a completed transfer are as long as the body, and are the body if and only if each was spared, for every body and block size |
| `BlockwiseOverlap.OverlapDamagesBody` | examples/xbd-net/modules/minerva_xbd/gcoap.c:188-208 | a disciplined run from boot against a conforming server whose completed transfer hands over other bytes than the body |
| `BlockwiseFetch.Await` | examples/xbd-net/src/xbd/gcoap.rs:231-268 | awaiting one request sends one more block request, yields its payload and leaves the next request or the end queued, or the transfer stalled if the path is empty and block 0 is not all |
| `BlockwiseFetch.FetchAll` | examples/xbd-net/src/xbd/shell.rs:219-223 | the fetch loop is a disciplined run and ends (measure: blocks remaining); it requested blocks 0 to n-1 in order, returns the body exactly if the payloads were spared, frees its slot and leaves every other slot and transfer alone; with an empty path and more than one block it stalls after block 0 |
| `BlockwiseFetch.TransfersReassemble` | examples/xbd-net/src/lib.rs:220-264 | the same order for every transfer in every disciplined run, interleaved with any others, and the body if and only if the payloads were spared |
| `BlockwiseFetch.FollowUpsKeepStrings` | examples/xbd-net/src/xbd/blockwise.rs:37-50 | in every disciplined run each request carries the transfer's address and URI up to a NUL, whole exactly if NUL-free, and a follow-up is byte for byte what the handler built |
| `BlockwiseFetch.ResultsAreReported` | examples/xbd-net/src/xbd/gcoap.rs:322-350 | in every disciplined run the k-th result of every transfer is what its k-th response says, by state number and bytes |
| `SyncClient.AsyncMatchesSync` | examples/xbd-net/modules/minerva_gcoap/client.c:114-149 | the first n requests of a transfer are the synchronous client's for the same responses, if and only if those responses carry data (successful or truncated) |
| `SyncClient.RunsMatchSync` | examples/xbd-net/modules/minerva_gcoap/client.c:352-355 | in every disciplined run with such responses, what a transfer sent plus the request it is due to send is exactly the synchronous sequence; a completed transfer sent all of it |
| `SyncClient.HandlersAgreeExactly` | examples/xbd-net/modules/minerva_gcoap/client.c:69-149 | on the same response the asynchronous handler queues the request the synchronous one sends, unless the response is an error whose Block2 asks for more |
| `SyncClient.Client.Get` | examples/xbd-net/modules/minerva_gcoap/client.c:347-391 | the path is retained if it fits and dropped if not, and the first request goes out |
| `SyncClient.Client.OnResponse` | examples/xbd-net/modules/minerva_gcoap/client.c:64-150 | states 3 and 6 with more to come and a path make the client ask for the next block, states 4 and 5 and a last block for nothing; the requests issued stay those of the reference sequence |
| `BlockwiseStore.UpdateMetadata` | examples/xbd-net/src/xbd/blockwise.rs:223-231 | zero-fill and copy in place give the padded row, other rows untouched, refused exactly from 64 bytes on |
| `BlockwiseStore.BlockwiseData.UpdateState` | examples/xbd-net/src/xbd/blockwise.rs:119-132 | the grids and header length become the slot's update, or panic exactly when it does |
| `BlockwiseStore.BlockwiseData.Release` | examples/xbd-net/src/xbd/blockwise.rs:134-140 | clearing and invalidating leave zero rows and a free slot |
| `BlockwiseStore.BlockwiseData.Add` | examples/xbd-net/src/xbd/blockwise.rs:249-252 | enqueues exactly when the queue is empty |
| `BlockwiseStore.BlockwiseData.Empty` | examples/xbd-net/src/xbd/blockwise.rs:254-256 | drains the slot's queue and nothing else |
| `BlockwiseStore.BlockwiseData.Close` | examples/xbd-net/src/xbd/blockwise.rs:258-264 | frees the slot and leaves just the end of the stream queued |
| `BlockwiseStore.BlockwiseData.Complete` | examples/xbd-net/src/xbd/blockwise.rs:167-172 | frees the slot and queues the end of the stream |
| `BlockwiseStore.BlockwiseData.Next` | examples/xbd-net/src/xbd/blockwise.rs:163-166 | queues the follow-up request |
| `BlockwiseStore.BlockwiseData.FindAvailable` | examples/xbd-net/src/xbd/blockwise.rs:154-156 | finds the lowest free slot |
| `BlockwiseStore.BlockwiseData.New` | examples/xbd-net/src/xbd/blockwise.rs:177-196 | takes the lowest free slot, header length 0, only the new request queued |
| `BlockwiseStore.BlockwiseData.PollNext` | examples/xbd-net/src/xbd/blockwise.rs:272-284 | hands out the queued item, or leaves the task registered |
| `BlockwiseStore.BlockwiseData.FirstPoll` | examples/xbd-net/src/xbd/gcoap.rs:237-253 | names and fills the slot, or clears the global index if the slot was released |
| `BlockwiseStore.BlockwiseData.HdrCopy` | examples/xbd-net/src/xbd/blockwise.rs:23-35 | the send buffer starts with the stored header and is otherwise untouched; fails exactly on a released slot or a shorter buffer |
| `BlockwiseStore.ReadCString` | examples/xbd-net/modules/minerva_xbd/gcoap.c:171-174 | strlen and copy see the row up to its first NUL, and are in bounds exactly if there is one |
| `BlockwiseStore.HandleBlock2` | examples/xbd-net/modules/minerva_xbd/gcoap.c:166-213 | the handler advances or finishes the slot the global index names, and that one only |
| `BlockwiseRequests.ReqInner.Poll` | examples/xbd-net/src/xbd/gcoap.rs:228-269 | new, registered and resolved requests: slot prepared or error, panic, result taken once |
| `BlockwiseRequests.Rebuild` | examples/xbd-net/modules/minerva_xbd/gcoap.c:188-203 | the request overwrites the start of the receive buffer and nothing else |
| `BlockwiseRequests.ResponseHandler` | examples/xbd-net/src/xbd/gcoap.rs:322-350 | slots, receive buffer and future after a response are those of the handler on values; it fails exactly when that does or nobody waits |
| `BlockwiseCore.FirstFree` | examples/xbd-net/src/xbd/blockwise.rs:154-156 | every slot before the result is occupied, the result is not |
| `BlockwiseCore.MemoRoundTrip` | examples/xbd-net/src/xbd/gcoap.rs:28-52 | memo state and payload can be read back from the result; it exists exactly for states 3 to 6 and payloads up to 128 bytes |
| `BlockwiseCore.PlainResult` | examples/xbd-net/modules/minerva_xbd/gcoap.c:224-239 | a response without Block2 changes no slot and is reported by its state number: 3 a response, 4 a timeout, 5 an error, 6 a truncated response, 3 and 6 with the bytes of the payload; a panic exactly if out of bounds, of another state, or over 128 bytes |
| `BlockwiseCore.BlockResult` | examples/xbd-net/modules/minerva_xbd/gcoap.c:224-239 | the same with Block2, the payload read from the buffer as the follow-up request left it |
| `CBytes.PaddedReadsBack` | examples/xbd-net/src/xbd/blockwise.rs:223-231 | a padded row reads back as the string up to its first NUL and is terminated |
| `CBytes.ReadsBackWhole` | examples/xbd-net/src/xbd/blockwise.rs:13-21 | the read-back is the whole string if and only if it has no NUL |
| `Futures.FutureState.Register` | examples/xbd-net/src/xbd/gcoap.rs:164-170 | succeeds exactly on a new future and records the waker |
| `Futures.FutureState.Resolve` | examples/xbd-net/src/xbd/gcoap.rs:172-178 | succeeds exactly on a registered future, stores the value, hands the waker back once |
| `Futures.FutureState.Take` | examples/xbd-net/src/xbd/gcoap.rs:180-184 | yields the value exactly once |
| `XStream.Stream.Add` | examples/xbd-net/src/xbd/stream.rs:25-31 | appends and wakes the registered consumer once; full exactly at size minus one |
| `XStream.Stream.Empty` | examples/xbd-net/src/xbd/stream.rs:33-35 | drains the queue, the waker stays |
| `XStream.Stream.PollNext` | examples/xbd-net/src/xbd/stream.rs:45-57 | yields the oldest item, or leaves the consumer registered |
| `XStream.NoLostWakeup` | examples/xbd-net/src/xbd/stream.rs:45-57 | in every interleaving of producer and consumer steps, a parked consumer with a non-empty queue is scheduled or about to be woken; the items enqueued come out once, in order |
| `XStream.QuiescentIsDrained` | examples/xbd-net/src/xbd/stream.rs:25-31 | when nobody has anything left to do, everything produced was consumed |
| `XStream.ConsumerDrains` | examples/xbd-net/src/xbd/stream.rs:45-57 | left alone, a running consumer takes every item in order and parks, registered or scheduled |
| `XStream.WakerFromSteps` | examples/xbd-net/src/xbd/stream.rs:25-31 | a wake reaches the consumer exactly if a waker was registered and neither used nor taken back since |
| `XStream.RecheckIsNeeded` | examples/xbd-net/src/xbd/stream.rs:50-56 | without the second dequeue there is a run that loses a wakeup |
| `Executor.ExecutorIsSound` | examples/xbd-net/src/blogos12/executor.rs:26-66 | over every run: cached wakers only for live tasks, no poll after Ready, a task woken since its last poll is still queued |
| `Executor.ExecutorKeepsLedger` | examples/xbd-net/src/blogos12/executor.rs:46-66 | over every run the executor panics, polls and queues as an append-only ledger of pushed ids with a read position does (the earliest pushed id next, stale ids skipped, 100 waiting at most); a task never polled is queued; cached wakers are exactly those of live polled tasks |
| `Executor.FirstPollsInOrder` | examples/xbd-net/src/blogos12/executor.rs:26-36 | over every run a task is polled only after every task spawned before it was; a spawned task never polled is alive and queued |
| `Executor.TaskExecutor.Spawn` | examples/xbd-net/src/blogos12/executor.rs:26-36 | a fresh task at the end of the queue, refused exactly at 100 |
| `Executor.TaskExecutor.WakeTask` | examples/xbd-net/src/blogos12/executor.rs:93-95 | pushes the id, full exactly at 100 |
| `Executor.TaskExecutor.Turn` | examples/xbd-net/src/blogos12/executor.rs:47-65 | one turn on the id queue, task map and waker cache is one rotation of the reference's deque |
| `Executor.TaskExecutor.RunReadyTasks` | examples/xbd-net/src/blogos12/executor.rs:46-66 | with self-waking tasks the poll order is the reference's, no wake overflows, the loop ends and nothing is left behind |
| `Executor.SimpleExecutor.Run` | examples/xbd-net/src/blogos12/simple_executor.rs:20-30 | the simple executor ends with an empty deque and the reference poll order |
| `Executor.RunBoth` | examples/xbd-net/src/blogos12/executor.rs:46-66 | the same tasks, up to 100, spawned on both executors are polled in the same order, each as often as it needs |
| `Executor.PollsAddUp` | examples/xbd-net/src/blogos12/simple_executor.rs:20-30 | in that common order every task is polled exactly as often as it needs, and nothing else is |
| `WakeSources.PolledExactlyTwice` | examples/xbd-net/src/xbd/timeout.rs:22-36 | with at most 100 live tasks: each has exactly one wake source, the id queue never overflows, no request is polled while registered, each ready leaf took exactly two polls, no timer completes before it fires |
| `WakeSources.FiredLeavesFinish` | examples/xbd-net/src/blogos12/executor.rs:46-66 | the leaves that finished are those whose wakers fired, in the order of firing; the rest are queued in order |
| `WakeSources.TurnPollsHead` | examples/xbd-net/src/blogos12/executor.rs:47-65 | a turn polls the head of the queue, logs what it awaited with two polls, and leaves it armed on what it awaits next, or gone |
| `WakeSources.UnaskedPoll` | examples/xbd-net/src/xbd/timeout.rs:22-36 | what a poll does that no waker asked for: panic on a request, early completion of a timer, nothing on a stream |
| `WakeSources.OverflowsExactly` | examples/xbd-net/src/blogos12/executor.rs:93-95 | waking or spawning panics exactly with 100 ids waiting |
| `TimerOwnership.ProcessFrees` | examples/xbd-net/src/xbd/callback.rs:31-55 | processing finds the four cells where it expects them, a non-null timer pointer and an unarmed timer, and frees exactly these |
| `TimerOwnership.NothingLeaksOrIsFreedTwice` | examples/xbd-net/src/xbd/mod.rs:81-96 | over every run with at most 63 unprocessed timers: four cells per outstanding timeout and no others, every callback of a finished timeout ran exactly once, none earlier, none lost |
| `TimerOwnership.CallbacksRunAsFired` | examples/xbd-net/src/xbd/callback.rs:31-55 | from the events alone: the callbacks that ran are those of the fired timers, in firing order, as many as were processed, and the heap holds four cells for each timeout built and not processed |
| `TimerOwnership.EarlierFiresRunFirst` | examples/xbd-net/src/xbd/callback.rs:20-34 | if a timer fires before another and the later one's callback ran, the earlier one's ran before it |
| `TimerOwnership.FirePanicsExactly` | examples/xbd-net/src/xbd/callback.rs:18-22 | a timer that fires panics exactly with 63 waiting |
| `TimerOwnership.StoreKeeps` | examples/xbd-net/modules/minerva_xbd/xbd.c:28-39 | the timer's pointer is stored before it can fire |
| `ShellLines.Shell.OnChar` | examples/xbd-net/src/xbd/shell.rs:21-55 | a character is dropped while a line waits, and otherwise extends, ends or overflows the line |
| `ShellLines.Shell.Type` | examples/xbd-net/src/xbd/shell.rs:113-119 | a whole input, consumed as it comes, yields exactly the specified lines |
| `ShellLines.AssemblesLines` | examples/xbd-net/src/xbd/shell.rs:26-52 | the character-wise assembler equals the line-wise specification, including the NUL an overlong line leaves behind |
| `ShellLines.HandlerReads` | examples/xbd-net/src/xbd/shell.rs:34-38 | for every input from boot and every line k: the handler reads it as typed, or as empty if the typed lengths silence it (it has 128 characters, or the line before it, with its own leftover NUL, filled the buffer) |
| `ShellLines.AllReadExactly` | examples/xbd-net/src/xbd/shell.rs:29-39 | all lines of an input are read as typed if and only if none has 128 characters |
| `ShellLines.SilencedTwoLinesLater` | examples/xbd-net/src/xbd/shell.rs:34-38 | lines of 128, 127 and 1 characters: all three are read as empty |
| `ShellLines.LinesAreTerminated` | examples/xbd-net/src/xbd/shell.rs:77-78 | every line is NUL-terminated and fits 128 bytes |
| `ShellLines.TypedIsClean` | examples/xbd-net/src/xbd/shell.rs:43 | a typed line holds no NUL, line feed or carriage return |
| `ShellLines.KeptWhat` | examples/xbd-net/src/xbd/shell.rs:43-52 | every character but 10 and 13 is kept, as often as typed |
| `ShellLines.KeptJoins` | examples/xbd-net/src/xbd/shell.rs:43-52 | and in the order typed |
| `HexBytes.PutDigit` | examples/native-lwip/main/common.c:40-48 | a digit opens a byte or completes the last one |
| `HexBytes.Hex2Ints` | examples/native-lwip/main/common.c:20-55 | the output is the pairwise decoding of the hex digits, at most half the text rounded up, nothing written beyond |
| `HexBytes.DigitsByName` | examples/native-lwip/main/common.c:25-38 | the digits are the 22 characters 0-9, a-f, A-F and no others |
| `HexBytes.PairsAt` | examples/native-lwip/main/common.c:40-52 | byte k is sixteen times digit 2k plus digit 2k + 1, if there is one |
| `HexBytes.ParsingInvertsPrinting` | examples/native-lwip/main/tests/01-run.py:270-272 | parsing inverts every hex printing in either case, with any separators free of NUL and of the 22 digit characters |
| `BigInt.CodecRoundTrip` | examples/xbd-py/python3/mbedtls2/src/mbedtls/mpi.pyx:30-36 | from_bytes(to_bytes(n)) is n for every n |
| `BigInt.ReadsBigEndian` | examples/xbd-py/python3/mbedtls2/src/mbedtls/mpi.pyx:35-36 | every non-empty byte string is read as its big-endian number; an empty one is an error |
| `BigInt.CodecIsMinimal` | examples/xbd-py/python3/mbedtls2/src/mbedtls/mpi.pyx:30-32 | no non-empty byte string for n is shorter |
| `BigInt.BytewiseIsBitwise` | examples/xbd-py/python3/mbedtls2/src/mbedtls/mpi.pyx:313-316 | combining equal-length encodings byte by byte is combining the numbers |
| `BigInt.CombinedBit` | examples/xbd-py/python3/mbedtls2/src/mbedtls/mpi.pyx:304-356 | bit i of the combination is the operator on bits i, for every i |
| `BigInt.OperatorsAddUp` | examples/xbd-py/python3/mbedtls2/src/mbedtls/mpi.pyx:304-356 | x + y is xor plus twice and, and or plus and; the and is at most either |
| `BigInt.Bitwise` | examples/xbd-py/python3/mbedtls2/src/mbedtls/mpi.pyx:304-356 | and, or and xor of two numbers, bit by bit; an error exactly on two zeros |
| `BigInt.BitsDetermine` | examples/xbd-py/python3/mbedtls2/src/mbedtls/mpi.pyx:304-356 | numbers with the same bits are the same, so that result is the only one |
| `BigInt.ShiftDivides` | examples/xbd-py/python3/mbedtls2/src/mbedtls/mpi.pyx:300-302 | shifting right by e divides by 2 to the e |
| `BigInt.TrimmedBelow` | examples/xbd-py/python3/mbedtls2/src/mbedtls/_random.pyx:142-146 | the draw divided by 2 to its excess over k bits, bit i being bit i + excess of the draw; so at most k bits, and shorter numbers untouched |
| `BigInt.GetRandBits` | examples/xbd-py/python3/mbedtls2/src/mbedtls/_random.pyx:135-146 | an error exactly for k below 1, otherwise the draw divided by 2 to its excess over k bits, below 2 to the k |
| `BigInt.RandBelow` | examples/xbd-py/python3/mbedtls2/src/mbedtls/_random.pyx:114-126 | an error exactly for bounds below 1; the value returned is the first draw below the bound |
| `BigInt.Choice` | examples/xbd-py/python3/mbedtls2/src/mbedtls/_random.pyx:148-154 | an index error exactly on an empty sequence, otherwise the element at the first draw below the length, if one came |

## Left out

- RIOT's gcoap and nanocoap, libcoap, DTLS and sockets are not part of this model: requests are bytes with a meaning, responses are events.
- UTF-8 validation of the strings read back from the grids: a prefix of valid UTF-8 that ends before a NUL is valid, and the model works on bytes.
- The integer width of block numbers and task ids: both are natural numbers here; a Block2 number has 20 bits and a task id 32.
- Requests that are dropped while in flight, which leaves the C side with a dangling pointer.
- The proxy branches of the synchronous client and its commands other than GET.
- The blockwise streams' wakers inside the run model; wakeups are the subject of `XStream` and `WakeSources`.
- `TimerOwnership` and `WakeSources` are step relations rather than objects, because interrupts interleave with the code; the callback's inner box counts as part of its cell.
- WakeSources.PolledExactlyTwice: takes polls as atomic, one consumer per stream and one leaf awaited at a time (the program joins and selects nothing); a leaf that is ready at once (an item already queued) is not counted, since it registers no waker.
- The embassy runtime, the keyboard demo, the server stream, border router, network devices and alias tables: wrappers or one-branch code.
- Shell characters of 0x80 and above, which take two bytes in the buffer.
- Little-endian decoding, subtraction and primality of the Python big integers.
- BigInt.RandBelow: no claim about termination or distribution; the generator's output is a parameter.
