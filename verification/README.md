# A verified model of the ledger pipeline

An IoT audit ledger in three parts. **storage-core** (C++) owns a hash-chained ledger: HTTP handlers push
requests onto a bounded queue, one writer thread hashes, persists, publishes, broadcasts and replies, and every
WebSocket client is served by a pump draining a drop-oldest ring. **backend-api** (Python) follows the ledger: by
polling, into an incremental cache, and by one live connection fanned out to browsers. **frontend** (TypeScript)
folds the live frames into what the dashboard shows.

Code that changes state step by step is modelled as classes with methods and loops (`WriteQueue`, `Subscription`,
`Broadcaster`, `Chain`, `LogFile`, the writer loop, the connection map, `LedgerActivity`, `BrowserHub`,
`BlockFeed`), each proved against functions on values. What can interleave is modelled as state machines over
the same functions, one step per critical section or effect, so that "every run" and "every reachable state" are
quantifiers:

| machine | its threads | file |
|---|---|---|
| `QueueMonitor` | any number of pushers, poppers and closers, parked, woken or owing a notification | `queue_monitor.dfy` |
| `WritePath` | handlers, writer, publisher, clients, pumps, main thread, failing disk | `write_path.dfy` |
| `Pumps` | connection callbacks, pumps, the stop sweep | `pumps.dfy` |
| `ServerHandles` | `serve()` and any number of `stop()` calls | `server_handle.dfy` |
| `ActivityConcurrent` | overlapping refreshes of the cache against a growing ledger | `activity_concurrent.dfy` |
| `Relay` | `WritePath`, the backend's reconnecting client, and browsers | `relay.dfy` |

A `std::string` is a `string` whose characters stand for bytes; `std::uint64_t` is explicit, with wrap-around
(`records.dfy`). SHA-256 is an arbitrary function from texts to 64-character texts: statements about tampering
end in "equal, or here are two inputs that collide". JSON is a concrete printer and parser (`json_text.dfy`),
numbers kept as the text they print as; that the printer wastes nothing and that the parser reads what others
write is in `compact_text.dfy`, `loose_text.dfy` and `number_text.dfy`. What the operations mean is told from
their inputs' own fields and bytes, without the functions that compute it, in `hash_input.dfy`, `get_blocks.dfy`,
`events_api.dfy`, `activity_meaning.dfy`, `readings_answer.dfy`, `frame_meaning.dfy` and `calendar.dfy`. Clock
readings, jitter, disk failures and the set of subscriptions still alive are parameters.

To verify the whole project: `dafny verify dfyconfig.toml`.

## What turned out not to hold as one might expect

- The comment at backend-api/app/activity.py:80 calls re-reading the last block harmless. It is for last seen,
  latest readings and cameras. For the history it is not: every poll that finds nothing new appends the last
  reading again, and after as many polls as the history holds every other reading of that sensor is gone
  (`ReReadDuplicatesHistory`, `ReReadCostsAReading`, `IdlePollsFillHistory`).
- Overlapping refreshes can leave a sensor with an older one of several equally new readings; exactly when that
  is impossible is `InterleavingHarmlessIff`. A camera can likewise be left with the event or the stream URL of
  any of several tied reports (`TiedReportCanWin`, `TiedAddressCanWin`); `InterleavingHarmlessForCameraIff` says
  exactly when it cannot.
- The capped history can answer differently from an uncapped one when a sensor's `seq` falls while its clock
  stands still: `FallingSeqIsForgotten` gives such a ledger. The exact conditions: on what was accepted, for any
  sensors, `CacheAnswersExactlyWhen`; on the ledger, for refreshes that overlap, `OverlappingAnswersInFullIff`.
- `verify_chain` does not look at indices and cannot see truncation (`VerificationBlindSpots`,
  `WrongIndexVerifies`); index = position is an invariant of how chains grow, not something it establishes.
- The comment at storage-core/src/writer.cpp:100-102 says a failed persist leaves nothing to roll back. That is so
  for the running process; on disk a prefix of the line may stay, and if at most the newline is missing the block
  of a request that was answered with a failure is back after a restart (`NextStartAfterFailure`, and runs in
  which it happens: `RefusedBlockComesBack`). If the newline is missing, what the process started on that file
  adds does not survive it (`NextStartAfterUnterminated`, `NewBlocksSurviveIff`).
- The hub counts its own drops but announces none: `HubDropsAreSilent` is a run in which a browser misses a block
  and cannot tell, and `NothingLostIffNothingDropped` says when it has missed nothing.
- The dashboard keeps last seen in a plain object, so a device named like something every object inherits is
  never seen there, though the backend sees it (`ConstructorIsNeverSeen`); for all others the two agree, and
  `LastSeenAgreesIff` is the exact condition.
- The dashboard has no out-of-order check for readings (`StreamAgreesWithHistoryIffOrdered`, and a ledger on which
  they differ: `ClockSetBackDisagrees`).

## Model

| member | source | states |
|---|---|---|
| `BoundedQueue.WriteQueue.Push` | storage-core/src/writer.cpp:18-33 | A refused or waiting push leaves the queue, and so the request, with the caller; an accepted one is last in line and the queue stays within its capacity |
| `BoundedQueue.WriteQueue.Pop` | storage-core/src/writer.cpp:35-52 | The oldest request comes out; closure is reported only when nothing is queued |
| `BoundedQueue.WriteQueue.Close` | storage-core/src/writer.cpp:54-63 | Only the closed flag changes; nothing queued is dropped |
| `BoundedQueue.DrainServesBacklog` | storage-core/src/writer.cpp:41-43 | Popping a closed queue hands out exactly the accepted requests in order, then reports closure |
| `QueueMonitor.StepKeepsInv` | storage-core/src/writer.cpp:18-63 | Every step of any number of pushers, poppers and closers, with notifications sent after unlock and spurious wakeups, keeps: items are covered by pending notifies and woken poppers, free slots dually, capacity respected, requests conserved |
| `QueueMonitor.ReachableInv` | storage-core/src/writer.cpp:18-63 | The same for every state of every run |
| `QueueMonitor.NoLostWakeup` | storage-core/src/writer.cpp:24-62 | Whenever a parked thread's wait predicate holds, some thread is woken on that condition variable or is about to notify it, so the queue can step |
| `QueueMonitor.StuckMeansIdleOrParked` | storage-core/src/writer.cpp:18-63 | The queue has no step of its own exactly if every thread is outside it or parked |
| `QueueMonitor.StuckIsLegitimate` | storage-core/src/writer.cpp:24-39 | If the queue cannot step, poppers wait only on an open empty queue, pushers only on an open full one, never both, and after close nobody waits |
| `QueueMonitor.RequestsStayConserved` | storage-core/include/writer.hpp:41-50 | At every step each request is with its caller, queued or handed out, exactly once |
| `QueueMonitor.StepUsesWork` | storage-core/src/writer.cpp:18-63 | Every internal step strictly lowers a measure; a spurious wakeup raises it by one |
| `QueueMonitor.RunsSettle` | storage-core/src/writer.cpp:18-63 | The calls in progress settle within the measure plus two steps per spurious wakeup, for every interleaving |
| `QueueMonitor.CloseReleasesEveryone` | storage-core/src/writer.cpp:54-63 | From every closed state satisfying the invariant, letting the queue run ends in boundedly many steps with every call returned |
| `QueueRefinement.WritePathRunsOnTheMonitor` | storage-core/src/writer.cpp:18-63 | Every run of the write path is, on its queue, a run of that monitor, call for call: the same items, acceptances and hand-outs in the same order |
| `QueueRefinement.MonitorStepIsAStep` | storage-core/src/writer.cpp:18-63 | Conversely each monitor step is a step the write path can take on the same queue once its caller is ready, with the same effect, or leaves queue, acceptances and hand-outs alone |
| `Broadcast.Subscription.Push` | storage-core/src/broadcast.cpp:10-25 | Closed: nothing; full: the oldest gives way and is counted; otherwise appended |
| `Broadcast.Subscription.Next` | storage-core/src/broadcast.cpp:27-41 | Delivers the oldest block with the count of losses before it, also after close; end of feed only when closed and drained |
| `Broadcast.Subscription.TryNext` | storage-core/src/broadcast.cpp:43-51 | The same delivery without waiting |
| `Broadcast.Subscription.Close` | storage-core/src/broadcast.cpp:53-59 | Only the closed flag changes |
| `Broadcast.Broadcaster.Subscribe` | storage-core/src/broadcast.cpp:76-86 | Prunes expired entries and appends a new, empty, open subscription |
| `Broadcast.Broadcaster.Publish` | storage-core/src/broadcast.cpp:88-103 | The erase-while-iterating loop offers the block exactly once to every live subscriber and to nobody else, and removes exactly the expired ones |
| `Broadcast.Broadcaster.CloseAll` | storage-core/src/broadcast.cpp:105-111 | Closes every live subscription and forgets them all |
| `Broadcast.OfferKeepsAccounts` | storage-core/src/broadcast.cpp:10-25 | The books of a ring: offered = delivered + announced drops + pending drops + buffered, each delivery at the position the books say; kept by a push |
| `Broadcast.TakeKeepsAccounts` | storage-core/src/broadcast.cpp:27-51 | The books are kept by a delivery, which announces exactly the drops before it |
| `Broadcast.GapIsWhatWasAnnounced` | storage-core/include/broadcast.hpp:38-48 | Between two consecutive deliveries lie exactly the announced number of lost blocks |
| `JsonText.ValueRoundTrip` | storage-core/include/block.hpp:46 | Parsing the compact dump of any JSON value, whatever follows it, gives the value back and leaves the rest |
| `JsonText.ParseRoundTrip` | storage-core/include/block.hpp:46 | json::parse of any value's dump is that value |
| `JsonText.NothingMayFollow` | storage-core/src/storage.cpp:47 | A text that is one object followed by anything but blanks is not a JSON text |
| `JsonText.DumpIsUnambiguous` | storage-core/include/block.hpp:46 | Two dumps followed by any texts are equal only if the values and the texts are |
| `JsonText.CutObjectDoesNotParse` | storage-core/src/storage.cpp:47 | No proper prefix of an object's dump parses, although the parser takes blanks between tokens |
| `CompactText.DumpIsShortest` | storage-core/include/block.hpp:46 | No text that parses to a value is shorter than its dump |
| `LooseText.LooseTextIsRead` | storage-core/src/server.cpp:80 | However a document is laid out, with any blanks between tokens and any characters escaped, surrogate pairs included, json::parse reads it as what it says, strings as their UTF-8 bytes |
| `LooseText.LastMemberCounts` | storage-core/src/server.cpp:80 | Of several members with one name the last one counts, in whatever order they come |
| `LooseText.Utf8Decodes` | storage-core/src/server.cpp:80 | The bytes an escape stands for decode to its code point (section 3 of RFC 3629) |
| `LooseText.LoneSurrogatesAreRefused` | storage-core/src/server.cpp:80 | Half of a surrogate pair spoils the string: a low one on its own, and a high one without a low one right behind it |
| `NumberTexts.NumbersAreTheGrammars` | storage-core/src/server.cpp:80 | The numbers read and printed are exactly those of the grammar of section 6 of RFC 8259 |
| `Blocks.BlockRoundTrip` | storage-core/src/storage.cpp:26-47 | The line written for a block reads back as that block, for every block whose metadata is JSON |
| `Blocks.CutBlockDoesNotRead` | storage-core/src/storage.cpp:47-51 | No proper prefix of a block's text reads as a block |
| `Blocks.WriteIndex` | storage-core/include/block.hpp:40-45 | The shift-and-mask loop stores the eight little-endian bytes of the index |
| `HashInputs.HashIsOverTheLayout` | storage-core/include/block.hpp:37-66 | What is hashed, for a new block and for checking one: eight bytes that stand for the index least significant first, the timestamp, a JSON text whose five members are the event's fields, and the previous hash, with nothing before, between or behind |
| `HashInputs.BlockTextSaysBlock` | storage-core/include/block.hpp:35 | A block's text parses to an object whose members are the block's parts, the index in digits |
| `HashInputs.GenesisSays` | storage-core/include/block.hpp:83-87 | A fresh ledger's first block: index 0, the fixed event, sixty-four zeros as previous hash, and the digest of their layout |
| `Blocks.LowBytesInjective` | storage-core/include/block.hpp:42-45 | Distinct indices below 2^64 have distinct bytes |
| `Blocks.PreimageInjective` | storage-core/include/block.hpp:37-47 | For timestamps of one length and previous hashes of one length, equal hash inputs have equal index, timestamp, event and previous hash |
| `EventTexts.EventStartIsObject` | storage-core/include/block.hpp:46 | Wherever a text looking like the start of an event occurs inside a JSON dump, a nested object really begins there |
| `EventTexts.EventTextSuffixFree` | storage-core/include/block.hpp:46 | No event's dump is a proper suffix of another's |
| `EventTexts.PreimageInjectiveAnyTimestamp` | storage-core/include/block.hpp:37-47 | Injectivity of the hash input with no condition on the timestamps at all |
| `Chains.VerifyChain` | storage-core/src/chain.cpp:45-68 | Valid exactly if every block links and rehashes; otherwise the reported index is the least failing position and checked_blocks is one more |
| `Chains.Chain.Append` | storage-core/src/chain.cpp:23-30 | The chain grows by one block, which is returned, with the next index and the last hash |
| `Chains.Chain.PushPersisted` | storage-core/src/chain.cpp:32-35 | The chain grows by exactly the given block |
| `Chains.Chain.Verify` | storage-core/src/chain.cpp:70-72 | The same report for the object's blocks |
| `Chains.BuildersAgree` | storage-core/src/writer.cpp:80-84 | The writer's build_next and Chain::append build the same block if and only if the length agrees with the last index + 1 modulo 2^64 |
| `Chains.GrowthKeepsSound` | storage-core/src/chain.cpp:23-35 | Growing a chain that verifies and has index = position keeps both, and both builders agree on it |
| `Chains.GenesisIsSound` | storage-core/include/block.hpp:83-87 | A fresh chain verifies and starts at index 0 |
| `Chains.NextBlockKeepsGrown` | storage-core/src/writer.cpp:80-84 | Whatever chain was loaded, every block the writer adds links, rehashes and is numbered by its position |
| `Chains.GrowthKeepsVerdict` | storage-core/src/chain.cpp:45-68 | Appending never changes the verdict: the grown chain verifies, and has index = position, exactly if the loaded one does |
| `Chains.GrownChainIsAppended` | storage-core/src/chain.cpp:23-30 | A grown chain is what Chain::append would have built from the later events and timestamps, byte for byte, exactly if nothing was added or the loaded chain's last index fits its length |
| `Chains.SameHashSameBlock` | storage-core/include/block.hpp:37-66 | Two self-consistent blocks with one hash are equal, or two colliding SHA-256 inputs are exhibited |
| `Chains.TamperEvidence` | storage-core/src/chain.cpp:45-68 | Two verifying chains of equal length ending in the same hash are equal block for block, or a collision is exhibited |
| `Chains.UndetectedEditCollides` | storage-core/src/chain.cpp:53-64 | An edited block that passes its own and its successor's check exhibits a collision |
| `Chains.EditIsLocalised` | storage-core/src/chain.cpp:45-68 | Replacing block k, not the last, is reported at k or k + 1, or a collision is exhibited |
| `Chains.VerificationBlindSpots` | storage-core/src/chain.cpp:50-65 | Every truncation verifies, and a changed last block verifies exactly if it is consistent with itself and its predecessor |
| `Chains.WrongIndexVerifies` | storage-core/src/chain.cpp:50-65 | A chain with a wrong index that verifies, after which the two builders disagree |
| `Storage.Load` | storage-core/src/storage.cpp:34-59 | The getline loop returns what the text means line by line: all blocks, a fresh genesis for a missing or empty file, or the first bad line's number |
| `Storage.LogFile.AppendBlock` | storage-core/src/storage.cpp:26-32 | The line goes to the end, or some prefix of it does and the stream is bad for good, or, once bad, nothing is written; success is reported exactly if the stream is good |
| `Storage.BlockTextIsOneLine` | storage-core/src/storage.cpp:27 | A block's dump contains no newline |
| `Storage.ReadEncoded` | storage-core/src/storage.cpp:41-52 | Reading a written log gives its blocks followed by what the rest of the file gives |
| `Storage.LogRoundTrip` | storage-core/src/storage.cpp:26-59 | Loading a log of n >= 1 appended blocks returns exactly those blocks |
| `Storage.AppendedLogRoundTrip` | storage-core/src/storage.cpp:26-52 | Appending to any readable file of complete lines, however it was written, and loading gives its blocks and the new ones |
| `Storage.LoadedBlocksAreReadable` | storage-core/src/storage.cpp:41-52 | Whatever a start-up loads, tampered with or not, can be dumped and read again |
| `Storage.RestartAfterTornAppend` | storage-core/src/storage.cpp:26-51 | A file of complete lines, more blocks appended, and an append that failed part-way, from none of its bytes to all of them: the exact three outcomes of the next start, including for a torn genesis on an empty file |
| `Storage.GluedLineIsMalformed` | storage-core/src/storage.cpp:26-51 | A file whose last line lacks its newline, as after a block came back to life: anything appended is glued to that line, and the next start fails there exactly if anything was written |
| `Storage.BootPersists` | storage-core/src/main.cpp:41-58 | A boot on an intact log has disk and memory agree, whatever the disk does; one on a missing or empty file writes its genesis and ends exactly if that fails, leaving a prefix of the line |
| `Storage.BootAfterTornGenesis` | storage-core/src/main.cpp:41-58 | The exact three outcomes of the boot after a torn genesis: a fresh genesis, the old one taken up, or a refusal |
| `Storage.ServingPersists` | storage-core/src/writer.cpp:97-121 | Serving any events on a working disk keeps disk and memory equal and appends exactly those events |
| `Storage.RestartsLoseNothing` | storage-core/src/main.cpp:41-58 | Across any number of clean restarts every start succeeds and the chain is the first genesis extended by all events of all sessions in order |
| `WritePath.StepKeepsInv` | storage-core/src/writer.cpp:88-147 | Every step of handlers, writer, publisher, pumps, closers and the main thread keeps the five-part invariant: grown chain, service books, disk against chain, clients' books, shutdown order |
| `WritePath.ReachableInv` | storage-core/src/writer.cpp:88-147 | The invariant holds in every state of every run from every file a start-up accepts, for every interleaving and every disk failure |
| `Guarantees.ChainIsDurable` | storage-core/src/writer.cpp:97-109 | Every block readers can see is completely on disk, in the file taken over or in what was added to it, and every block added has its position as index |
| `Guarantees.RepliedIsDurable` | storage-core/src/writer.cpp:97-121 | A 201 reply names the block at chain[index], on disk, with the request's own event |
| `Guarantees.BroadcastIsDurable` | storage-core/src/writer.cpp:111-119 | Everything buffered, in a pump's hand or sent is in the visible chain and on disk |
| `Guarantees.ChainIsAppendOnly` | storage-core/src/writer.cpp:80-109 | The loaded chain is kept and alone decides whether the chain is sound; the chain is what Chain::append alone would have built exactly if nothing was added or the loaded chain's last index fits its length, as on every sound chain |
| `Guarantees.NothingIsRewritten` | storage-core/src/writer.cpp:88-147 | No step removes or changes a block, a byte on disk, an acceptance or a reply |
| `Guarantees.ExactlyOnce` | storage-core/src/writer.cpp:92-138 | Accepted requests are partitioned into answered (once), in flight and queued |
| `Guarantees.ChainFollowsAcceptance` | storage-core/src/writer.cpp:92-138 | The events after boot are the accepted events in acceptance order minus those whose persist failed |
| `Guarantees.FailureIsFinal` | storage-core/src/writer.cpp:122-130 | After a failed append a step changes neither file nor chain and can only reply with the failure |
| `Guarantees.FailureIsFinalForever` | storage-core/src/storage.cpp:26-32 | From the first failed append to the end of the run the file and the chain never change |
| `Guarantees.NextStartFindsEverything` | storage-core/src/storage.cpp:26-59 | While no append has failed, the next start on the file finds exactly what has been persisted |
| `Guarantees.NextStartAfterFailure` | storage-core/src/writer.cpp:122-130 | After a failed append the next start finds the chain, or the chain and the very block built for a request that was answered with the failure, or names the torn line; the revived chain is sound if the chain was |
| `RevivedBlock.RefusedBlockComesBack` | storage-core/src/writer.cpp:97-130 | From every file of complete lines and for every event, a run that answers the one request with the failure while its block's text reaches the disk, and after which the next start has the block on the chain |
| `Guarantees.NextStartAfterUnterminated` | storage-core/src/storage.cpp:41-52 | On a file whose last line lacked its newline the next start comes back exactly if nothing was written |
| `Guarantees.NewBlocksSurviveIff` | storage-core/src/storage.cpp:26-59 | What a process adds survives its restart, no append having failed, if and only if the file it took over ended in a newline |
| `Guarantees.NextStartInAnyRun` | storage-core/src/storage.cpp:26-59 | The outcomes of the next start for every state of every run |
| `FeedOrder.FramesComeFromItems` | storage-core/src/ws.cpp:66-82 | Consecutive block frames come from consecutive deliveries, with the lag frame between them exactly when there were drops |
| `FeedOrder.NoSilentGap` | storage-core/src/ws.cpp:66-82 | Of two consecutive block frames i and j, j = i + 1 + N with N the dropped count of the one lag frame between them; with N = 0 there is none and the second's prev_hash is the first's hash |
| `FeedOrder.NoSilentGapInAnyRun` | storage-core/src/ws.cpp:66-82 | All three conclusions of NoSilentGap for every client in every state of every run |
| `FeedOrder.FeedStartsAtSubscription` | storage-core/include/broadcast.hpp:93-97 | The first block a client gets is the first one published after it subscribed, or as many later as its lag frame says |
| `WriterLoop.Run` | storage-core/src/writer.cpp:88-147 | The loop over the real objects answers each queued request once, in order, as the specification computes, and offers every live subscriber exactly the created blocks in chain order |
| `WriterLoop.Serve` | storage-core/src/writer.cpp:92-137 | One request: a failed append changes neither the chain nor any subscriber; a good one appends, publishes and replies with the same block |
| `WriterLoop.FanOut` | storage-core/src/writer.cpp:117-119 | A publish through the writer offers the block to exactly the live subscribers |
| `WriterLoop.LoopBodyIsARun` | storage-core/src/writer.cpp:92-137 | What the loop body computes is what some run of the state machine reaches: same chain, log and reply |
| `Shutdown.ShutdownIsBounded` | storage-core/src/main.cpp:93-113 | From anywhere, the internal steps of a shutdown number at most an explicit measure, for every interleaving |
| `Shutdown.ShutdownNeverStuck` | storage-core/src/main.cpp:93-113 | From the first shutdown step until everything is released some thread can move |
| `Shutdown.ShutdownCompletes` | storage-core/src/main.cpp:93-113 | So every shutdown run that cannot be extended has released everything |
| `Shutdown.NothingIsLeft` | storage-core/src/main.cpp:103-113 | At exit every accepted request has its reply, every pump is joined, and the disk holds the file taken over and every block added unless an append had failed |
| `Shutdown.NoPublishAfterJoin` | storage-core/src/main.cpp:111-113 | After the writer is joined nothing is written, replied, appended or offered any more |
| `Shutdown.FeedStopsFirst` | storage-core/src/main.cpp:101-108 | Once the queue is closed no client has an open subscription or a working pump, in any run |
| `Shutdown.BacklogIsServed` | storage-core/src/writer.cpp:35-63 | From close to the writer's end exactly the request in hand and the queued ones are served, in order |
| `Shutdown.ClosedPumpDrains` | storage-core/src/broadcast.cpp:27-41 | After its subscription is closed a pump sends at most what was in its hand and buffer |
| `ParsedText.ParsedIsWellFormed` | storage-core/src/server.cpp:78-84 | Whatever text parses, blanks and escapes included, parses to a value that prints as JSON again, with strictly sorted keys |
| `EventsApi.ReadEventIsSaid` | storage-core/src/server.cpp:78-84 | An event is read from a body exactly if the body parses to an object whose actor, description, event_type, location_id and metadata are the event's, and the type is not empty |
| `EventsApi.EventTextIsRead` | storage-core/src/server.cpp:78-104 | The text of a well-formed event with a type reads as that event |
| `EventsApi.LooseEventIsRead` | backend-api/tools/simulate_readings.py:259-267 | So does every other text that says the same, with blanks between tokens, members in any order, repeated or beside further ones, and characters escaped or not, as json.dumps writes it |
| `EventsApi.StatusSaysWhatHappened` | storage-core/src/server.cpp:95-131 | 400 exactly for a body that says no event, whatever the writer does; 500 exactly for an event the queue or the disk turned away; 201 exactly for one that became a block |
| `EventsApi.QueuedEventsAreWellFormed` | storage-core/src/server.cpp:78-104 | Every event read from any body meets what the write path assumes of it |
| `EventsApi.CreatedResponseIsTrue` | storage-core/src/server.cpp:95-131 | A 201's body reads as a block that stands in the chain at its index, is on disk, and whose fields are what the posted body's members say |
| `ServerHandles.ServerHandle.Stop` | storage-core/src/server.cpp:258-264 | Records the stop and calls the server exactly if it is attached |
| `ServerHandles.ServerHandle.Attach` | storage-core/src/server.cpp:266-271 | Refuses to attach after a stop |
| `ServerHandles.ServerHandle.Detach` | storage-core/src/server.cpp:273-279 | Afterwards no stop can reach the server |
| `ServerHandles.StopIsSafeAndNotLost` | storage-core/src/server.cpp:258-307 | In every interleaving no stop touches a server outside its life, a stop before attach prevents listening and nothing else does, and a stop between attach and detach always reaches it |
| `ServerHandles.StopComesAnyTime` | storage-core/src/server.cpp:258-264 | A stop can come at any time, is recorded, and calls the server exactly if it is attached then |
| `ServerHandles.ServeComesToItsEnd` | storage-core/src/server.cpp:281-315 | There is a run in which an undisturbed server listens and ends, and one in which a server stopped before never listens and ends |
| `Pumps.StepKeepsInv` | storage-core/src/ws.cpp:84-137 | Every step of opens, Close and Error callbacks, pumps and the stop sweep keeps linear ownership |
| `Pumps.OwnershipIsLinear` | storage-core/src/ws.cpp:84-137 | In every reachable state each started pump is owned by exactly one of map, callback, sweep or nobody because joined; it is joined at most once and then closed and returned |
| `Pumps.OpeningStartsAPump` | storage-core/src/ws.cpp:84-106 | While the server serves, every new connection can be opened, and gets a running pump of its own on an open subscription |
| `Pumps.JoinComesAfterClose` | storage-core/src/ws.cpp:119-136 | The step that joins a pump finds its subscription closed and its loop returned |
| `Pumps.RepeatedCloseIsHarmless` | storage-core/src/ws.cpp:109-117 | A second Close or Error for a connection changes nothing |
| `Pumps.NothingIsLeft` | storage-core/src/ws.cpp:190-202 | After stop() and the callbacks it overlapped every pump has been joined exactly once |
| `Pumps.StoppingNeverStuck` | storage-core/src/ws.cpp:190-202 | Until everything is joined, the stop sequence or a callback can step, or the pump it waits for has been told to return |
| `Pumps.EveryStepCounts` | storage-core/src/ws.cpp:190-202 | Once the server has stopped every change lowers a measure |
| `Pumps.SweepIsBounded` | storage-core/src/ws.cpp:190-202 | So at most that many changes follow, for every interleaving |
| `WsServers.PumpPass` | storage-core/src/ws.cpp:66-82 | The loop writes exactly the frames of the deliveries it took, loses only the item in hand when the socket is gone, and drains a closed subscription |
| `WsServers.PathOf` | storage-core/src/ws.cpp:30-33 | The target up to its first question mark |
| `WsServers.Impl.OnOpen` | storage-core/src/ws.cpp:84-106 | Only a live socket on the feed path opens: one fresh subscription and one fresh pump under its id, registered with the broadcaster |
| `WsServers.Impl.Insert` | storage-core/src/ws.cpp:97-103 | Under the map's lock: the id gets the given subscription and a fresh pump, all other entries unchanged |
| `WsServers.Impl.OnClose` | storage-core/src/ws.cpp:109-125 | Takes exactly that connection out of the map, closes it and joins its pump once; all others untouched; unknown ids do nothing |
| `WsServers.Impl.CloseAll` | storage-core/src/ws.cpp:127-137 | Empties the map and retires every connection that was in it, each once |
| `WsServers.Impl.Stop` | storage-core/src/ws.cpp:190-202 | Only the first call does anything |
| `Activity.RefreshIsNeverRefused` | backend-api/app/activity.py:72-85 | Asking for one block before the cursor always succeeds on a chain reaching the cursor and returns the rest of it; asking for the cursor itself is a 400 exactly when nothing is new |
| `GetBlocks.RangeIsServed` | storage-core/src/server.cpp:140-206 | For all parameters, well-formed or not: a 400 exactly if one is no index or the range is empty; otherwise every block of the range, both ends included, in order, with the length of the whole chain |
| `GetBlocks.ParameterIsIndex` | storage-core/src/server.cpp:140-159 | A parameter is taken exactly if it is absent or a non-empty text of digits whose value is below 2^64, and then for that value |
| `GetBlocks.NumbersAreServed` | storage-core/src/server.cpp:165-206 | Asked for blocks f to t: blocks f to t, or to the end of a shorter chain, and a 400 exactly if f lies behind that |
| `GetBlocks.AbsentMeansTheEnd` | storage-core/src/server.cpp:168-172 | An absent from stands for 0 and an absent to for the last block |
| `FrameMeaning.AnswerSays` | storage-core/src/server.cpp:201-204 | The body of an answer parses to an object that lists the blocks in order, each with all its parts, and gives the chain's length in digits |
| `Activity.LedgerActivity.Receive` | backend-api/app/activity.py:86-110 | A 400 rewinds the cursor, any other failure keeps everything, a payload is consumed and moves the cursor to the reported chain length |
| `ActivityRefresh.PollIsReceived` | backend-api/app/activity.py:72-110 | The sequential poller does with every answer what the object does, and grows and fails as named |
| `ActivityConcurrent.DeliveryIsReceived` | backend-api/app/activity.py:72-110 | So does the machine of overlapping refreshes with every delivery |
| `Activity.LedgerActivity.ConsumeBlocks` | backend-api/app/activity.py:145-158 | The loop leaves the cache that folding the blocks in order gives |
| `Activity.LedgerActivity.ConsumeReading` | backend-api/app/activity.py:166-199 | Latest, history and camera after one block, including out-of-order, malformed and camera blocks |
| `Activity.LedgerActivity.ConsumeCameraEvent` | backend-api/app/activity.py:201-227 | The camera state after one block, with the stream URL carried forward |
| `ActivityRefresh.ReReadIsHarmless` | backend-api/app/activity.py:76-80 | Consuming a block twice in a row leaves last seen, latest and cameras as once does |
| `ActivityRefresh.ReReadDuplicatesHistory` | backend-api/app/activity.py:183-199 | The history is not: for every cache, capacity and sensor, a block whose reading passes the accept guard is appended once by the first read and once more by the second, pushing out the oldest readings of a full deque; any other block leaves the history alone |
| `ActivityRefresh.ReReadCostsAReading` | backend-api/app/activity.py:196-199 | A second read changes the history if and only if the guard lets the block in and the first left anything but copies of its reading; on a full history the oldest reading is lost |
| `ActivityRefresh.IdlePollsFillHistory` | backend-api/app/activity.py:76-85 | n polls of a ledger that does not grow append n copies of the last block's reading, so from n = capacity on every other reading of that sensor is gone |
| `ActivityRefresh.SequentialRefreshesAreAScan` | backend-api/app/activity.py:72-110 | After any sequence of growth, failures and refreshes with re-read last blocks, last seen, latest and cameras equal a single scan up to the cursor |
| `ActivityRefresh.ResetIsRescanned` | backend-api/app/activity.py:92-98 | When the ledger was replaced by a shorter one, the next poll is refused and keeps the cache, and the one after it reads the new ledger from its first block |
| `ActivityRefresh.ScanLatestIsNewestLast` | backend-api/app/activity.py:183-196 | A scan leaves per sensor its newest reading, the last in chain order among ties, and none for a sensor never reported |
| `ActivityMeaning.SeenAfterOneMore` | backend-api/app/activity.py:145-158 | One more block: an actor's last seen becomes the block's instant if that is not before it, and nothing else changes; a block without actor or readable timestamp changes nothing |
| `ActivityMeaning.ReadingsAfterOneMore` | backend-api/app/activity.py:166-199 | One more block, told from its own fields: a SENSOR_READING that names a sensor and is not older than its latest becomes the latest and joins the newest part of the history, with the metadata's own values; anything else changes neither |
| `ActivityMeaning.CameraAfterOneMore` | backend-api/app/activity.py:201-227 | One more block, told from its own fields: a CAMERA_EVENT that is not older than the camera's state replaces it, with the event it names and the url it announces, or else the one before; anything else changes nothing |
| `ActivityRefresh.ScanCameraIsCarriedForward` | backend-api/app/activity.py:201-227 | After any scan a camera holds its last accepted report, and as URL the last non-empty url text in an accepted report's metadata; none exactly if there never was one |
| `ActivityConcurrent.InterleavedRefreshes` | backend-api/app/activity.py:72-164 | Under every interleaving of concurrent refreshes, losses and growth: consumed indices are a gap-free prefix covering the cursor, no refresh is answered 400, last seen is the per-actor maximum over the prefix and the one a scan gives, and latest holds a newest reading |
| `ActivityConcurrent.LatestAgreesWhenNewestIsUnique` | backend-api/app/activity.py:183-196 | Where a sensor's newest reading is unique the cache has the one a scan gives |
| `ActivityConcurrent.TiesCanRewind` | backend-api/app/activity.py:185-196 | Where several tie, for each of them a run of overlapping refreshes leaves the cache with it and the cursor behind |
| `ActivityConcurrent.InterleavingHarmlessIff` | backend-api/app/activity.py:183-196 | Every interleaving agrees with the scan for a sensor if and only if its newest reading is unique |
| `ActivityCameras.InterleavedCameras` | backend-api/app/activity.py:201-227 | Under every interleaving a camera holds the newest instant it was reported at; and one whose newest reports say one thing, and whose last accepted announcement is followed at once by a newer report or ties with no different one, is left exactly as by a scan, carried URL included |
| `ActivityCameras.TiedReportCanWin` | backend-api/app/activity.py:209-227 | Of several reports that tie for the newest instant, each is what some run leaves the camera with: its event, and its URL if it announces one |
| `ActivityCameras.TiedAddressCanWin` | backend-api/app/activity.py:222-227 | Of several accepted reports that tie with the last announcement, each that announces a URL can leave it on the camera, even if newer reports without one follow, unless a newer report is the very next block |
| `ActivityCameras.InterleavingHarmlessForCameraIff` | backend-api/app/activity.py:201-227 | Every interleaving leaves a camera as a scan does if and only if its newest reports carry one event and its last accepted announcement is sealed by a newer report in the next block or ties with no announcement of another URL |
| `Readings.ReadingsOf` | backend-api/app/activity.py:119-143 | The choice of sensors and the nested loops collect, sort and cut as the query function says |
| `ReadingsAnswer.AnswerIsTheNewestOfTheLater` | backend-api/app/activity.py:129-143 | The answer to every query: ascending by instant, sensor and seq, at most limit of the held readings later than since and all of them if there are no more, and nothing left out belongs behind anything returned |
| `ReadingsAnswer.DeviceAnswer` | backend-api/app/activity.py:119-143 | The same for a device, one sensor or all, in whatever order its histories are listed: each held reading counts as often as its own sensor's history holds it |
| `ReadingsAnswer.CacheHoldsOwnReadings` | backend-api/app/activity.py:188-199 | Each history of a cache holds readings of its own sensor only |
| `Readings.SortSorts` | backend-api/app/activity.py:142 | The result is a sorted permutation under (at, sensor_id, seq or 0) |
| `Readings.SortIsStable` | backend-api/app/activity.py:142 | Readings that tie keep the order they were collected in |
| `Readings.HistoryIsTail` | backend-api/app/activity.py:197-199 | Whatever is consumed, each bounded history is the newest part of everything accepted for its sensor |
| `Readings.BoundedAnswersLikeUnbounded` | backend-api/app/activity.py:119-143 | If no evicted reading sorts after a kept one, the capped histories of any sensors answer every query with limit up to the cap like the uncapped ones |
| `Readings.BoundedAnswersExactlyWhenSafe` | backend-api/app/activity.py:119-143 | For one sensor that condition is exact |
| `ReadingsExact.SeveralSensorsExactlyWhen` | backend-api/app/activity.py:119-143 | For any number of sensors the capped histories answer every query with limit up to the cap like the uncapped ones if and only if at least cap of all readings still held sort after each one evicted |
| `ReadingsExact.CacheAnswersExactlyWhen` | backend-api/app/activity.py:119-143 | So for a cache that has consumed any blocks in any order, re-reads and replays included, and for any sensors of a device |
| `Readings.CacheAnswersLikeUnbounded` | backend-api/app/activity.py:119-143 | With seq not falling within equal timestamps of one sensor, the cache answers every query over any sensors like an unbounded one under the same accept rule |
| `Readings.ForwardReadsAreOrdered` | backend-api/app/activity.py:72-85 | Reading a chain with that property forwards, re-reads included, leaves histories with it |
| `Readings.RefreshedCacheAnswersLikeUnbounded` | backend-api/app/main.py:329-337 | End to end for sequential refreshes over such a chain |
| `ActivityHistories.CacheIsScanOfLog` | backend-api/app/activity.py:72-85 | Under every interleaving the cache is what one scan of everything delivered gives, and a history accepts only readings as new as all of their sensor before them on the ledger |
| `ActivityHistories.OverlappingAnswersForADevice` | backend-api/app/activity.py:119-143 | In every run, over any sensors of a device whose ties share their seq, the capped histories answer every query with limit up to the cap as if nothing had been evicted |
| `ActivityHistories.OverlappingAnswersInFullIff` | backend-api/app/activity.py:119-199 | Every run of overlapping refreshes, for every capacity, leaves a sensor's queries answered as if nothing had been evicted, if and only if the readings a scan accepts that share an instant share their seq |
| `ActivityExamples.FallingSeqIsForgotten` | backend-api/app/activity.py:142-143 | For every capacity, a verifying chain on which a sensor's seq falls while its clock stands still, and a query the cache answers differently from an unbounded one |
| `Hub.Subscription.Put` | backend-api/app/hub.py:33-47 | Never waits: a full mailbox gives up its oldest frame, counts it and takes the new one |
| `Hub.Subscription.Get` | backend-api/app/hub.py:49-50 | Hands out the oldest frame |
| `Hub.BrowserHub.Subscribe` | backend-api/app/hub.py:61-64 | Adds one fresh, empty mailbox |
| `Hub.BrowserHub.Unsubscribe` | backend-api/app/hub.py:66-68 | Removes it; a second time changes nothing |
| `Hub.BrowserHub.Broadcast` | backend-api/app/hub.py:70-76 | Whatever the iteration order, every subscriber gets the frame once and the counter goes up by one |
| `Hub.NothingLostIffNothingDropped` | backend-api/app/hub.py:33-47 | Received plus queued is everything broadcast since subscribing if and only if the drop counter is zero |
| `Relay.MoveKeepsRelay` | backend-api/app/main.py:46-59 | Every step of storage-core, of the backend's connection and of the browsers keeps the books of both buffers |
| `Relay.ReachableRelayInv` | backend-api/app/main.py:46-59 | The same for every run, over any number of reconnects |
| `Relay.BlocksIncreaseInAnyRun` | backend-api/app/hub.py:70-76 | A browser receives block frames in strictly increasing index order, across reconnects and drops in both buffers |
| `Relay.BrowserBooksBalance` | backend-api/app/hub.py:30-47 | Received + queued + dropped is the number of frames broadcast while subscribed; nothing is missing exactly if dropped is zero |
| `Relay.CountersAccountForEveryBlock` | backend-api/app/blockfeed.py:116-128 | Between frames, blocks_received and blocks_dropped of the current connection add up to every block published since it subscribed, up to the last received |
| `Relay.OnlyUpstreamLossesAreAnnounced` | backend-api/app/hub.py:33-47 | Losses told in the frames a browser received and in those it missed add up to exactly what storage-core announced, and so do the blocks: the hub adds no announcement of its own |
| `SilentDrop.HubDropsAreSilent` | backend-api/app/hub.py:33-47 | From every start and for every size of the ring upstream and of the mailbox, a run after which a browser's drop counter is one and it holds block frames i and i + 2 with no lag frame between them, storage-core having announced nothing |
| `SilentDrop.ThereIsAStart` | storage-core/src/main.cpp:41-58 | There is a start for that run: a ledger holding its genesis block |
| `Relay.LosslessBrowserSeesNoSilentGap` | backend-api/app/hub.py:70-76 | A browser whose drop counter is zero can account for every block of the current connection from its frames alone |
| `BlockFeeds.FramesAreTold` | backend-api/app/blockfeed.py:106-128 | No block is taken for a lag notice or the other way round, and each arrives whole through the wire format |
| `FrameMeaning.FrameTextSays` | storage-core/src/ws.cpp:35-37 | A lag notice says its type and the number lost, in digits, and nothing else; a block frame says what the block's line says |
| `FrameMeaning.MessageIsTold` | backend-api/app/blockfeed.py:106-128 | A message that is an object is a loss exactly if its type is lagged, cannot be passed on exactly if it is no loss and its event is no object, and is otherwise passed on as it came |
| `FrameMeaning.LossIsRead` | backend-api/app/blockfeed.py:118-120 | An integer counts as written, signed or not, a boolean as 0 or 1, and anything but a number as 0 |
| `BlockFeeds.BlockFeed.Dispatch` | backend-api/app/blockfeed.py:106-128 | Per message: counters and every browser's mailbox change as its meaning says; unparseable or non-object frames change nothing; a block frame the hub cannot digest is counted, reaches nobody and raises |
| `BlockFeeds.BlockFeed.Listen` | backend-api/app/blockfeed.py:91-92 | A stream of messages is dispatched in order, none twice, up to the end or to the first that raises |
| `BlockFeeds.BlockFeed.Run` | backend-api/app/blockfeed.py:79-104 | Any number of passes of the loop, those ended by a raising listener included: when each attempt starts, what is counted and what every mailbox holds |
| `BlockFeeds.AttemptsAreSpaced` | backend-api/app/blockfeed.py:102-104 | For every jitter sequence successive attempts are at least 0.25 s apart, the pause is under 45 s, and under 0.75 s after an established connection |
| `BlockFeeds.JitterSpreads` | backend-api/app/blockfeed.py:102-104 | Every pause from half the backoff up to one and a half of it comes from exactly one jitter, so clients that draw differently wait differently |
| `BlockFeeds.OutagesBackOff` | backend-api/app/blockfeed.py:79-104 | k attempts in a row without a successful connect, anywhere in the run, take at least 15k - 74.25 s |
| `BlockFeeds.BoundIsReached` | backend-api/app/blockfeed.py:79-104 | A run of failures that reaches the least possible wait for any number of attempts |
| `Timestamps.TextOrderIsTimeOrder` | storage-core/include/block.hpp:68-75 | In the written timestamp form lexicographic order is chronological order, and equal texts are equal instants (section 5.1 of RFC 3339) |
| `Timestamps.StampRoundTrip` | storage-core/include/block.hpp:68-75 | A written timestamp can be read back as its instant, in the one form storage-core writes |
| `Calendar.StampSays` | storage-core/include/block.hpp:68-75 | A written timestamp names year, month, day, hour, minute and second in digits of fixed width, and ends in Z |
| `Calendar.ValidIsExisting` | storage-core/include/block.hpp:68-75 | The dates that count are those that exist, leap days by the Gregorian rule |
| `Calendar.TickIsOneSecond` | backend-api/app/activity.py:21-29 | Each tick of the clock moves the instant by one second, across minutes, days, leap days and years |
| `Calendar.EpochIsAtItsPlace` | backend-api/app/activity.py:21-29 | Instants count from the year 1, with the Unix epoch 719162 days behind it |
| `BlockStream.FoldKeepsNewestReadings` | frontend/src/blockStream.ts:63-89 | The fold keeps the last 500 extracted readings and adds up every announced loss |
| `FrameMeaning.DashboardAfterFrame` | frontend/src/blockStream.ts:40-89 | What one frame does, told from its members: a lag notice adds to the losses; a frame without actor or time does nothing; any other moves last seen forward if its time is greater and adds the reading it carries to the newest five hundred |
| `FrameMeaning.DashboardStartsEmpty` | frontend/src/blockStream.ts:31-36 | The dashboard starts with nothing seen, read or lost |
| `FrameMeaning.WrappedBlockSays` | backend-api/app/hub.py:120-130 | A browser's frame holds the block as it came, beside the device |
| `BlockStream.FoldKeepsLatestTimestamp` | frontend/src/blockStream.ts:74-80 | Last seen is, per actor, the greatest timestamp text heard; there is one exactly if a timestamp was heard and, for a name every object inherits, one that sorts after the inherited value |
| `BlockStream.ReadStampReadsStamps` | backend-api/app/activity.py:21-29 | The parse assumed in the agreement results, one that reads every written timestamp, exists |
| `BlockStream.ExtractionAgrees` | frontend/src/blockStream.ts:40-61 | Dashboard and backend extract the same reading from the same block, or both none |
| `BlockStream.LastSeenAgreesUpToInherited` | frontend/src/blockStream.ts:74-80 | Fed the same blocks, the dashboard has the text of the backend's greatest instant for exactly the backend's devices less those with an inherited name |
| `BlockStream.LastSeenAgreesIff` | frontend/src/blockStream.ts:74-80 | So both agree on last seen if and only if no device that was heard has an inherited name |
| `BlockStream.PrototypeOutlastsStamps` | frontend/src/blockStream.ts:75-79 | Nothing Object.prototype holds sorts before a written timestamp, and constructor is among it |
| `ActivityExamples.ConstructorIsNeverSeen` | frontend/src/blockStream.ts:75-79 | For every timestamp, a verifying chain with a device named constructor that the backend sees and the dashboard never does |
| `BlockStream.StreamAgreesWithHistoryIffOrdered` | frontend/src/blockStream.ts:82-88 | For one sensor the stream's readings are those the backend accepts if and only if they come in time order |
| `ActivityExamples.ClockSetBackDisagrees` | frontend/src/blockStream.ts:82-88 | For every two timestamps, a verifying chain whose clock goes back from one to the other, on which stream and history differ |

## Left out

Assumed of libraries and platforms:

- cpp-httplib: `listen` returns only after its handlers have; whether its own `stop` is lost when it comes between attach and listen is not modelled.
- IXWebSocket: a connection is opened once, ids are not reused, no connection is opened after the server has stopped, and frames of one connection arrive in order, possibly cut off at the end.
- IXWebSocket sends: the result of `sendText` is ignored by the source; in the model a frame is sent or the connection is gone.
- Mutexes and condition variables are the usual ones, spurious wakeups included; the condition variable inside each `Subscription` is not modelled with parked threads, its one consumer waits exactly when `Next` reports it would block.
- nlohmann/json: numbers stay the text they were given as, where the library stores and reprints them (1e2 becomes 100.0), so `get<std::uint64_t>` of a negative or fractional number is a refusal rather than a conversion; a byte-order mark is not skipped, and string bytes that are not UTF-8 are accepted.
- `json.loads`, `datetime.fromisoformat` and `gmtime_r` are parameters or left to any valid result; the one instance given reads the fixed timestamp form, from 1970 to 9999 and without leap seconds.
- SHA-256, OpenSSL failures: `compute_hash` is total.

Stated for less than the code could meet:

- Storage.RestartsLoseNothing: clean restarts on a working disk; restarts after a failed append are NextStartAfterFailure.
- Storage.LogFile.AppendBlock: after a failure the file ends in any prefix of the line, all of it included, which covers a later close that flushes the rest; a stream that at close repeats bytes already written is not modelled.
- Readings.ReadingsOf: a `seq` that cannot be compared with the others of its sensor and instant would make Python's sort raise; here every `seq` has some number.
- BlockStream.FoldKeepsNewestReadings: `dropped` is an integer, as the backend sends it; JavaScript would concatenate a string.
- BlockStream.FoldKeepsLatestTimestamp: byte order stands for JavaScript's UTF-16 order; they agree on every written timestamp and on all ASCII text, and can differ on other texts.
- BlockStream.LastSeenAgreesIff: for timestamps in the form storage-core writes; for others the backend skips a block the dashboard still hears.
- ActivityHistories.OverlappingAnswersInFullIff: necessary for each sensor asked about alone, sufficient for any together (OverlappingAnswersForADevice); exact for several together is the condition on what was accepted, CacheAnswersExactlyWhen.
- Relay.BlocksIncreaseInAnyRun: within one run of storage-core and up to 2^64 blocks, where indices have not wrapped.
- ActivityConcurrent.InterleavedRefreshes: the ledger only grows; the rewind after a reset ledger is stated for polls one after another (ResetIsRescanned).

Not part of this model:

- `catch (...)` after memory exhaustion: a request that fails that way would get its one reply, as for a storage failure.
- A WebSocket listener that fails to bind at start-up (storage-core/src/main.cpp:81-87).
- Operating system signals, log lines, CORS headers, configuration, error texts of responses, `GET /verify` and `/health` beyond `verify_chain`.
- `RegistryEnricher` and its cache: the device field of a browser frame is arbitrary.
- Cancellation of the feed's task and of a browser's two tasks; a frame taken from a mailbox counts as received.
- Registered devices, users, database, and the `/devices` listing.
- `status` and `statusFrom`, URL helpers, and the React components.
- Counters are unbounded; the `size_t` ones would have to pass 2^64 to differ.
