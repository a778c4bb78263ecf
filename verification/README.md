# Fastlane sidecar: a verified model

A Dafny model of the sidecar that runs beside a Monad validator: it decodes the node's transaction-pool events, keeps a time-limited pool, classifies auction bids, and sends bids back with a 256-bit priority over a reconnecting socket.

- `Sidecar.dfy`, `Pool.dfy`, `Metrics.dfy`, `BincodeDecoder.dfy`, `Rlp.dfy`, `Framing.dfy`, `Priorities.dfy`, `EventChannel.dfy` and `BidSort.dfy` hold the imperative code in the source's own form (objects updated in place, heap records in a map, decoders threading an offset, loops), each method proved against a specification.
- `SidecarModel.dfy` gives every critical section and every whole handler as a function on states. `SidecarThreads.dfy` is the same sidecar as threads interleaved at its lock boundaries; `SidecarRefinement.dfy` proves that every run of whole handlers is a schedule of it.
- `SidecarLaws.dfy` and `SidecarSafety.dfy` hold what is true in every reachable state of every interleaving; `SidecarRuns.dfy`, `SidecarSends.dfy`, `SidecarHistory.dfy` and `SidecarSendHistory.dfy` what is true of runs of whole handlers, each counter, timestamp, measurement and entry told from the inputs; `SidecarEvents.dfy` what each decoded event does; `SidecarTracking.dfy` how the tracking map and the pool part, and `SidecarGauges.dfy` how the two pool-size gauges and the pool do. `SidecarThreads.FlawExactly` lifts an exact account of the steps into and out of a bad state to all schedules.
- `Reconnect.dfy` is the reconnection protocol: the loop, any number of readers and the sender, one shared read or write per step.
- `TxSender.dfy` is the client's send, from a transaction and a priority to the bytes on the connection, with a strict reader of them.
- `ReadLoop.dfy` is the reader of one connection, from the bytes of the stream to the events offered to the channel; `EndToEnd.dfy` joins it with the channel, the sidecar and the messages sent.
- `Bincode.dfy` (reference encoder and parser), `PriorityText.dfy` (printed priorities), `Filter.dfy` (classification), `Endian.dfy`, `Bits.dfy` and `Decimal.dfy` complete it.

The environment enters as parameters. Clock readings and the outcome of each send come with the input that reads them, or with the step that reads them in the interleaved machine. Library functions (transaction unmarshalling, ABI unpacking) are function-valued fields of `Runtime` and `FilterConfig`, so every result holds for any such library. A panic, or an allocation the runtime refuses, is the outcome `Fail(Panic)`.

The comment at internal/metrics/metrics.go:157 calls the last bucket the overflow bucket, but the code also counts observations between the last two bounds there; `Belongs` follows the code.

Several tempting claims are false of the code. Each has an input or a schedule that shows it, and a theorem that says exactly when the claim holds.

| claim | fails in | holds exactly |
|---|---|---|
| a raised connected flag means a stored connection | `Reconnect.FlagUpWithoutConnection`, `Reconnect.FlagUpWhileRedialing` | `Reconnect.FlagUpWithoutConnectionExactly` |
| one redial for one lost connection | `Reconnect.OneLossTwoRedials` | `Reconnect.DialsExactly`, and `Reconnect.SignalClosesDeadConnection` for each close |
| every tracked transaction is pooled | `SidecarTracking.TrackedButNotPooled`, `SidecarTracking.ExpiredWhileSending` | `SidecarTracking.RunStrandsExactly`, `SidecarTracking.SchedulesStrandExactly` |
| the expiry counter counts what expired | `SidecarRuns.NothingExpiredCountsOne` | `SidecarSafety.ExpiryCounterExact` |
| the pool-size gauge never understates the pool | `SidecarRuns.GaugeSaysNone` | `SidecarGauges.UnderstatesExactly` |
| the two pool-size gauges agree at rest | `SidecarGauges.DisagreeAtRest` | `SidecarGauges.DisagreeExactly`, and always while their stores stay apart: `SidecarGauges.AgreeWhileApart` |
| every connection but the current one is closed | `Reconnect.TwoReadersAtWork` | `Reconnect.OpenExactly` |
| the pool-size gauge is the pool size | `SidecarRuns.RetirementLeavesGauge` | `SidecarRuns.GaugeDrift` |
| bytes that decode are the encoding of what they decode to | `Bincode.DecodingIsNotInjective` | `Bincode.EventIsEncodingExactly`, `Bincode.BatchIsEncodingExactly` |
| a strict RLP reader of the layout finds the transaction bytes in a sent message | `Rlp.TypedTxIsLost` | `Rlp.ReaderInvertsEncoder`, `SidecarSends.MessageParsesBack` |
| priorities never rise along sorted bids | `BidSort.HugeBidSortsFirstRanksLast` | `BidSort.PriorityRisesExactly` |
| the last exposed bucket is the exposed total | `Metrics.LastBucketAboveTotal` | `Metrics.ReaderDrift` |

## Model

| member | source | states |
|---|---|---|
| Sidecar.Sidecar.HandleTxPoolEvent | internal/orchestrator/sidecar.go:207-251 | the whole new state after any decoded event is the step function of the old state; only the pool's map and its records change on the heap |
| Sidecar.Sidecar.HandleIncomingTransactionFromEvent | internal/orchestrator/sidecar.go:254-320 | unreadable, echo or duplicate, and accepted transactions each end in the specified state |
| Sidecar.Sidecar.NoteEcho | internal/orchestrator/sidecar.go:268-282 | a duplicate untracks and measures a tracked transaction and leaves everything else alone |
| Sidecar.Sidecar.Accept | internal/orchestrator/sidecar.go:285-316 | adding, typing, setting bid data, sizing and counting together are one acceptance |
| Sidecar.Sidecar.WriteBidData | internal/orchestrator/sidecar.go:296-298 | writing through the pooled pointer changes that one record and no other; nothing is written when the hash is no longer pooled |
| Sidecar.Sidecar.HandleTobBid | internal/orchestrator/sidecar.go:323-338 | one stream with the priority of the bid, none when bid data is missing |
| Sidecar.Sidecar.HandleBackrunBid | internal/orchestrator/sidecar.go:341-372 | target streamed first, then the bid, and the pair counted, only while the target is pooled |
| Sidecar.Sidecar.StreamTransaction | internal/orchestrator/sidecar.go:375-401 | lookup failure, send failure and success each with their counters, log and tracking entry |
| Sidecar.Sidecar.Untrack | internal/orchestrator/sidecar.go:230-246 | the before-echo counter of the event's kind advances exactly when the entry was tracked |
| Sidecar.Sidecar.RemovePrioritizedTx | internal/orchestrator/sidecar.go:405-411 | removes the entry and reports whether it was there |
| Sidecar.Sidecar.Retire | internal/orchestrator/sidecar.go:228-246 | commit, drop and evict note their kind, untrack and remove |
| Sidecar.Sidecar.SweepTracked | internal/orchestrator/sidecar.go:443-450 | deleting while iterating leaves exactly the entries not older than the maximum age |
| Sidecar.Sidecar.CleanupTick | internal/orchestrator/sidecar.go:424-450 | one tick of the cleanup loop has exactly the effect of the specified cleanup |
| Pool.TransactionPool.AddTransactionWithRlp | internal/pool/transactionpool.go:36-59 | the first record of a hash stays, a duplicate changes nothing, keys and records stay coherent |
| Pool.TransactionPool.GetTransaction | internal/pool/transactionpool.go:62-66 | null exactly when the hash is not pooled, otherwise the record under that key |
| Pool.TransactionPool.UpdateTransactionType | internal/pool/transactionpool.go:69-76 | updates the one heap record in place and no other |
| Pool.TransactionPool.RemoveTransaction | internal/pool/transactionpool.go:79-91 | removes the key and returns the record that was under it |
| Pool.TransactionPool.CleanupOldTransactions | internal/pool/transactionpool.go:94-112 | deleting while iterating leaves exactly the records not received before the cutoff |
| Pool.TransactionPool.Size | internal/pool/transactionpool.go:115-119 | the number of pooled transactions |
| Filter.ClassificationExact | internal/processor/filter.go:71-157 | a top-of-block bid if and only if the call names the single zero hash, a backrun bid if and only if it names a target then the zero hash, and bid data is always complete for its type |
| Filter.ClassificationByBytes | internal/processor/filter.go:120-157 | the same by the bytes of the hashes: a call is a bid exactly when its last hash is 32 zero bytes and comes alone or after one target, and its amount and target are those of the call |
| Filter.BidsAreCalls | internal/processor/filter.go:71-113 | only calls to the auction contract by the method's selector are bids |
| SidecarModel.FilterIsComplete | internal/processor/filter.go:135-150 | the sidecar's own configuration satisfies the completeness the laws rely on |
| SidecarLaws.LawsHold | internal/orchestrator/sidecar.go:207-451 | four conservation laws hold in every reachable state of every interleaving, with the transaction in hand accounted for |
| SidecarLaws.TrackingConservation | internal/orchestrator/sidecar.go:228-282 | sends to the node = tracked + echoed + retired before echo + swept + overwritten, in every state, plus one send counted and not yet tracked or one entry deleted and not yet counted |
| SidecarLaws.SendEquation | internal/orchestrator/sidecar.go:305-401 | between events, top-of-block bids + 2 x matched pairs = sends + send errors, whatever cleanups ran in between |
| SidecarLaws.ReceiveConservation | internal/orchestrator/sidecar.go:211-319 | between events, inserts received = duplicates + unreadable + the three kinds, and the kinds = processed = pooled + removed + expired |
| SidecarSafety.PoolCoherence | internal/orchestrator/sidecar.go:285-298 | between events every pooled record is under its own hash, typed and with bid data exactly as the classifier says, whatever cleanups ran in between, with non-empty raw bytes if all inserts have them |
| SidecarSafety.BytesComeFromInserts | internal/orchestrator/sidecar.go:375-388 | in every interleaving pooled and sent bytes are those of an insert of the same transaction, and no send is empty |
| SidecarSafety.BoundedResidency | internal/orchestrator/sidecar.go:414-451 | while cleanups are at most a quarter of the maximum age apart, nothing pooled or tracked is older than the maximum age plus that quarter |
| SidecarSafety.CleanupIsExact | internal/orchestrator/sidecar.go:424-450 | a cleanup step removes an entry if and only if it is older than the maximum age, and changes no other |
| SidecarSafety.ExpiryCounterExact | internal/orchestrator/sidecar.go:425-436 | what a tick adds to the expiry counter is the number expired if and only if as many entered as left between its size readings, or nothing expired and no more left than entered |
| SidecarGauges.GaugeUnderstatesExactly | internal/orchestrator/sidecar.go:300-303 | in every interleaving the gauge comes to understate the pool by exactly two kinds of section - a transaction entering an exactly shown pool, and a tick storing a size since which more entered than left - and ceases to by exactly four |
| SidecarGauges.UnderstatesExactly | internal/orchestrator/sidecar.go:285-440 | after any schedule the gauge understates the pool if and only if some section brought that about and none has ended it since |
| SidecarGauges.GaugeAfterStores | internal/orchestrator/sidecar.go:432-440 | what the event thread stores in either gauge never understates the pool; what a tick stores in either is off by exactly what entered and left since its second reading |
| SidecarGauges.DisagreeExactly | internal/orchestrator/sidecar.go:302-303 | with the two stores of each thread as separate steps: after any schedule the gauges disagree if and only if some store put in a size the other gauge did not show and none has stored one it did since |
| SidecarGauges.AgreeWhileApart | internal/orchestrator/sidecar.go:439-440 | while no thread begins to store between the other's two stores, the gauges agree whenever neither thread is between its own |
| SidecarGauges.DisagreeAtRest | internal/orchestrator/sidecar.go:302-440 | a schedule from the start that ends with both threads at rest, an empty pool, one gauge at 0 and the other at 1 |
| SidecarSafety.LatenciesNonNegative | internal/orchestrator/sidecar.go:213-216 | on a clock that never goes back no measured latency is negative |
| SidecarRefinement.StreamReaches | internal/orchestrator/sidecar.go:375-401 | the critical sections of a stream, run in one go, are one stream of the handler function |
| SidecarRefinement.StepReaches | internal/orchestrator/sidecar.go:207-251 | any timely input can be taken by the interleaved machine in one go, ending in exactly the handlers' state |
| SidecarRefinement.RunReaches | internal/orchestrator/sidecar.go:190-204 | every run of whole handlers on a non-decreasing clock is a schedule of the interleaved machine |
| SidecarRefinement.RetiredDuringTickCountsAsExpired | internal/orchestrator/sidecar.go:425-436 | from any state at rest in which nothing is old, a transaction retired between the two size readings of a tick is counted as expired although none expired |
| SidecarRuns.NothingExpiredCountsOne | internal/orchestrator/sidecar.go:425-436 | from the start, one insert and one tick suffice: nothing ever expired and the counter is 1 |
| SidecarRuns.HistoryRefinement | internal/pool/transactionpool.go:36-112 | a hash is pooled if and only if some accepted insert of it saw no later commit, drop or evict of it and no cleanup more than the maximum age after it; the record is that first insert's, never refreshed |
| SidecarRuns.StepPool | internal/orchestrator/sidecar.go:207-298 | the effect of each input on the pool, whatever it streams |
| SidecarRuns.GaugesHold | internal/orchestrator/sidecar.go:300-303 | over runs of whole handlers both gauges agree and never understate the pool, and the expiry counter is exact |
| SidecarRuns.GaugeExactAfter | internal/orchestrator/sidecar.go:426-440 | the gauge equals the pool size right after an accepted insert and right after a tick |
| SidecarRuns.GaugeDrift | internal/orchestrator/sidecar.go:228-246 | the gauge overstates the pool by exactly the transactions that commits, drops and evicts removed since the last accepted insert or tick |
| SidecarRuns.RetirementLeavesGauge | internal/orchestrator/sidecar.go:228-246 | an insert and its commit, drop or evict leave an empty pool and a gauge of 1 |
| SidecarRuns.GaugeSaysNone | internal/orchestrator/sidecar.go:426-440 | a schedule from the start that ends between events with one transaction pooled and the gauge at 0 |
| SidecarRuns.RunConservation | internal/orchestrator/sidecar.go:218-320 | all conservation laws for whole runs, with expired transactions read off the exposed counter |
| SidecarHistory.RunHistory | internal/orchestrator/sidecar.go:207-320 | for every run: each receive, kind, pair, drop, before-echo and tick counter is the number of inputs it stands for; the commit and receive times are the last readings of their kind; the arrival and echo measurements, pending and recorded together, are exactly one for each insert after a commit and one for each echo, in milliseconds between the two readings |
| SidecarHistory.AcceptsIsAccepted | internal/pool/transactionpool.go:36-59 | the inserts counted as accepted are the accepted inserts of the pool's history |
| SidecarHistory.LatestIs | internal/orchestrator/sidecar.go:220-229 | a remembered time is the reading of the last input that has one |
| SidecarSendHistory.TrackingRefinement | internal/orchestrator/sidecar.go:268-450 | a hash is tracked as sent at a time if and only if some input sent it then and no later input retired it, echoed it, sent it again or ticked more than the maximum age after it |
| SidecarSendHistory.RunSends | internal/orchestrator/sidecar.go:375-391 | the counters of sent transactions are the successes of the send log, the error counter its failures, and the last send time the reading of the last success |
| SidecarEvents.RetirementEvents | internal/orchestrator/sidecar.go:228-246 | what each commit, drop and eviction does to the transaction it names, to the counters and to the commit time, and that it does nothing else |
| SidecarEvents.InsertEvents | internal/orchestrator/sidecar.go:211-320 | what an insert event does: counted as received, and if new and readable pooled with the event's raw bytes, typed, counted under its type, and what it calls for sent |
| SidecarTracking.StepStrandsExactly | internal/orchestrator/sidecar.go:424-450 | an input leaves a tracked transaction unpooled if and only if it is a tick at which a tracked transaction is too old for the pool and its entry not too old for the tracking map |
| SidecarTracking.RunStrandsExactly | internal/orchestrator/sidecar.go:207-451 | every tracked transaction is pooled in every state of a run if and only if no such tick comes |
| SidecarTracking.SectionStrandsExactly | internal/orchestrator/sidecar.go:384-400 | in every interleaving the exact two sections that do so - the expiry of a tracked transaction, and the tracking of one that expired while being sent - and the exact ones after which every tracked transaction is pooled again |
| SidecarTracking.SchedulesStrandExactly | internal/orchestrator/sidecar.go:268-451 | after any schedule some tracked transaction is not pooled if and only if some section stranded an entry and the last stray entry has not gone since |
| SidecarTracking.LateSendStrands | internal/orchestrator/sidecar.go:397-450 | for any classifier and any maximum age from 1 ns on, a top-of-block bid sent late and one tick leave its entry without a pooled transaction |
| SidecarTracking.TrackedButNotPooled | internal/pool/transactionpool.go:94-112 | the same on concrete values with the sidecar's own filter |
| SidecarTracking.ExpiredWhileSending | internal/orchestrator/sidecar.go:384-400 | a schedule from the start in which a cleanup between send and tracking leaves such an entry |
| SidecarSends.SendLogStep | internal/orchestrator/sidecar.go:323-401 | each input extends the send log by exactly its own attempts, and each attempt carries the raw bytes of the live insert that put its transaction in the pool |
| SidecarSends.SendShapes | internal/orchestrator/sidecar.go:362-368 | an input sends nothing, one top-of-block bid, or a target and then its bid in one group with strictly falling priority |
| SidecarSends.RunLog | internal/orchestrator/sidecar.go:323-401 | the log of a whole run is each input's own attempts in order; every entry carries byte for byte the raw bytes of an insert alive when it was sent; every target is followed at once by the bid on it, in one group with strictly falling priority, and every backrun bid follows its target |
| SidecarSends.RunSendsRank | internal/orchestrator/sidecar.go:330-368 | over the log of a whole run every top-of-block send outranks every other send, and between a target and its bid rank only higher bids of the same group |
| SidecarSends.MessageParsesBack | internal/ipc/txpool_client.go:239-265 | a strict RLP reader of the layout recovers the transaction bytes and the priority from a sent message if and only if the bytes are one RLP item; the length prefix is right if and only if the envelope is below 2^32 bytes |
| SidecarSends.MessageFields | internal/ipc/txpool_client.go:239-265 | a sent message is one list: first the attempt's raw bytes, then its priority, highest byte first without leading zeros, then the empty list |
| SidecarSends.ReceivedExactly | internal/ipc/txpool_client.go:239-273 | a strict reader finds exactly the raw bytes and the priority if and only if the raw bytes are one RLP item |
| SidecarSends.RunMessagesRank | internal/orchestrator/sidecar.go:330-368 | the ranking of a whole run's sends, on the priorities read back from the messages |
| SidecarSends.TobBidOnTheWire | internal/orchestrator/sidecar.go:323-338 | from the call to the wire: an accepted call with the single zero hash sends the transaction's raw bytes with priority 2^255 plus the low 128 bits of the amount |
| SidecarSends.BackrunBidOnTheWire | internal/orchestrator/sidecar.go:341-372 | an accepted call with a pooled target and the zero hash sends the target's raw bytes, then its own, with the priorities of the target's top 126 bits |
| TxSender.SendTxWithPriorityRlp | internal/ipc/txpool_client.go:239-275 | the message of a transaction and a priority is written whole, or a first part of it when the peer fails, or nothing when it cannot be encoded |
| Reconnect.NoLostWakeUp | internal/ipc/txpool_client.go:51-126 | while the flag is down, the pointer empty or the stored connection's reader finished, a signal is pending, the loop is reconnecting, or some thread has yet to trigger |
| Reconnect.InvHolds | internal/ipc/txpool_client.go:209-276 | the inductive invariant behind it, over every interleaving of loop, readers and sender |
| Reconnect.BackoffAndCallbacks | internal/ipc/txpool_client.go:73-114 | every sleep is the capped doubling of the failures since the last success, and the callback ran once per raised connection but the first |
| Reconnect.BackoffBounds | internal/ipc/txpool_client.go:52-53 | the backoff stays between 100 ms and 5 s, never falls between successes, and is 5 s from the sixth failure on |
| Reconnect.SleepsExactly | internal/ipc/txpool_client.go:73-114 | after any schedule, with k dials failed in a row the loop sleeps min(5000, 100 x 2^(k-1)) ms, and the callback has run once for every raised flag but the first |
| Reconnect.WritesGuarded | internal/ipc/txpool_client.go:224-255 | a send only writes to a connection that was stored when it read the pointer, after it had found the flag up, with no other step of the sender since |
| Reconnect.FlagUpWithoutConnection | internal/ipc/txpool_client.go:255-262 | a schedule that ends with the flag up, no connection stored and the sender's trigger still to come |
| Reconnect.FlagUpWhileRedialing | internal/ipc/txpool_client.go:62-69 | a schedule that ends so with no trigger to come: the loop closed a fresh connection and left the flag up |
| Reconnect.FlagStepExact | internal/ipc/txpool_client.go:62-81 | a step breaks "flag up means connection stored" if and only if it closes or clears under a raised flag, or raises the flag over a cleared pointer; it mends it if and only if it lowers the flag or stores a pointer |
| Reconnect.FlagUpWithoutConnectionExactly | internal/ipc/txpool_client.go:62-81 | after any schedule the flag is up with no connection stored if and only if some step broke the claim and none mended it since |
| Reconnect.LateTriggerClosesFreshConnection | internal/ipc/txpool_client.go:62-69 | a schedule in which the loop is about to close a fresh connection that is being read, with only the first connection lost |
| Reconnect.OneLossTwoRedials | internal/ipc/txpool_client.go:62-76 | the same schedule carried through: three dials, one connection lost, the reader of the second never stopped |
| Reconnect.SignalClosesDeadConnection | internal/ipc/txpool_client.go:62-69 | the connection the loop is about to close has lost its reader if and only if that reader's trigger is merged in the signal it took (or came after it) |
| Reconnect.DialsBounded | internal/ipc/txpool_client.go:208-215 | every signal taken is dialled once, and there is at most one dial for the constructor and two for every lost connection |
| Reconnect.DialsExactly | internal/ipc/txpool_client.go:208-276 | the exact number of dials; at rest there is one redial per lost connection if and only if as many triggers met a pending signal as connections were lost by both their reader and the sender |
| Reconnect.OpenExactly | internal/ipc/txpool_client.go:62-69 | a connection stays open beyond the stored and the just dialled one if and only if the sender cleared its pointer |
| Reconnect.TwoReadersAtWork | internal/ipc/txpool_client.go:255-262 | a schedule that ends at rest with two connections open and read and nothing ever closed |
| Reconnect.FlagUpWithoutConnectionIsTransient | internal/ipc/txpool_client.go:224-237 | with the loop waiting and no trigger to come, the flag is up, a connection is stored and its reader has not finished |
| EventChannel.Channel.Forward | internal/ipc/txpool_client.go:170-177 | whatever the event loop and other readers do in between, a reader's batch is offered whole and in order and its drops are counted; undisturbed, it is taken up to the room left |
| EventChannel.InOrderOrDropped | internal/ipc/txpool_client.go:170-177 | over any mix of offers and takes, taken and queued events are exactly the kept offers in order, and every other offer was dropped |
| EventChannel.BatchOffers | internal/ipc/txpool_client.go:170-177 | whatever the others do in between, a reader offers its batch whole and in order |
| EventChannel.FirstThousand | internal/ipc/txpool_client.go:36 | a fresh channel nobody receives from takes exactly the first thousand of a batch |
| ReadLoop.ReadEvents | internal/ipc/txpool_client.go:120-182 | a reader offers the channel exactly the events of its connection's bytes, in order, whatever the event loop and the readers of other connections do meanwhile, and ends as the bytes say |
| EndToEnd.SessionIsCut | internal/ipc/txpool_client.go:128-177 | the raw bytes of every insert a session offers are a slice of its connection's bytes, below 2^32 bytes, that reads as its transaction |
| EndToEnd.SendsAreStreamSlices | internal/orchestrator/sidecar.go:190-401 | end to end in every interleaving: every attempt to send carries a non-empty slice of some connection's bytes that reads as the transaction sent |
| EndToEnd.RunSendsStreamSlices | internal/orchestrator/sidecar.go:190-401 | the same for whole runs, entry by entry of the log: each message exists, contains that slice, and parses back if and only if the slice is one RLP item |
| ReadLoop.SessionDelivers | internal/ipc/txpool_client.go:128-182 | a snapshot frame, any frames, and a frame cut short: offered are exactly the events of the frames that decode, in order, and nothing of the cut one |
| ReadLoop.SessionNeedsSnapshot | internal/ipc/txpool_client.go:128-132 | nothing is offered before a snapshot has decoded, whichever way it fails |
| ReadLoop.SessionCrashes | internal/ipc/txpool_client.go:163-168 | a body whose decoding panics: everything before it was offered and nothing after |
| ReadLoop.BatchesMeanTheirEvents | internal/ipc/txpool_client.go:163-177 | when the frames are encodings of event vectors, offered is the meaning of every event of every vector |
| Bincode.EventsRoundTrip | internal/ipc/txpool_types.go:196-410 | decoding the encoding of any event vector gives back the events up to reason texts and consumes exactly the encoding, and panics exactly when the runtime refuses that many |
| Bincode.EventRoundTrip | internal/ipc/txpool_types.go:220-255 | the same for one event, whatever follows it |
| Bincode.ReasonRoundTrip | internal/ipc/txpool_types.go:331-386 | every drop-reason variant decodes to its text and consumes its nested data |
| Bincode.ReasonTexts | internal/ipc/txpool_types.go:331-386 | the text of every drop reason, word for word |
| Bincode.EvictTexts | internal/ipc/txpool_types.go:395-405 | the texts of evictions, word for word |
| Bincode.EventBytes | internal/ipc/txpool_types.go:220-325 | the bytes of a commit and of an insert event, one by one |
| Bincode.InsertLayout | internal/ipc/txpool_types.go:269-325 | an insert's fields and every way to fail, at their offsets |
| Bincode.ReplacedLayout | internal/ipc/txpool_types.go:355-370 | the drop reason with a hash: the unchecked slice, the length and the hash, at their offsets |
| Bincode.EventLayout | internal/ipc/txpool_types.go:220-255 | an event's hash and action at their offsets, and how it fails without them |
| Bincode.ActionLayout | internal/ipc/txpool_types.go:259-270 | which variants are known, by their low byte, and how the others fail |
| Bincode.BatchLayout | internal/ipc/txpool_types.go:196-216 | a batch's length field, and the panic when it is too large to allocate |
| Bincode.ReadersInOrder | internal/ipc/txpool_types.go:308-317 | the binary reader decides, and the RLP reader only when that fails |
| Bincode.EventExtends | internal/ipc/txpool_types.go:220-255 | decoding an event is unaffected by bytes after it |
| Bincode.EncodingsArePrefixFree | internal/ipc/txpool_types.go:196-216 | no strict prefix of an encoded event vector decodes |
| Bincode.EncodingDeterminesMeaning | internal/ipc/txpool_types.go:196-216 | a vector whose encoding begins another encoding decodes to the same events |
| Bincode.CommitDecoding | internal/ipc/txpool_types.go:265-268 | a variant decodes as a commit if and only if its low byte is 1 |
| Bincode.DecodingIsNotInjective | internal/ipc/txpool_types.go:265-291 | a variant of 257 is a commit too, and every nonzero owned byte decodes alike |
| Bincode.EventIsEncodingExactly | internal/ipc/txpool_types.go:220-291 | bytes that decode are the encoding of a well-formed event, followed by the rest, if and only if the variant is below 256 and the owned byte of an insert is 0 or 1 |
| Bincode.BatchIsEncodingExactly | internal/ipc/txpool_types.go:196-216 | the same for a whole batch: if and only if each of its events is so spelled |
| Bincode.SnapshotRoundTrip | internal/ipc/txpool_types.go:167-193 | a snapshot's hashes decode back and consume exactly its encoding |
| Bincode.InsertKeepsItsBytes | internal/ipc/txpool_types.go:293-306 | the raw bytes kept for an insert are the announced slice of the input, byte for byte |
| Bincode.DecodedInsertsCarryTheirBytes | internal/ipc/txpool_types.go:308-325 | every decoded insert's raw bytes read as its transaction, so none is empty when nothing reads as no transaction |
| BincodeDecoder.DecodeEthTxPoolEvents | internal/ipc/txpool_types.go:196-216 | the offset loop refines the recursive parser, including the first failure and its reason |
| BincodeDecoder.DecodeEthTxPoolEvent | internal/ipc/txpool_types.go:220-255 | value, bytes read and failure agree with the parser |
| BincodeDecoder.DecodeEventAction | internal/ipc/txpool_types.go:259-410 | value, bytes read and failure agree with the parser |
| BincodeDecoder.DecodeInsert | internal/ipc/txpool_types.go:269-325 | the same for inserts, with a negative length and both transaction readers |
| BincodeDecoder.DecodeDropReason | internal/ipc/txpool_types.go:331-386 | the same for drop reasons, with the unchecked slice |
| BincodeDecoder.DecodeEthTxPoolSnapshot | internal/ipc/txpool_types.go:167-193 | the snapshot loop refines the recursive parser |
| Rlp.EncodeLength | internal/ipc/txpool_types.go:134-144 | big-endian bytes of the length with no leading zero |
| Rlp.EncodeRlpListHeader | internal/ipc/txpool_types.go:121-131 | the reference list header for every slice length |
| Rlp.EncodeRlp | internal/ipc/txpool_types.go:82-118 | the reference envelope, failing exactly on a negative priority or an item too long |
| Rlp.SplitOfHeader | internal/ipc/txpool_types.go:121-131 | a strict reader undoes a header on both sides of the 55/56-byte boundary |
| Rlp.SplitEncodes | internal/ipc/txpool_types.go:121-131 | the strict reader accepts nothing but encodings: what it reads is the encoding of the content it found |
| Rlp.EnvelopeParsesBack | internal/ipc/txpool_types.go:82-118 | the strict reader recovers raw bytes, priority and extra data if and only if the raw bytes are one RLP item |
| Rlp.ReaderInvertsEncoder | internal/ipc/txpool_types.go:82-118 | encoder and strict reader are inverse: an envelope is read from exactly the bytes the encoder writes for it, for raw bytes that are one item, and from no others |
| Rlp.TypedTxIsLost | internal/ipc/txpool_types.go:308-314 | a typed transaction in the bare form the decoder accepts is not one item, and a strict reader of the layout rejects its envelope |
| Rlp.TypedTxExample | internal/ipc/txpool_types.go:82-118 | the five bytes of the smallest such envelope |
| Rlp.TreeEnvelopeParsesBack | internal/ipc/txpool_types.go:82-118 | over any RLP tree the envelope is the reference encoding of the three-item list and parses back |
| Rlp.EnvelopesCollide | internal/ipc/txpool_types.go:82-118 | two different envelopes with one encoding, when a raw transaction is not one item |
| Rlp.EnvelopeInjective | internal/ipc/txpool_types.go:82-118 | different envelopes never share an encoding |
| Rlp.EnvelopeIsTree | internal/ipc/txpool_types.go:82-118 | over an RLP tree the envelope is the Appendix B encoding of the three-item list, empty extra data as the empty list |
| Framing.ReadFrame | internal/ipc/protocol.go:15-42 | the result and the unread bytes of one read for every stream, cut ones included |
| Framing.WriteFrame | internal/ipc/protocol.go:44-61 | refused bodies write nothing, a failing peer keeps a prefix of the frame, otherwise the whole frame |
| Framing.Resynchronises | internal/ipc/protocol.go:15-42 | repeated reads of concatenated frames return the bodies, or one error per oversized one, in order, each ending on a frame boundary |
| Framing.FrameLimit | internal/ipc/protocol.go:10-61 | a body of 10,485,760 bytes is read and written, one more byte is refused |
| Framing.CutStream | internal/ipc/protocol.go:15-42 | a stream cut inside a frame gives the frames before the cut, then the matching error, then nothing |
| Framing.CutKinds | internal/ipc/protocol.go:15-44 | how a frame cut at any place reads |
| Framing.WritesReadBack | internal/ipc/protocol.go:44-61 | whatever was written reads back as the accepted bodies in order and then the end of the stream |
| Bits.OrBits | internal/priorities/calculator.go:16-88 | each bit of an Or is set if and only if it is set in either |
| Bits.AndBits | internal/priorities/calculator.go:16-88 | each bit of an And is set if and only if it is set in both |
| Bits.SetBitBits | internal/priorities/calculator.go:16-62 | setting a bit sets that bit and no other |
| Bits.LshBits | internal/priorities/calculator.go:36-88 | a left shift moves every bit up and brings in zeros |
| Bits.RshBits | internal/priorities/calculator.go:92-102 | a right shift moves every bit down |
| Priorities.CalculateTobPriority | internal/priorities/calculator.go:16-33 | the bit operations yield the number the key stands for |
| Priorities.CalculateOpportunityPriority | internal/priorities/calculator.go:41-57 | the bit operations yield the number the key stands for |
| Priorities.CalculateBackrunPriority | internal/priorities/calculator.go:65-88 | the bit operations yield the number the key stands for |
| Priorities.GroupBound | internal/priorities/calculator.go:91-102 | the backrun id is the top 126 bits of the hash |
| Priorities.OrderIsLexicographic | internal/priorities/calculator.go:16-108 | comparing two computed priorities is comparing marker, backrun id, opportunity marker and masked bid, in that order |
| Priorities.PriorityNumbers | internal/priorities/calculator.go:16-88 | the three priorities as numbers in powers of two |
| Priorities.TobOutranksBackruns | internal/priorities/calculator.go:16-88 | every top-of-block bid outranks every other priority |
| Priorities.GroupsDoNotInterleave | internal/priorities/calculator.go:35-88 | nothing of another group lies between two members of a group |
| Priorities.OpportunityLeadsGroup | internal/priorities/calculator.go:41-88 | the opportunity outranks every bid of its group |
| Priorities.ValueDeterminesKey | internal/priorities/calculator.go:16-88 | equal priorities come from equal keys |
| PriorityText.FormatParses | internal/priorities/calculator.go:128-164 | parsing a printed priority recovers marker, id and masked bid, for every number |
| PriorityText.PrintedForms | internal/priorities/calculator.go:128-164 | the printed forms, word for word, around the numbers they name |
| PriorityText.FormatAmbiguity | internal/priorities/calculator.go:128-164 | two numbers print alike if and only if their printed fields agree |
| PriorityText.ComputedPrioritiesPrintApart | internal/priorities/calculator.go:128-164 | computed priorities print alike if and only if they are equal |
| BidSort.SortBackrunBidsByPriority | internal/priorities/calculator.go:111-125 | the slice ends ordered by the comparator and holds the same bids |
| BidSort.LessIsStrictWeakOrder | internal/priorities/calculator.go:112-124 | the comparator is a strict weak order that ties only equal or equally missing bids |
| BidSort.OrderedMeansDescending | internal/priorities/calculator.go:111-125 | ordered means descending with missing bids last |
| BidSort.SortedBids | internal/priorities/calculator.go:111-125 | of two bids in sorted order, if the later has an amount so has the earlier, and it is no smaller |
| BidSort.OrderedMeansFallingPriority | internal/priorities/calculator.go:65-125 | for one target and bids below 2^128 the computed priorities along the slice never rise |
| BidSort.PriorityRisesExactly | internal/priorities/calculator.go:65-125 | for amounts of any size, the priority rises between two places of a sorted slice if and only if the low 128 bits of the amount do |
| BidSort.HugeBidSortsFirstRanksLast | internal/priorities/calculator.go:65-125 | a bid of 2^128 sorts before a bid of 1 and ranks below it |
| Metrics.Histogram.Record | internal/metrics/metrics.go:161-171 | one more observation lands in the one bucket it belongs to, in the count and in the sum |
| Metrics.Histogram.CumulativeBuckets | internal/metrics/metrics.go:175-188 | with no recording going on, every cumulative bucket but the last is the number of observations at most its bound, the last is the total, and the sum is the accumulated one |
| Metrics.SumShort | internal/metrics/metrics.go:162-178 | the accumulated sum of non-negative latencies falls short of the true one by less than a microsecond each |
| Metrics.CumulativeCounts | internal/metrics/metrics.go:192-222 | the same as a law of bucket sums, for both histograms |
| Metrics.ArrivalTable | internal/metrics/metrics.go:158-188 | what each exposed arrival bucket counts, bound by bound |
| Metrics.RoundTripTable | internal/metrics/metrics.go:191-222 | the same for round trips |
| Metrics.CountAtMostMonotone | internal/metrics/metrics.go:210-219 | cumulative counts never fall and never exceed the total |
| Metrics.BoundariesIncrease | internal/metrics/metrics.go:158-191 | both boundary tables are strictly increasing and end at 1000 and 500 ms |
| Metrics.RecordingInvariant | internal/metrics/metrics.go:161-171 | with the adds as separate steps of any number of goroutines, the count exceeds the bucket sum by exactly the goroutines between their two adds |
| Metrics.ReaderDrift | internal/metrics/metrics.go:175-188 | a reader that loads the count and then each bucket while others record is off by exactly the bucket adds it came in time to see less the recordings in flight when it loaded the count |
| Metrics.LastBucketAboveTotal | internal/metrics/metrics.go:175-188 | a schedule in which the last exposed bucket exceeds the exposed total |

## Left out

- HTTP health and metrics endpoints, the Prometheus collector, logging, flags, package-version queries and packaging: wiring without a hard property.
- System metrics: counters of a foreign library.
- Cancellation and shutdown: the machines model the running service; the reconnection protocol is stated for runs without cancellation.
- Liveness: which thread runs next is arbitrary, so the results are safety results.
- Counter width: counters are unbounded naturals; the conservation equations between them also hold modulo 2^64.
- Averages and the rounding of floating-point numbers: latencies are reals, and the conversion to microseconds is a parameter that rounds non-negative numbers down.
- Counters and timestamps that only one thread writes advance in one step with the section before or after them (the receive counters together, a client call with the counters that follow it, the expiry counter with the gauge store, a kind counter with the second gauge store): the other thread neither reads nor writes them.
- The default branch for an unknown event action: the decoder produces no such value.
- The node's decoder is not part of this repository: the reader proved here is a strict RLP reader of the layout, and the node may read a type byte before a list in its own way. The library's `DecodeRLP` of the envelope does not undo `EncodeRLP`.
- The flat layouts of pkg/types/serialization.go: not on the event path.
- `NewFilter`: it fills the fixed fields of `FilterConfig`; hex parsing and the ABI description belong to libraries.
- Error texts: a failure keeps its cause (short input, bad length, unreadable transaction, unknown variant, panic) and not its wording.
- BidSort.SortBackrunBidsByPriority: the library's sorting algorithm is not modelled beyond its contract; an insertion sort stands for it.
- Sidecar.Sidecar.StreamTransaction: the outcome of the client call is an input; the client's own steps are modelled in `Reconnect`.
- Rlp.EncodeRlp: the library's encodings of integers and strings are taken to be the Appendix B ones.
- Metrics.Histogram.Record: a histogram is its own object; the sidecar's state keeps the sequence of observations handed to it.
