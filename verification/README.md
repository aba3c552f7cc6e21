# A verified model of the M3U stream merger proxy

This project models the core of the proxy and proves properties of the model with Dafny. It covers:

- **The shared stream buffer.** One writer and many readers share a ring of chunks whose byte buffers are swapped and
  pooled. `Broadcast.dfy` says what the ring means: a log of all writes since the last clear. `Coordinator.dfy` is the
  ring as a class on the heap; each method is one region under the lock, proved against the log, with the ownership of
  every buffer. `BroadcastRuns.dfy` interleaves these regions in every order and proves what clients can rely on.
- **The life of a writer.** `WriterLife.dfy` has the setup gate, the start and the exit of writers, and the channels
  they close, as a protocol over all interleavings.
- **Slots and sources.** `Slots.dfy` counts the uses of each source. `SourceWalk.dfy` and `Sorts.dfy` walk the sources
  under priorities that change meanwhile. `Failover.dfy` feeds failures back over the turns of one request.
- **HLS and the pump.** `HlsWindow.dfy` follows a sliding live window (RFC 8216, sections 4.3.3.2 and 6.2.2),
  `HlsParsers.dfy` compares the two readers of master playlists (RFC 8216, section 4.3.4.2), `Pump.dfy` hands on the
  bytes of a response, and `MediaWriter.dfy` puts pump, ring and readers together.
- **The playlist pipeline.** `M3uEntries.dfy` prints and reads playlists. `Shards.dfy` is the buffered, sharded map that
  spills to disk, for any kind of entry; `Merging.dfy` says what streams of one title merge to, and `Sorting.dfy`
  compiles them into a sorted list. `MergeRules.dfy` follows channel merge rules and `ChannelMergeMap.dfy` flattens
  them in the desktop application. `GroupExpansion.dfy` expands grouped channels.

`Text.dfy` has the string operations the program uses, `BufferPool.dfy` the pool, `Streams.dfy` the stream record.

Concurrency is modelled as steps, one per region under a lock or per atomic operation, taken in any order. What the
program gets from outside is a parameter: hashes, Unicode case mapping, URL resolution, clocks, the answers of servers
and of the configuration. A timeout or a cancellation is a step that may happen at any time. Where a promised property
does not hold for all inputs, the exact condition is proved, as an equivalence, beside an input that violates it.

## Model

| member | source | states |
|---|---|---|
| `BufferPools.BufferPool.Get` | proxy/stream/buffer/coordinator.go:37-45 | a buffer comes from the pool or is new, is empty, and is lent to nobody else |
| `BufferPools.BufferPool.Put` | proxy/stream/buffer/coordinator.go:47-57 | a buffer goes back only when it is lent, so never twice |
| `BufferPools.ChunkData.Reset` | proxy/stream/buffer/coordinator.go:47-57 | the chunk gives its buffer back and holds another one that nobody else has; data, error, status and times are cleared |
| `BufferPools.ChunkData.SwapFrom` | proxy/stream/buffer/coordinator.go:305-322 | the two chunks have exchanged buffers; the cell has the content and the sequence number of the write |
| `Broadcast.Core.FirstVisible` | proxy/stream/buffer/coordinator.go:346-420 | which write a read that starts at a cell begins with, as a bound on write numbers: at or after the last clear |
| `Broadcast.WriteKeepsStep` | proxy/stream/buffer/coordinator.go:309-322 | the writer's cell stays the write count modulo the ring size |
| `Broadcast.WriteHitsHead` | proxy/stream/buffer/coordinator.go:309-322 | how far every cell is from the writer changes by one step of the ring with a write |
| `Broadcast.DistanceIsLapRemainder` | proxy/stream/buffer/coordinator.go:375-418 | the cells between a reader that stood on the writer at count r and the writer at count w number (w - r) mod n |
| `Broadcast.RingAfterWrite` | proxy/stream/buffer/coordinator.go:309-322 | after a write the cells still hold the last n writes since the last clear, each with its number |
| `Broadcast.RingAfterClear` | proxy/stream/buffer/coordinator.go:423-434 | after a clear every cell is empty, which is what the log of writes then promises |
| `Broadcast.SlotHoldsLastWrite` | proxy/stream/buffer/coordinator.go:309-322 | a cell holds the last write to it, for any number of laps |
| `Broadcast.PassCell` | proxy/stream/buffer/coordinator.go:381-412 | passing one cell adds exactly its write to what a read has gathered; wiped cells add nothing |
| `Broadcast.DataKeepsEveryByte` | proxy/stream/buffer/coordinator.go:381-397 | skipping chunks without data loses no byte |
| `Broadcast.ErrorIsSeenIff` | proxy/stream/buffer/coordinator.go:445-459 | after an error exactly the readers that do not stand on the cell after it find it, as the last error; a reader there is a whole lap behind and finds nothing |
| `Coordinator.StreamCoordinator.constructor` | proxy/stream/buffer/coordinator.go:119-144 | a fresh ring: every cell owns one buffer of the pool |
| `Coordinator.StreamCoordinator.SwapIn` | proxy/stream/buffer/coordinator.go:305-337 | the caller's chunk is logged as the next write, buffers are exchanged, every buffer keeps exactly one owner |
| `Coordinator.StreamCoordinator.WriteChunk` | proxy/stream/buffer/coordinator.go:285-343 | a write succeeds exactly in the active state; either way the chunk comes back empty with a buffer that is nobody else's |
| `Coordinator.StreamCoordinator.Write` | proxy/stream/buffer/coordinator.go:285-343 | the same for a chunk that may be missing |
| `Coordinator.StreamCoordinator.ResetCell` | proxy/stream/buffer/coordinator.go:423-434 | one cell is emptied; no other cell and no caller loses or shares a buffer |
| `Coordinator.StreamCoordinator.ClearBuffer` | proxy/stream/buffer/coordinator.go:423-434 | every cell is empty, the log is cleared, all ownership is kept, callers keep their buffers |
| `Coordinator.StreamCoordinator.WriteError` | proxy/stream/buffer/coordinator.go:445-459 | in the active state the log gets one more write, which carries exactly the error; in any other it stays as it was; either way the state is closed and clients and clears are untouched |
| `Coordinator.StreamCoordinator.RegisterClient` | proxy/stream/buffer/coordinator.go:218-241 | one client more; a stopped stream is active again exactly if nobody was registered; the log of writes is untouched |
| `Coordinator.StreamCoordinator.UnregisterClient` | proxy/stream/buffer/coordinator.go:244-261 | one client less; when it was the last, the stream drains and everything written is wiped; otherwise nothing changes |
| `Coordinator.StreamCoordinator.BeginRead` | proxy/stream/buffer/coordinator.go:346-362 | a reader whose cell is stale by the staleness test is moved to the writer's cell |
| `Coordinator.StreamCoordinator.ReadCell` | proxy/stream/buffer/coordinator.go:381-412 | what a read has gathered after one more cell is exactly the log up to that cell, on buffers that are not shared |
| `Coordinator.StreamCoordinator.TryRead` | proxy/stream/buffer/coordinator.go:375-420 | a read hands out copies of what the log shows from its cell on, and the last error among it; no copy shares a buffer with the ring, the pool or another copy |
| `BroadcastRuns.StepKeepsInv` | proxy/stream/buffer/coordinator.go:285-434 | every step of writer, clients and clears keeps the invariant that ties readers to the log |
| `BroadcastRuns.RunKeepsInv` | proxy/stream/buffer/coordinator.go:285-434 | so every reachable state has it |
| `BroadcastRuns.VisibleIsNew` | proxy/stream/buffer/coordinator.go:375-418 | what a read shows lies strictly after everything its reader has had |
| `BroadcastRuns.DeliveredInOrder` | proxy/stream/buffer/coordinator.go:346-434 | for any interleaving, laps and clears, the write numbers delivered to one client are strictly increasing |
| `BroadcastRuns.ReadGetsLapRemainder` | proxy/stream/buffer/coordinator.go:375-434 | one read delivers nothing from before the last clear, and otherwise exactly the last (w - r) mod n writes |
| `BroadcastRuns.ReaderStaysIff` | proxy/stream/buffer/coordinator.go:352-362 | the staleness test moves a reader exactly if its cell was wiped and there have been more than n writes; laps alone never do |
| `BroadcastRuns.AnchorStays` | proxy/stream/buffer/coordinator.go:346-420 | between two reads without a clear a reader keeps its place, for any number of laps |
| `BroadcastRuns.ReadsAnyLapsApart` | proxy/stream/buffer/coordinator.go:346-434 | two reads of a client without a clear between them, at write counts r and w: the second hands out exactly the last (w - r) mod n writes, whatever lies between |
| `BroadcastRuns.NothingMissedWithinALap` | proxy/stream/buffer/coordinator.go:285-420 | so if fewer than n writes separate them, the second returns exactly those writes in order |
| `BroadcastRuns.StepIsGaplessIff` | proxy/stream/buffer/coordinator.go:346-420 | one step hands a client no more than what becomes due to it, and exactly that if and only if the client is not lapped, not moved past anything, and nothing it has not had was wiped |
| `BroadcastRuns.DeliveredWithoutGapsIff` | proxy/stream/media_stream.go:132-184 | over a whole run, from when the client came: it is handed every write not wiped before it came, each once and in order, exactly if it keeps up at all its reads |
| `BroadcastRuns.StarterIsMovedIff` | proxy/stream/media_stream.go:132-178 | the client that starts the writer, a cell back after the clear: beginning its first read within a lap it is moved past what was written since exactly if there have ever been more than n writes |
| `BroadcastRuns.StarterLosesFirstChunk` | proxy/stream/media_stream.go:132-178 | a run in which that client loses the first chunk written after it came |
| `BroadcastRuns.ErrorIsLast` | proxy/stream/buffer/coordinator.go:218-241 | after an error nothing is written until a client revives the stream |
| `BroadcastRuns.ReadShowsItsBytes` | proxy/stream/buffer/coordinator.go:375-420 | the bytes of one read are those of the writes that it delivers |
| `BroadcastRuns.AllDataThenError` | proxy/stream/buffer/coordinator.go:285-420 | over a whole run of reads a client that keeps up is handed all bytes written before an error, in order, and the first read after it reports the error |
| `BroadcastRuns.WritesOnlyGrow` | proxy/stream/buffer/coordinator.go:285-343 | the history of writes only grows |
| `WriterLife.SetupGate.TryStartWriterSetup` | proxy/stream/buffer/coordinator.go:161-172 | claims the gate exactly when nobody has it and there is no writer and no result, with a new open channel; closes nothing |
| `WriterLife.SetupGate.WaitForWriterSetup` | proxy/stream/buffer/coordinator.go:176-192 | a waiter gets the gate's open channel, or none when the gate is free |
| `WriterLife.SetupGate.FinishWriterSetup` | proxy/stream/buffer/coordinator.go:196-209 | the gate is free and has no channel; the one it had, and no other, is closed |
| `WriterLife.SetupGate.NotifySubscribers` | proxy/stream/buffer/coordinator.go:112-117 | the current broadcast channel is closed and another one, which is open, takes its place; no other channel is closed |
| `WriterLife.StepKeepsActive` | proxy/stream/media_stream.go:117-154 | WriterActive changes only together with the one writer's life |
| `WriterLife.StepKeepsInv` | proxy/stream/media_stream.go:116-182 | every step of clients and writers keeps the protocol's invariant |
| `WriterLife.SingleWriter` | proxy/stream/media_stream.go:117-154 | in every interleaving at most one writer is live, and who holds the lock sees WriterActive exactly then |
| `WriterLife.NoDoubleClose` | proxy/stream/buffer/coordinator_m3u8.go:283-290 | no run closes the header channel, the broadcast channel or the gate's channel twice; busy means that the gate's channel is there and open; every waiter has the open channel or a closed one |
| `WriterLife.ClaimsAreSeparated` | proxy/stream/buffer/coordinator.go:161-209 | between two successful claims of the gate some release took effect |
| `WriterLife.ClosedForGood` | proxy/stream/buffer/coordinator.go:176-209 | a closed channel stays closed, so its waiters can go on |
| `WriterLife.NoWriterNoHindrance` | proxy/stream/media_stream.go:117-154 | in every run, when no writer is there its result is withdrawn and WriterActive is low, so the gate can be claimed exactly if it is free |
| `WriterLife.LeavingFrees` | proxy/stream/media_stream.go:133-146 | once a writer has left, the gate can be claimed and no client waits for an open channel |
| `Slots.ConcurrencyManager.GetMaxConcurrency` | store/concurrency.go:25-34 | the first answer for a source is kept |
| `Slots.ConcurrencyManager.GetConcurrencyStatus` | store/concurrency.go:36-43 | count, limit and priority of a source as they are |
| `Slots.ConcurrencyManager.UpdateConcurrency` | store/concurrency.go:61-93 | a slot is granted exactly below the limit as a 32-bit number and counts one more; a release counts one less, down to zero; no other source is touched |
| `Slots.SlotsAreConserved` | proxy/stream/stream_instance.go:118-132 | in every interleaving the count of a source is the number of its holders, so the clamp at zero never hides a release |
| `Slots.CountStaysWithinLimits` | store/concurrency.go:61-93 | the count stays within the largest limit that some lookup found |
| `Slots.CountStaysWithinCache` | store/concurrency.go:61-93 | with an unchanging limit that fits int32 the count never exceeds the cached limit |
| `Slots.FreeSourceAdmits` | store/concurrency.go:61-93 | a free source admits a caller exactly if its limit is positive after the cut to 32 bits |
| `Slots.HugeLimitAdmitsNobody` | store/concurrency.go:61-93 | counterexample: a limit of 2^31 admits nobody |
| `Slots.CacheBoundsCountIff` | store/concurrency.go:25-93 | the count stays within the cached limit in every run exactly if lookups of the source find no two different limits |
| `Slots.AnyTwoLimitsRace` | store/concurrency.go:25-34 | any two limits have a run in which two first lookups race and the cached limit ends below the count |
| `Slots.RacingLookupsCanLowerTheCache` | store/concurrency.go:25-34 | for instance the limits 1 and 2 |
| `SourceWalk.LessSourceIndexLaws` | proxy/loadbalancer/instance.go:340-354 | the order of source indexes is irreflexive, asymmetric and transitive, also in its incomparability |
| `SourceWalk.BetterIsStrictWeakOrder` | proxy/loadbalancer/instance.go:284-299 | priority, then source index, is a strict weak order |
| `SourceWalk.AppendDiscoveryIndexes` | proxy/loadbalancer/instance.go:356-393 | exactly the configured and the discovered indexes that the stream has, each once |
| `SourceWalk.CandidatesAreDistinct` | proxy/loadbalancer/instance.go:257-282 | the candidates of one call are distinct, and none only if there are no indexes |
| `SourceWalk.CandidatesAre` | proxy/loadbalancer/instance.go:257-282 | a source is a candidate exactly if it has URLs, or none has, and it is not excluded, or all such sources are |
| `SourceWalk.BestPickIs` | proxy/loadbalancer/instance.go:284-299 | no source left has more free slots than the one picked; among those with as many, numbers come first and by value, then names in string order |
| `SourceWalk.PickNext` | proxy/loadbalancer/instance.go:284-313 | the pick is a candidate not tried yet, and best among those by (priority, index) if the priorities hold still meanwhile |
| `SourceWalk.WalkCandidates` | proxy/loadbalancer/instance.go:282-338 | however priorities change, the walk ends, picks each candidate at most once, and reports no available streams only after picking every one |
| `SourceWalk.TryAllStreams` | proxy/loadbalancer/instance.go:252-338 | a whole call, from the configured indexes, repeated or not, with its early ends: it reports no available streams only after picking every source that has URLs and is not excluded, or every one with URLs if all are excluded, or every one at all if none has URLs; and it picks no others |
| `Sorts.SortSlice` | proxy/loadbalancer/instance.go:284-299 | the result is a permutation even if the comparison changes while sorting; it is sorted if the comparison holds still and is a strict weak order |
| `Failover.HandleExitCode` | handlers/stream_http.go:291-318 | the codes that go on are exactly the four failures, and these are the ones that penalise |
| `Failover.HandleStreamWithoutSharedBuffer` | handlers/stream_http.go:193-277 | while the request goes on, the sources to avoid are those of the failing streams since the load balancer last had none; it ends in a bad gateway at a failed selection with no such stream before it, and with the first stream that ends otherwise or the client's leaving |
| `Failover.RunIs` | handlers/stream_http.go:193-277 | which sources every run of rounds has marked, as a function of the rounds |
| `Failover.AvoidedOnlyWhenAllAre` | proxy/loadbalancer/instance.go:263-282 | a selected source that should be avoided means that all usable ones should |
| `Failover.EachSourceOnceBeforeAnyTwice` | handlers/stream_http.go:193-277 | told by the rounds: of the failing streams since the last clear the first k, where k sources are usable, are of k distinct sources |
| `Failover.TwoFailuresEnd` | handlers/stream_http.go:205-240 | two load-balancer failures in a row end the request |
| `Pump.TakeTurn` | proxy/stream/buffer/coordinator.go:485-598 | one turn of the loop: what it hands on, how the empty reads count, how it ends, and the reason for each end |
| `Pump.ReadAndWriteStream` | proxy/stream/buffer/coordinator.go:461-600 | what is handed on is what was read without failure, in order; it is everything read exactly if no read returned data together with an error other than the end of file |
| `Pump.WhyItEnds` | proxy/stream/buffer/coordinator.go:485-598 | what the last turn must have met for each way to end: a failed read that is not tried again, a failed chunk, the end of the file or the eleventh empty read in a row, and so on |
| `Pump.DataWithAnErrorIsDropped` | proxy/stream/buffer/coordinator.go:579-586 | counterexample: data that comes with an error is not handed on, even if the read is tried again |
| `Pump.ElevenEmptyReadsCutTheBody` | proxy/stream/buffer/coordinator.go:537-541 | counterexample: eleven empty reads end a body before its data |
| `Pump.RanBefore` | proxy/stream/buffer/coordinator.go:537-559 | while the pump runs there are never more than ten empty reads in a row |
| `Pump.HealthyBodyIsFinishedIff` | proxy/stream/buffer/coordinator.go:537-577 | a body without failures is pumped to its end exactly if it never has more than ten empty reads in a row before the end |
| `MediaWriter.ChunksAreSound` | proxy/stream/buffer/coordinator_media.go:43-51 | the chunks a media writer makes hold exactly the bytes the pump hands on, and no error |
| `MediaWriter.BodyReachesReader` | proxy/stream/buffer/coordinator_media.go:43-63 | pump, ring and readers together: a body of any length read without failures reaches every client that keeps up, in however many reads, byte by byte in order, and then the end of the file is reported |
| `HlsWindow.ProcessSegments` | proxy/stream/buffer/coordinator_m3u8.go:247-261 | the segments sent are those before the first failing download, all of them if none fails |
| `HlsWindow.StartHLSWriter` | proxy/stream/buffer/coordinator_m3u8.go:76-218 | told by the refreshes: the loop is over exactly from the first one that ends it (a stop, a master that leads nowhere, a third empty playlist, an end marker, a cancelled download of new segments); until then it remembers the highest complete window since the last master; and it has emitted, refresh by refresh, what arrived of what was new |
| `HlsWindow.RunIs` | proxy/stream/buffer/coordinator_m3u8.go:76-218 | the same for every run as a state machine |
| `HlsWindow.HighestIsMaximum` | proxy/stream/buffer/coordinator_m3u8.go:202-217 | what is remembered is the greatest media sequence of the windows downloaded completely since the last master; broken downloads do not count |
| `HlsWindow.BrokenWindowsAreMadeUp` | proxy/stream/buffer/coordinator_m3u8.go:202-217 | after any broken or stale refreshes the next complete window emits everything from where the last complete one left off |
| `HlsWindow.BrokenWindowEmitsItsPart` | proxy/stream/buffer/coordinator_m3u8.go:202-217 | a broken download emits the part before the break, and the run goes on from where it was |
| `HlsWindow.ThirdEmptyEnds` | proxy/stream/buffer/coordinator_m3u8.go:182-192 | among empty and unreadable playlists exactly the third empty one ends the run; nothing is emitted |
| `HlsWindow.EndMarkerEmitsAll` | proxy/stream/buffer/coordinator_m3u8.go:194-201 | an end marker emits the whole playlist, segments emitted before included, and ends the run |
| `HlsWindow.MasterStartsAgain` | proxy/stream/buffer/coordinator_m3u8.go:152-180 | after a master playlist the next window starts two segments from its live edge |
| `HlsWindow.NewSegmentsAre` | proxy/stream/buffer/coordinator_m3u8.go:221-245 | the choice of segments in media sequence numbers |
| `HlsWindow.AtEdge` | proxy/stream/buffer/coordinator_m3u8.go:202-215 | after live refreshes the last number emitted is the end of the last window taken over |
| `HlsWindow.NoReplayIffKeepsUp` | proxy/stream/buffer/coordinator_m3u8.go:202-245 | numbers emitted over any run of live refreshes, unreadable and stale ones among them, of any window lengths, are strictly increasing exactly if no accepted refresh is shorter, in jump and in length, than the window before it |
| `HlsWindow.ConstantWindow` | proxy/stream/buffer/coordinator_m3u8.go:202-245 | with windows of constant length nothing is replayed, emission starts at most two segments from the live edge, and a gap appears only where the media sequence jumped by more than the length, and is the excess |
| `HlsWindow.ShrinkingWindowReplays` | proxy/stream/buffer/coordinator_m3u8.go:221-245 | counterexample: a shrinking window makes the writer replay a segment |
| `HlsParsers.ParsePlaylist` | proxy/stream/buffer/coordinator_m3u8.go:308-366 | the variants, segments, end marker and media sequence that the lines describe |
| `HlsParsers.FirstMasterVariant` | proxy/stream/failovers/m3u8.go:155-202 | what the passthrough's scan answers |
| `HlsParsers.WriterSkipsBadUris` | proxy/stream/buffer/coordinator_m3u8.go:340-352 | the writer goes on to the first variant URI that parses |
| `HlsParsers.ReadersAgreeIffFirstVariantParses` | proxy/stream/buffer/coordinator_m3u8.go:152-179 | both readers agree on whether a playlist is a master; they agree on the next URL and on the refusals exactly if there is no variant URI or the first one parses; the writer refuses where no URI parses, and otherwise follows the first that does |
| `HlsParsers.BadFirstVariantParts` | proxy/stream/buffer/coordinator_m3u8.go:340-352 | counterexample: if the first variant URI does not parse the passthrough gives up and the writer follows the second |
| `Shards.SortingManager.constructor` | sourceproc/sorting.go:35-53 | an empty manager stands for an empty plain map |
| `Shards.SortingManager.HandleExisting` | sourceproc/sorting.go:110-131 | a known title is merged where it is stored, in memory or on disk |
| `Shards.SortingManager.FlushShard` | sourceproc/sorting.go:133-160 | the buffer is merged into the file and is empty afterwards |
| `Shards.SortingManager.JoinBuffer` | sourceproc/sorting.go:142-153 | the file's entries with those of the buffer merged in, in any order |
| `Shards.Shard.AddKeeps` | sourceproc/sorting.go:60-100 | an addition keeps a shard's index the disjoint union of memory and disk and its buffer below 250 entries, and changes no other title |
| `Shards.Shard.FlushKeeps` | sourceproc/sorting.go:133-160 | a flush changes no entry beyond what files do not keep |
| `Shards.GrewRepresents` | sourceproc/sorting.go:55-103 | shards that stand for a plain map still do after one more addition |
| `Shards.SortingManager.AddToSorter` | sourceproc/sorting.go:55-103 | for any hash, the shards stand for the plain map of all arrivals merged in order |
| `Shards.SortingManager.Spill` | sourceproc/sorting.go:200-212 | with everything flushed the files together hold what files keep of the plain map |
| `Shards.SortingManager.GetSortedEntries` | sourceproc/sorting.go:200-277 | every title comes out once, as the plain map has it if every merge settled; sorted if the comparison is a strict weak order |
| `Shards.FlushedRepresents` | sourceproc/sorting.go:200-212 | flushing all shards leaves what stands for the plain map |
| `Shards.AllInFiles` | sourceproc/sorting.go:214-238 | the files together list exactly the titles of the plain map |
| `Shards.FoldIs` | sourceproc/sorting.go:55-103 | the plain map has each title exactly if an entry of it arrived, as those entries merged in order |
| `Merging.MergedFields` | sourceproc/sorting.go:279-358 | what streams merge to: title, id, number, type and group are each the first that is not empty; the source and its index are the least pair; for every source the id is the one last recorded for it; there is a logo exactly if some stream has one |
| `Merging.MergedLogo` | sourceproc/sorting.go:295-301 | the logo is the first that was not found automatically, or else the first |
| `Merging.RecordedIs` | sourceproc/sorting.go:333-358 | of streams as the reader makes them, the id recorded for a source is the last one it gave, unless it borrows the id of the title |
| `Merging.OwnIdIff` | sourceproc/sorting.go:333-358 | the recorded id is one that the source itself gave exactly if it does not borrow, or borrows the same id |
| `Merging.SourceGetsAnothersId` | sourceproc/sorting.go:333-358 | counterexample: a source without an id is recorded with that of the other source |
| `Merging.SpillingMattersIffLogoReplaced` | sourceproc/sorting.go:279-331 | spilling a stream before a merge changes what is kept exactly if the merge would have replaced an automatic logo by another one |
| `Merging.SpilledLogoStays` | sourceproc/sorting.go:279-331 | counterexample: a logo replaces an automatic one in memory, but not one that has been to a file |
| `Sorting.StreamsAreLawful` | sourceproc/sorting.go:279-331 | streams merge in a way that spilling respects |
| `Sorting.BeforeMeans` | sourceproc/sorting.go:240-268 | what the comparison puts in order, by every key and in both directions: numbers by value, other texts in string order, group, type and title in lower case |
| `Sorting.SanitizedIs` | sourceproc/sorting.go:360-381 | a sanitized title has no blanks, its marks are underscores, it has at most 100 characters; white space around it makes no difference |
| `Sorting.SettledWithoutAutoIcons` | sourceproc/sorting.go:279-331 | with automatic icons off every merge settles |
| `Sorting.OrderedIffAllCut` | sourceproc/sorting.go:240-268 | by every sorting key and in both directions the comparison is a strict weak order exactly if every text that is no number, and is less than a number as a text, is less than all numbers that are no smaller |
| `Sorting.ComparableAreOrdered` | sourceproc/sorting.go:240-268 | so streams are ordered as long as numbers do not meet other texts |
| `Sorting.NumbersAmongTextsAreNoOrder` | sourceproc/sorting.go:383-397 | counterexample: "9", "10" and "1a" are a cycle, as "1a" does not cut the numbers |
| `Sorting.MergeStreams` | sourceproc/sorting.go:200-277 | a whole compilation: for any arrivals, hash and spilling each sanitized title comes out once, with the first non-empty texts of its arrivals, the least source and the ids last recorded, and with the logo of MergedLogo if every merge settles, as it does with icons off; sorted by the key's field in the given direction under the condition of OrderedIffAllCut |
| `MergeRules.ParseChannelMergeRules` | sourceproc/filter.go:409-436 | each key has the target of the last valid rule for it, and no other key is there |
| `MergeRules.RuleIs` | sourceproc/filter.go:415-432 | a rule reads as the source before the first bar and the target after it, unless one is blank or they are equal up to case; a text without a bar is none |
| `MergeRules.ApplyChannelMergeRule` | sourceproc/filter.go:438-468 | ends for every rule map, cyclic ones included, where the walk through the rules not yet met ends |
| `MergeRules.ApplyStopsFirst` | sourceproc/filter.go:438-468 | the result is where following the rules from the collapsed title first stops: at a title without a rule or at a key met before |
| `MergeRules.ApplyIsIdempotent` | sourceproc/filter.go:438-468 | applying the rules to a result changes nothing, for every title and every rule map |
| `MergeRules.ResultHasNoRuleIffChainEnds` | sourceproc/filter.go:438-490 | the result's key has no rule exactly if the chain from the title runs into no cycle; for a blank title exactly if no rule has the empty key |
| `MergeRules.CycleLeavesARule` | sourceproc/filter.go:447-466 | counterexample: on a cycle of two the result is the title itself, which has a rule |
| `MergeRules.BlankTitleKeepsItsRule` | sourceproc/filter.go:438-443 | counterexample: the rule !!!|X has the key of blank titles, which are left alone |
| `MergeRules.Graph.WalkTwice` | sourceproc/filter.go:447-466 | a walk through a possibly cyclic graph, repeated from its result, stays there |
| `MergeRules.Graph.WalkComesBack` | sourceproc/filter.go:447-466 | a walk that starts on a cycle ends where it started |
| `ChannelMergeMap.Normalize` | windows-app/gui_app.py:2387-2418 | the merge map becomes the flat map of its own chains |
| `ChannelMergeMap.Flatten` | windows-app/gui_app.py:2400-2416 | every source leads to the end of its chain; chains that run into a cycle are dropped |
| `ChannelMergeMap.ResolveChannelName` | windows-app/gui_app.py:2420-2439 | a channel resolves to the end of its chain |
| `ChannelMergeMap.ResolvesWhereEdgesStop` | windows-app/gui_app.py:2420-2439 | a loaded channel resolves to the loaded name of the key where its edges first stop |
| `ChannelMergeMap.ByKeyIsLast` | windows-app/gui_app.py:2387-2399 | of loaded channels with one key the last one is its name |
| `ChannelMergeMap.TargetsAreNoSources` | windows-app/gui_app.py:2387-2418 | after normalisation no target is a source |
| `ChannelMergeMap.FlatteningKeepsMeaningIff` | windows-app/gui_app.py:2387-2439 | a loaded channel resolves to the same channel as before exactly if its chain ends or comes back to the channel itself |
| `ChannelMergeMap.TailOfACycleIsLost` | windows-app/gui_app.py:2400-2439 | counterexample: a merged into b, and b and c into each other: a resolved to b, and after flattening to itself |
| `M3uEntries.AttrAt` | sourceproc/parser.go:19-22 | a match of the attribute pattern has a key of key characters and a value without quotes |
| `M3uEntries.AttrAtIsPrefix` | sourceproc/parser.go:19-22 | and is what the text starts with |
| `M3uEntries.AttrAtFindsIt` | sourceproc/parser.go:19-22 | a printed attribute is found as it is: the match at a position is unique |
| `M3uEntries.ReadAttributes` | sourceproc/parser.go:53-76 | the loop over attributes: each field has the last value of its names, and the line is stripped of all attributes |
| `M3uEntries.LastIs` | sourceproc/parser.go:53-76 | of several attributes for one field the last one counts |
| `M3uEntries.AliasesAreRead` | sourceproc/parser.go:53-76 | channel-id and channel-number are read as the number, group-title as the group, in any case of letters |
| `M3uEntries.LineIsRead` | sourceproc/parser.go:77-84 | whatever attributes a line has, its title is what follows the comma after them |
| `M3uEntries.ParseLine` | sourceproc/parser.go:25-96 | a line and the one after it give the stream that its attributes, its title, the merge rules and the icons say: last values, a title that is never blank, an icon exactly where there is no logo, the source and its recorded id |
| `M3uEntries.HandleDownloaded` | sourceproc/processor.go:341-359 | the line scanner gives, in order, a stream for each line that is no comment and no announcement and has an announcement before it with only comments between |
| `M3uEntries.PendingIs` | sourceproc/processor.go:341-359 | the announcement that counts for a line is the last one, if only comments came after it |
| `M3uEntries.TagsAreFound` | sourceproc/parser.go:149-189 | scanning a printed line finds exactly the printed attributes |
| `M3uEntries.TagsAreStripped` | sourceproc/parser.go:75-76 | stripping them leaves the line without them, although each is replaced where its text first occurs |
| `M3uEntries.EntryIsRead` | sourceproc/parser.go:25-189 | a printed entry is parsed as the stream it shows |
| `M3uEntries.PrintedIsScanned` | sourceproc/processor.go:341-359 | printed entries are scanned one by one, whatever announcement is left over before them |
| `M3uEntries.RoundTrip` | sourceproc/parser.go:149-189 | a printed playlist, read back, gives exactly the streams whose URL does not look like a comment, in order and with all fields |
| `M3uEntries.RoundTripIsWholeIff` | sourceproc/parser.go:149-189 | it comes back whole, with the same titles, ids, numbers, types, groups and URLs, exactly if no URL looks like a comment |
| `M3uEntries.CommentUrlIsLost` | sourceproc/processor.go:341-359 | counterexample: a URL that starts with a hash sign |
| `Text.CollapseTwice` | sourceproc/filter.go:440-440 | collapsing white space twice is collapsing it once |
| `Text.TrimCutsSpaces` | sourceproc/filter.go:440-440 | trimming cuts nothing but white space, at the ends |
| `GroupExpansion.MultiEntryGroups` | sourceproc/epg_groups.go:271-281 | a key has the last group of several entries with that canonical title |
| `GroupExpansion.Clones` | sourceproc/epg_groups.go:305-315 | one row per group entry whose source the stream has, in entry order, with that entry's number and title, exactly that source's URLs and one shared tvg-id |
| `GroupExpansion.CloneIs` | sourceproc/epg_groups.go:226-264 | what a row is, field by field; rows of different sources have different ids of their own |
| `GroupExpansion.ApplyGroupTvgID` | sourceproc/epg_groups.go:338-358 | a stream gets the id resolved for the first group of several entries that it matches, if there is one, and keeps its own otherwise |
| `GroupExpansion.ExpandStreamsForCompile` | sourceproc/epg_groups.go:266-328 | the output is, stream by stream and in order, what each has to become: itself if it is not grouped or has no row, else its rows, and nothing for a repeated grouped title; each with the tvg-id resolved against the streams as they are at that point of the loop |
| `GroupExpansion.NothingIsLostIff` | sourceproc/epg_groups.go:297-301 | no stream is lost exactly if no two streams have the same grouped title |
| `GroupExpansion.NothingIsLostOfSorted` | sourceproc/sorting.go:360-381 | streams that differ in the sorter's key differ in the key of groups, so of what the sorter lists nothing is lost |
| `GroupExpansion.RepeatedTitleIsLost` | sourceproc/epg_groups.go:297-301 | counterexample: of two streams with one grouped title the second has no row |
| `GroupExpansion.UnnamedSourceIsLost` | sourceproc/epg_groups.go:305-315 | counterexample: a source that the group does not name |
| `GroupExpansion.UrlsAreKeptIff` | sourceproc/epg_groups.go:251-264 | the rows of a grouped stream keep all its URLs exactly if the group names every source that has any |

## Left out

- Ring size 0, and overflow of the 64-bit write counter.
- Liveness of waiting readers: a notification can fall between the last test of a read and its subscription (coordinator.go:365-373), so only safety is claimed.
- The field `LastError` as a fallback for errors: it starts as a typed nil (coordinator.go:139), so its nil test (coordinator.go:327) never succeeds; errors travel through the ring.
- Timeouts, throughput windows, back-off and polling intervals, beyond the fact that they may end a turn.
- HTTP, DNS, compression, file locking, logging, the crawler, and the window toolkit.
- WriterLife.SingleWriter: clients that register while a writer drains, and the revival this causes, are steps of BroadcastRuns only.
- Slots.SlotsAreConserved: the three call sites are not modelled as code; that each of them acquires once and, if that succeeds, releases once by a deferred call is built into the steps.
- Health checks of single URLs within one source: `attempt` says how a source turns out.
- Failover.EachSourceOnceBeforeAnyTwice: the sources of the stream are fixed during the request; the variant of the handler with a shared buffer is not modelled; it keeps and clears the same list of sources to avoid, but may join a source that another client selected, whether that is on its list or not.
- Go's sort.Slice on long slices: Sorts.SortSlice is its insertion sort, which it uses for short ones; what is proved of it holds for any sort of which the comparison may change.
- HlsWindow.ConstantWindow: it is about playlists without end markers whose downloads succeed; what the code does otherwise is in HlsWindow.RunIs and the lemmas after it.
- Sorting.MergeStreams: where a merge replaces an automatic logo, the logo stored depends on whether the shard was spilled before (Merging.SpillingMattersIffLogoReplaced); all other fields, and whether there is a logo, are the same in any case.
- Target duration and version of a playlist, and the byte ranges and keys of segments.
- Shards.SortingManager.AddToSorter: reading and writing shard files succeeds; two workers do not reach one shard at the same time, which the map's Compute rules out.
- The URL maps of streams in the sorter, which files do not keep, and the source URL following the source of a merged stream.
- Keys of recorded source metadata are trimmed when recorded, so merging does not trim them again.
- Filters of titles and groups, the title substring filter, sources that are discovered playlists, relative URLs of local sources beyond the parameter `locate`, grouping of categories by source, and the files that index URLs.
- M3uEntries.RoundTrip: values are trimmed, on one line and without quotes; the playlist format has no way to write others. Lines longer than the scanner's one megabyte are not modelled.
- GroupExpansion.ExpandStreamsForCompile: how a group's tvg-id is chosen and which other streams it applies to are parameters, and so is which URL of a source comes first, since the code takes it from a map in random order.
- GroupExpansion.NothingIsLostOfSorted: Unicode's lower case is assumed to leave the ten characters alone that the sorter replaces, and to give no others of them.
- MediaWriter.BodyReachesReader: that nobody else writes to the ring or stops it meanwhile is a premise; for writes it is what WriterLife.SingleWriter gives.
- Loading groups and rules from the environment, and the JSON they are written in.
