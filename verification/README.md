# Verified model of the ingestion protocol

This project models how the Solana Yellowstone stream service ingests events without losing or double-counting
them, and proves properties of that model in Dafny. `dafny verify dfyconfig.toml` checks everything.

The service receives normalized events over a bounded channel and groups them into batches. Each batch has four
separate durable effects: the events table, the stream cursor, the slot rows, and the finalized watermark. It may stop
between any two of them. After a restart it resumes from what the cursor row says. The model follows this structure:

| file | what it models |
|---|---|
| `Base.dfy` | machine-integer ranges, SQL `GREATEST` and `COALESCE`, batches as sequences |
| `EventIdentity.dfy` | the six kinds of event identity, the escaped canonical key and the event id |
| `SlotChain.dfy` | finalized parent links; the greedy walk `advance` and the recursive SQL closure |
| `SlotTables.dfy` | merging and upserting slot updates, and the watermark statement |
| `Watermarks.dfy` | the watermark over whole deliveries, by the statement and by the in-memory reference store |
| `Storage.dfy` | the Postgres stores as one class over the events table, the cursor row and the slot table |
| `Pipeline.dfy` | the batcher, the four effects of a batch, `write_batch`, the receive loop |
| `Channel.dfy` | producer and receiver as a step system over the bounded channel |
| `CrashSafety.dfy` | every database state that any runs, crashes and restarts can reach |
| `Replay.dfy` | replay mode: resuming by slot, and full redelivery |
| `LiveRuns.dfy` | the watermark of the batches the pipeline executes, and when they complete |
| `SlotReports.dfy` | from events to slot rows and to the watermark of a chain of finalized slots |
| `Redelivery.dfy` | what redelivery after any crashes restores |
| `Reconnect.dfy` | the producer's reconnect loop and its jittered backoff |
| `ResumePoint.dfy` | the atomic cell that hands the watermark to the producer, beside the running pipeline |
| `Fanout.dfy` | one transaction fanned out into transaction and instruction events |
| `SwapInference.dfy` | token balance deltas and the two-legged swap inferred from them |

The main results are:

- **Identity.** Two identities have the same canonical key exactly when they are equal, so deduplicating by event id is
  deduplicating by identity.
- **Watermark.** For agreeing parent reports and finalized slots without forks, once some report was finalized, the stored
  watermark is that of one walk over everything delivered, however it was batched, ordered or repeated, exactly if no
  report since the last advance hangs a finalized slot under it; a report of a dead slot can. This holds of the batches the
  pipeline executes. On every map the greedy walk and the SQL closure agree exactly if the line down to the closure's
  highest row consists of least children. The walk always ends; the query ends exactly when its seed is not on a cycle.
  From an empty slot table the reports of a chain of finalized slots, in any order and any batches, take the watermark
  to its last slot.
- **Crash safety.** In every reachable state contiguous watermark <= finalized head <= persisted slot, every finalized
  row has its event in the table, nothing ever goes back, and the watermark is joined to the bootstrap slot by
  finalized parent links.
- **Delivery.** Every interleaving of producer and receiver is finite; what it has written follows from its outcome, and
  a successful one has written exactly the chunks of the accepted input. For one batch size with the watermark tracked,
  agreeing reports with dead and finalized slots apart, and some finalized report, a redelivery that completes after any
  crashes leaves the very database of one uninterrupted run. From any stored cursor, resuming a replay by slot leaves
  nothing out exactly when no slot still due straddles a batch boundary (for distinct new events): otherwise there is a
  crash after which an event is never stored.
- **Reconnecting.** An exact condition for the loop to go on, a bound on the number of attempts, an envelope for
  the delay, and resume points that never go back and never pass the stored watermark; and every watermark that a batch
  stores reaches all attempts after the next published summary.
- **Fan-out.** When conversion succeeds, where every event lands, and exactly when two of them share an identity.

## Where the code and its description differ

The model follows the code in each case.

- `crates/domain/src/decoded.rs:146` says that the absolute values of a swap must match; the code does not check it
  (`SwapInference.AmountsMayDiffer`).
- `docs/architecture.md` speaks of batches bounded by size or timeout; there is no timeout.
- `docs/live-recovery.md` describes a fallback from the contiguous watermark to the last persisted slot;
  `crates/app/src/app.rs:226` has no such fallback.
- `decode_slot` in `crates/app/src/app.rs:454-456` computes `encoded - 1` even when `encoded` is zero. In a build with
  overflow checks this panics, so a stream without a stored watermark never makes an attempt
  (`ResumePoint.DecodesWhatWasEncoded`, `ResumePoint.NoWatermarkNoAttempt`).
- `max_retries` equal to the largest 32-bit number is no limit, because the retry counter saturates there
  (`Reconnect.Limited`).
- Replay mode may lose events when a slot straddles a batch boundary (`Replay.StraddleLoses`).
- The watermark is advanced only after a batch with a finalized report, so a dead report that names the parent of a
  finalized slot can leave it behind until the next such batch (`LiveRuns.DeadOnlyBatchLeavesLag`, from an empty
  database).

## Model

| member | source | states |
|---|---|---|
| `EventIdentities.EscapeUnfold` | crates/domain/src/event.rs:402-407 | the three replacement passes escape each character on its own, whatever stands around it |
| `EventIdentities.EscapedIsSealed` | crates/domain/src/event.rs:402-407 | an escaped text has no unescaped bar and no dangling backslash |
| `EventIdentities.EscapeInjective` | crates/domain/src/event.rs:402-407 | different texts have different escaped forms |
| `EventIdentities.SealedPrefixUnique` | crates/domain/src/event.rs:206-274 | a field can be read off the front of a key in only one way |
| `EventIdentities.JoinBarsInjective` | crates/domain/src/event.rs:206-274 | keys joined from escaped fields are equal only if all fields are |
| `EventIdentities.FieldsSealed` | crates/domain/src/event.rs:206-274 | no field of any of the six variants contains an unescaped bar |
| `EventIdentities.FieldsInjective` | crates/domain/src/event.rs:206-274 | identities with the same fields are the same, across all six variants |
| `EventIdentities.CanonicalKeyInjective` | crates/domain/src/event.rs:206-274 | canonical keys are equal exactly when the identities are |
| `EventIdentities.KeyLayout` | crates/domain/src/event.rs:206-274 | the key is the text of the format string of its variant: version, kind, cluster, slot and the own fields by their names and in their order |
| `EventIdentities.DecimalReads` | crates/domain/src/event.rs:206-274 | the decimal text of a number, read as one, is that number, and has no leading zero |
| `EventIdentities.EventIdInjective` | crates/domain/src/event.rs:276-283 | with a collision-free digest, event ids are equal exactly when the identities are |
| `SlotChain.FinalizedMap.Insert` | crates/storage/src/slots.rs:310-319 | a report without a parent never erases a known parent |
| `SlotChain.FinalizedMap.MinFinalized` | crates/storage/src/slots.rs:325-327 | the least key, or nothing exactly for an empty map |
| `SlotChain.FinalizedMap.MaxFinalized` | crates/storage/src/slots.rs:329-331 | the greatest key, or nothing exactly for an empty map |
| `SlotChain.Advance` | crates/storage/src/slots.rs:344-369 | terminates on every map, cycles and self-parents included, and returns the greedy walk from the anchor or, without one, from the least slot, however the hash map is iterated |
| `SlotChain.WalkIsGreedyEnd` | crates/storage/src/slots.rs:357-368 | the result is the end of the one strictly rising path of least finalized children |
| `SlotChain.WalkNeverDrops` | crates/storage/src/slots.rs:357-368 | the result is not below the anchor, is joined to it by finalized links, and with parents below slots has no finalized child |
| `SlotChain.ChainQueryEndsIff` | crates/storage/src/slots.rs:182-189 | the recursive query produces an empty round exactly when its seed is not on a cycle |
| `SlotChain.RunChainQuery` | crates/storage/src/slots.rs:182-191 | evaluated round by round, the query never returns exactly on a cycle and otherwise yields the whole closure |
| `SlotChain.WalkBelowClosure` | crates/storage/src/slots.rs:176-193 | on every map the walk lies in the closure and is at most its maximum |
| `SlotChain.WalkIsClosureMax` | crates/storage/src/slots.rs:176-193 | with parents below slots and no forks the walk equals the closure's maximum |
| `SlotChain.WalkIsClosureMaxIff` | crates/storage/src/slots.rs:176-193 | on every map, forked or not, walk and closure give the same watermark exactly when the ancestor line of the closure's highest row down to the seed consists of least children |
| `SlotChain.ForkSeparatesWalkFromClosure` | crates/storage/src/slots.rs:359-365 | an example: where the lesser child of a fork is a dead end, the two forms give different watermarks |
| `SlotChain.WalkResumes` | crates/storage/src/slots.rs:344-369 | walking on from an earlier result over a grown map equals one walk from the original seed |
| `SlotTables.MergedUpsertIsFold` | crates/storage/src/slots.rs:100-137 | merging a batch and writing it in one statement equals writing its updates one by one |
| `SlotTables.RecordingIsHomomorphic` | crates/storage/src/slots.rs:96-146 | recording two batches as one equals recording them one after the other |
| `SlotTables.BatchStorableIff` | crates/storage/src/slots.rs:240-261 | a batch is refused exactly when a slot, or the last parent named for a slot, exceeds BIGINT |
| `SlotTables.RowAfter` | crates/storage/src/slots.rs:131-136 | what a row says after any agreeing updates: flags accumulate, parents stay known |
| `SlotTables.SetOfUpdatesDecides` | crates/storage/src/slots.rs:91-146 | agreeing updates give the same table in every order and with any repetitions |
| `SlotTables.AgreeingTablesExtend` | crates/storage/src/slots.rs:131-136 | agreeing updates only add finalized slots and parents |
| `SlotTables.PartIsAbsorbed` | crates/storage/src/slots.rs:131-136 | recording any part of the reports before all of them leaves no trace in the table, whether or not the reports agree |
| `Watermarks.Confluence` | crates/storage/src/slots.rs:91-229 | for any split into batches with a finalized report, advancing only after batches that hold one, the watermark is that of one walk over everything from the first seed, exactly if no report since the last advance hangs a finalized slot under it |
| `Watermarks.StaysRightIff` | crates/stream/src/pipeline.rs:487-503 | a right watermark stays right over any batches under the same exact condition |
| `Watermarks.ScheduleIndependent` | crates/storage/src/slots.rs:91-229 | from a stored watermark, with dead and finalized slots apart, two deliveries of the same set of updates end with the same watermark: one walk, or unchanged without a finalized report |
| `Watermarks.DeadOnlyBatchLags` | crates/stream/src/pipeline.rs:495 | a batch with only a dead report can leave the watermark behind one walk |
| `Watermarks.QueriesEnd` | crates/storage/src/slots.rs:176-193 | with agreeing parents below their slots the query returns at every advance, forks or not |
| `Watermarks.ReferenceRecordsFinalizedPart` | crates/stream/src/pipeline.rs:542-554 | the in-memory store keeps the finalized part of the table if no slot is reported both finalized and not |
| `Watermarks.ReferenceHoldsFinalizedPartIff` | crates/stream/src/pipeline.rs:542-554 | for agreeing reports it keeps it exactly if every finalized slot with a known parent has it from a finalized row or report |
| `Watermarks.ReferenceStoreAgrees` | crates/stream/src/pipeline.rs:533-580 | the in-memory store and the Postgres statements keep the same watermark over any batches |
| `Watermarks.DeadReportSeparatesStores` | crates/stream/src/pipeline.rs:542-554 | an example: a parent carried by a dead report reaches the table but not the in-memory store |
| `Storage.TableIsFirstWins` | crates/storage/src/postgres.rs:75-97 | the table is the old one completed by the first storable occurrence of everything new |
| `Storage.RedeliveryIsInvisible` | crates/storage/src/postgres.rs:91-97 | delivering a prefix again, before or after the whole, changes nothing |
| `Storage.TableGrows` | crates/storage/src/postgres.rs:91-97 | stored events are never changed or removed, and a batch adds at most its storable events |
| `Storage.DeliveredIsThere` | crates/storage/src/postgres.rs:43-108 | every storable event of a batch is in the table afterwards |
| `Storage.ScheduleInsertsGrowth` | crates/storage/src/postgres.rs:99-107 | for every schedule the inserted counts add up to the growth of the first-wins table of all deliveries |
| `Storage.EventTableByIdAgrees` | migrations/0001_init.sql:1-14 | a table unique by event id and one unique by identity hold the same events |
| `Storage.Database.WriteBatch` | crates/storage/src/postgres.rs:43-108 | on success the whole first-wins insert took place and the counts are exact; on failure all of it or nothing did |
| `Storage.Database.ExecuteInsert` | crates/storage/src/postgres.rs:75-97 | the statement inserts first occurrences and reports exactly the number of new rows, also for duplicates inside it |
| `Storage.Database.GetCursor` | crates/storage/src/cursor.rs:40-62 | the stored slot, nothing without a row, an error exactly for failed queries or slots outside u64, naming the slot |
| `Storage.Database.UpdateAfterBatch` | crates/storage/src/cursor.rs:64-94 | refuses slots beyond BIGINT without effect; otherwise the row becomes the monotone upsert, even if the reply is lost |
| `Storage.Database.RecordSlotStates` | crates/storage/src/slots.rs:91-146 | the table becomes the fold of all updates, or stays as it was; an out-of-range slot leaves it unchanged |
| `Storage.Database.GetFinalizedFrontier` | crates/storage/src/slots.rs:148-168 | both frontier slots as stored, or none without a row; an error only for a failed query or a slot outside u64 |
| `Storage.Database.AdvanceContiguousFinalized` | crates/storage/src/slots.rs:170-229 | watermark and head of the closure, merged monotonically into the row, and returned |
| `Pipeline.SlotStatesAreReports` | crates/stream/src/slot_state.rs:5-22 | an update is among those of a batch exactly if one of its events reports a slot finalized or dead, and the update has that slot, just that flag, and the parent of the payload |
| `Pipeline.MaxSlotBounds` | crates/stream/src/pipeline.rs:453 | the cursor slot of a batch is the largest slot of all its events, stored or not |
| `Pipeline.ChunksFlatten` | crates/stream/src/batcher.rs:19-35 | the chunks of a sequence, put together, are the sequence |
| `Pipeline.ChunksSplit` | crates/stream/src/batcher.rs:19-35 | full pieces in front of anything are its first chunks |
| `Pipeline.Batcher.Push` | crates/stream/src/batcher.rs:19-27 | hands over all pending events and the new one, in order, exactly when the capacity is reached |
| `Pipeline.Batcher.Flush` | crates/stream/src/batcher.rs:29-35 | hands over what is pending, or nothing exactly when nothing is |
| `Pipeline.CollectSlotStates` | crates/stream/src/pipeline.rs:487-495 | the updates of a batch in order, just those that its finalized and dead reports tell, and whether one of them is finalized |
| `Pipeline.StoreAndMove` | crates/stream/src/pipeline.rs:453-485 | events first, then the cursor; success implies that no event of the batch was skipped |
| `Pipeline.RecordAndAdvance` | crates/stream/src/pipeline.rs:487-503 | slot rows first, then the watermark, and that only if some slot became finalized |
| `Pipeline.WriteBatch` | crates/stream/src/pipeline.rs:439-508 | whatever fails, the database is left after some prefix of the four effects, on success after all of them, with exact counts and the stored frontier in the summary |
| `Pipeline.Receive` | crates/stream/src/pipeline.rs:372-400 | one turn of the loop keeps batches, pending events, database and counters in step with the input seen |
| `Pipeline.RunReceiver` | crates/stream/src/pipeline.rs:348-417 | a successful run executes exactly the chunks of the accepted events; a failed one stops inside one of them; the summary published after the first k batches accounts for every event seen, shows the greatest of the resume slot and the slots in these batches and, exactly once one of them has asked for the watermark, the frontier stored after them |
| `Pipeline.BatchMovesPersisted` | crates/stream/src/pipeline.rs:475-485 | a complete batch raises the persisted slot to its largest slot, and the watermark upsert leaves it alone |
| `Pipeline.ExecRaisesPersisted` | crates/storage/src/cursor.rs:75-86 | whole batches raise the persisted slot to the greatest of what it was and all their slots |
| `Pipeline.ExecKeepsFrontier` | crates/stream/src/pipeline.rs:495 | without tracking, or without a finalized report, a run leaves watermark and head alone |
| `Pipeline.CutTables` | crates/stream/src/pipeline.rs:453-503 | what a crash leaves in the tables: events of every batch begun, slot rows of every batch that got that far |
| `Pipeline.ExecMeansStorable` | crates/stream/src/pipeline.rs:453-485 | executed batches held no event that the writer passed over, because the cursor update would have failed |
| `Pipeline.FinalizedMeansPrefixPersisted` | crates/stream/src/pipeline.rs:372-503 | with slot resume off, once a slot is recorded as finalized, everything received before its report is in the events table, without exception |
| `Channel.RunKeepsInv` | crates/stream/src/pipeline.rs:365-428 | in every state of every interleaving, with failures, batches written, in flight and still to come are the chunks of what was sent |
| `Channel.NothingLost` | crates/stream/src/pipeline.rs:365-428 | written, in-flight, pending and accepted undelivered events make up the accepted input, in order, with channel and pending within their bounds |
| `Channel.OutcomeTellsWhatIsWritten` | crates/stream/src/pipeline.rs:285-296 | success: the chunks of the whole input are written; producer error: still the chunks of everything sent; pipeline error: a proper prefix of them |
| `Channel.WhichOutcome` | crates/stream/src/pipeline.rs:285-296 | a pipeline error exactly if a write has failed, whatever the producer did; otherwise, once the receiver is done, success or a producer error exactly as the producer ended |
| `Channel.NeverStuck` | crates/stream/src/pipeline.rs:270-296 | with room in the channel a run whose receiver is at work can always take a step, and a finished one cannot |
| `Channel.MaximalRunsHaveOutcome` | crates/stream/src/pipeline.rs:270-296 | every interleaving is finite, and one that cannot go on has an outcome |
| `CrashSafety.EveryReachableStateIsSafe` | crates/stream/src/pipeline.rs:453-503 | over any runs, crashes and restarts: watermark <= head <= persisted slot, the watermark is a finalized row, finalized rows have their events, the frontier decodes |
| `CrashSafety.CursorsOnlyGrow` | crates/storage/src/slots.rs:205-213 | persisted slot, watermark and head never go back; events and finalized rows never vanish |
| `CrashSafety.NewWatermark` | crates/storage/src/slots.rs:174-198 | there is a watermark exactly if there is a finalized row, and it is such a row joined to the seed |
| `CrashSafety.WatermarkIsJoinedToBoot` | crates/storage/src/slots.rs:174-223 | if parents are reported consistently, finalized parent links lead from the watermark to the bootstrap slot in every reachable state |
| `Replay.RunReplay` | crates/app/src/app.rs:44-76 | reads the cursor and runs the receiver with it; on success the run completes the fixture, on failure it stopped inside it; slot rows are left alone |
| `Replay.AcceptedOfAccepted` | crates/stream/src/pipeline.rs:430-436 | a run that skips all that an earlier one skipped accepts what is left of the earlier one's events |
| `Replay.ResumesAtBoundary` | crates/stream/src/pipeline.rs:430-436 | from any stored cursor, where no slot due straddles a boundary, a resumed replay writes exactly the remaining batches |
| `Replay.ResumeIsComplete` | crates/app/src/app.rs:56-76 | from any stored cursor, in that case any number of crashes and restarts ends with the table of one uninterrupted run |
| `Replay.StraddleLoses` | crates/stream/src/pipeline.rs:453-485 | from any stored cursor, a slot due that straddles a boundary is lost if the run stops right after the cursor has passed it |
| `Replay.ResumeLosesNothingIff` | crates/stream/src/pipeline.rs:430-485 | from any stored cursor, for distinct new events, resuming by slot is lossless exactly when no slot due straddles a boundary |
| `Replay.RisingSlotsSeparate` | crates/stream/src/pipeline.rs:430-436 | strictly rising slots never straddle a boundary, for any batch size |
| `Replay.RedeliveryIsComplete` | crates/stream/src/pipeline.rs:430-485 | with slot resume off, full redelivery after any crashes, with any configurations and batch sizes, restores the events table and the slot table of one run |
| `LiveRuns.ExecFollowsTables` | crates/stream/src/pipeline.rs:453-503 | executed batches leave the slot table and the watermark that their reports alone determine |
| `LiveRuns.RunStaysRightIff` | crates/stream/src/pipeline.rs:487-503 | executing any batches, a right watermark ends up as one walk over everything recorded exactly if no report since the last advance hangs a finalized slot under it |
| `LiveRuns.RunStaysRight` | crates/stream/src/pipeline.rs:487-503 | with dead and finalized slots apart, executed batches never leave the watermark behind |
| `LiveRuns.RunCatchesUp` | crates/stream/src/pipeline.rs:487-503 | from any state, executed batches with a finalized report end with the watermark of one walk from the first seed |
| `LiveRuns.DeadOnlyBatchLeavesLag` | crates/stream/src/pipeline.rs:487-503 | from an empty database, two finalized slots without parents and then a batch with only a dead report leave the watermark behind |
| `LiveRuns.RunCompletesIff` | crates/stream/src/pipeline.rs:453-503 | with agreeing parents below their slots, batches complete exactly if their slots and last named parents fit BIGINT; every query returns |
| `SlotReports.RunRecordsReports` | crates/stream/src/slot_state.rs:5-22 | any run leaves a row for just the slots that some event reports finalized or dead, or that had one; the flags say which of the two was reported; the parent is the last one named, or the old one if none is |
| `SlotReports.ChainEndsAtLast` | crates/stream/src/pipeline.rs:487-503 | finalized reports that each name the one before as parent, in any order, repeated and batched in any way, among any other events, take watermark and head from an empty slot table to the last slot |
| `Redelivery.RedeliveryRestoresWatermark` | crates/stream/src/pipeline.rs:453-503 | after any crashes under any configurations, one complete redelivery with a finalized report ends with the watermark of one walk over all finalized rows, from the watermark stored at the start or else from a finalized row to which it is joined |
| `Redelivery.WatermarkIsThatOfOneRun` | crates/stream/src/pipeline.rs:487-503 | with one batch size and the watermark tracked, after any crashes the watermark is that of one uninterrupted run, whether or not one was stored at the start |
| `Redelivery.RedeliveryIsOneRun` | crates/stream/src/pipeline.rs:453-503 | under the same conditions the whole database is that of one uninterrupted run: events, slot rows, persisted slot, watermark and head |
| `Reconnect.Normalized` | crates/stream/src/yellowstone_live.rs:42-56 | the initial delay is positive and at most the maximum; a configuration that is already so stays as it is |
| `Reconnect.RunReconnectLoop` | crates/stream/src/yellowstone_live.rs:321-385 | every failure before the end is reported: one that outlasted the grace period with count zero and the initial delay, any other with the count before it plus one, within the limit, after two to three times the delay; the last attempt has decided the end; with nothing but quick failures there are exactly N + 1 attempts |
| `Reconnect.CountFailure` | crates/stream/src/yellowstone_live.rs:346-361 | the limit is exceeded exactly if a failure that did not outlast the grace period would count beyond it |
| `Reconnect.RetryableErrors` | crates/stream/src/yellowstone_live.rs:493-508 | just connect errors, closed streams, and refusals with any status code other than the three named ones are worth a retry |
| `Reconnect.LoopGoesOnIff` | crates/stream/src/yellowstone_live.rs:338-370 | the loop goes on exactly while every attempt fails retryably and no run of quick failures exceeds the limit |
| `Reconnect.AttemptsAreBounded` | crates/stream/src/yellowstone_live.rs:346-361 | with N retries and L failures that lasted until the reset, at most (L+1)(N+1) attempts |
| `Reconnect.BackoffEnvelope` | crates/stream/src/yellowstone_live.rs:346-391 | after k quick failures the delay lies between min(max, initial*2^k) and min(max, initial*3^k), for every jitter, and never below initial |
| `Reconnect.JitterReachesBothEnds` | crates/stream/src/yellowstone_live.rs:387-391 | one backoff doubles the delay without jitter, and triples it with all of it, up to the maximum |
| `Reconnect.NoJitterDoubles` | crates/stream/src/yellowstone_live.rs:387-391 | without jitter the delay is the lower end of that envelope |
| `Reconnect.DelayNeverShrinks` | crates/stream/src/yellowstone_live.rs:346-361 | between two resets the delay never shrinks |
| `Reconnect.EndedStays` | crates/stream/src/yellowstone_live.rs:341-343 | after the deciding attempt no other one matters |
| `ResumePoint.DecodesWhatWasEncoded` | crates/app/src/app.rs:449-456 | exactly which slots survive the round trip through the cell, and exactly when decoding panics |
| `ResumePoint.ResumeCell.OnProgress` | crates/app/src/app.rs:360-366 | a summary with new batches and a watermark puts just that watermark into the cell; no other summary changes it; the number of batches seen is kept |
| `ResumePoint.ResumeCell.ConfigureAttempt` | crates/app/src/app.rs:323-326 | an attempt resumes from what the cell holds, or panics exactly for an empty cell under overflow checks |
| `ResumePoint.ResumePointsNeverGoBack` | crates/app/src/app.rs:239-366 | over all interleavings and restarts, resume points never decrease or vanish, never pass the stored watermark, and are finalized slots |
| `ResumePoint.NoWatermarkNoAttempt` | crates/app/src/app.rs:454-456 | with overflow checks, over any runs, a stream without a stored watermark has never made an attempt |
| `ResumePoint.AttemptFollowsProgress` | crates/app/src/app.rs:323-366 | an attempt right after a summary with new batches and a watermark resumes from that watermark |
| `ResumePoint.WatermarkReachesAttempts` | crates/app/src/app.rs:323-366 | over all interleavings, stops and restarts: once a batch has stored a watermark and then a summary was published or the stream started up again, every attempt resumes from that watermark or a higher one |
| `Fanout.NormalizeProtoInstructions` | crates/stream/src/yellowstone.rs:408-452 | outer instructions, then inner groups in order, stopping at the first error |
| `Fanout.FirstErrorWins` | crates/stream/src/yellowstone.rs:430-449 | the error is that of the first instruction or group that fails |
| `Fanout.InstructionsOkIff` | crates/stream/src/yellowstone.rs:408-452 | conversion succeeds exactly when all positions fit 16 bits and all program indexes name a non-blank key |
| `Fanout.InstructionsFanOut` | crates/stream/src/yellowstone.rs:428-451 | every instruction's event is at its place, with its position, its own payload, and as its program the key of its index: a static one, else a loaded writable one, else a loaded read-only one |
| `Fanout.KeysInOrder` | crates/stream/src/yellowstone.rs:548-580 | an index stands for a static key, else for a loaded writable one, else for a loaded read-only one, else for none |
| `Fanout.WhichError` | crates/stream/src/yellowstone.rs:430-449 | which error an instruction or a group fails with: its own position, its inner position, an index beyond all keys with their number, or a blank program; and that nothing else fails |
| `Fanout.SpacesListed` | crates/domain/src/event.rs:388-393 | trimming removes just the 25 white space characters of Unicode |
| `Fanout.NormalizeProtoTransaction` | crates/stream/src/yellowstone.rs:359-398 | exactly when the transaction converts: every index stands for a key that is not blank, and positions fit 16 bits; then 1 + outer + inner events with their programs and payloads, sharing slot, signature and transaction index; which error otherwise |
| `Fanout.IdentitiesDistinctIff` | crates/stream/src/yellowstone.rs:454-483 | all identities differ exactly when no two groups of the same index run the same program at the same inner position |
| `Fanout.OneGroupPerInstructionIsEnough` | crates/stream/src/yellowstone.rs:437-449 | with distinct group indices all identities, canonical keys and event ids of a transaction differ |
| `SwapInference.ExtractTokenBalanceDeltas` | crates/domain/src/decoded.rs:96-138 | all rows in order, or the complaint about the first row without an amount, `pre` before `post` |
| `SwapInference.OnlyNonZeroDeltasMatter` | crates/domain/src/decoded.rs:150-195 | the outcome, errors included, depends only on how often each non-zero delta occurs |
| `SwapInference.OrderAndZerosDoNotMatter` | crates/domain/src/decoded.rs:156-195 | reordering deltas or inserting zero deltas anywhere changes nothing |
| `SwapInference.CleanPairDecides` | crates/domain/src/decoded.rs:167-195 | the giver's mint and amount go in and the taker's come out, in whichever order the two stand |
| `SwapInference.SwapIffCleanPair` | crates/domain/src/decoded.rs:158-182 | a swap is inferred exactly from two opposite non-zero deltas in different mints |
| `SwapInference.NotTwoChanges` | crates/domain/src/decoded.rs:158-162 | the complaint about the number of changes comes exactly if other than two deltas are non-zero, and gives their number |
| `SwapInference.TwoChanges` | crates/domain/src/decoded.rs:167-182 | with exactly two non-zero deltas: same direction, same mint, or a swap, each exactly in its case |
| `SwapInference.DeltaIsDifference` | crates/domain/src/decoded.rs:20-22 | what an account gives away counts as positive; beyond 64 bits the difference is taken modulo 2^64 |
| `SwapInference.AmountsMayDiffer` | crates/domain/src/decoded.rs:146 | the two amounts need not match: any two positive ones make a swap |
| `SwapInference.BalancesAreExact` | crates/domain/src/decoded.rs:20-22 | for balances that are not negative no subtraction overflows and both amounts are the plain differences within i64 |

## Left out

- gRPC client, TLS, tokens, HTTP routes, metrics, telemetry, command line and configuration parsing: plumbing; of the configuration only the positive batch size and channel capacity are kept.
- SHA-256 and hexadecimal: one abstract digest function, assumed collision-free where a lemma says so.
- The events table is a map keyed by identity, which `Storage.EventTableByIdAgrees` justifies; columns derived from the identity are not repeated.
- JSON: a payload is its `parent` number and an opaque text; balance rows are records of optional fields.
- Base58: signatures and account keys are texts that are empty exactly for empty bytes.
- Account, block, entry and slot updates of the provider, and the size limits of an SQL statement: one event or one row each, without structure across them.
- `StreamCursor` is reduced to the slot it carries; its in-memory `advance_to` (crates/storage/src/cursor.rs:20-22), which no run calls, is not modelled.
- Only one stream's cursor row and slot table are modelled; other streams appear as insertions into the shared events table.
- Storage.Database.AdvanceContiguousFinalized: the query and the upsert are one step, because only one process advances a stream and a stop between them has no effect; a query on a cycle, which would not return, is the error `NeverReturns`.
- The recursive query keeps duplicate rows; the model keeps the set of rows, which has the same maximum because every slot has one parent.
- Watermarks.Confluence: assumes that parent reports agree, parents lie below their slots and no two finalized slots share a parent; provider behaviour beyond that, and forks, are documented non-guarantees.
- Replay.ResumeIsComplete: the batch size is a constant of the configuration and stays the same over the restarts; a stored slot outside u64 is refused before a run begins.
- Pipeline.RunReceiver: batch write durations and the per-event activity callback are left out, and counters are unbounded.
- Reconnect.RunReconnectLoop: the world is a script of attempts, each with its outcome, duration and jitter draw; sleeping and log output are left out, and status codes other than the three that matter are one.
- ResumePoint.ResumePointsNeverGoBack: loads and stores of the cell are atomic steps in one order; there is one cell, so relaxed ordering adds nothing.
- SwapInference.BalancesAreExact: outside its assumption the subtraction wraps around; with overflow checks it would panic.
- The status updates of the live producer, which borrow and then send a snapshot: not atomic across tasks, so no whole-run count holds of them.
