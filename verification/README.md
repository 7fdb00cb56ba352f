# Verified models of the agent toolkit's stateful cores

These modules model the parts of the toolkit whose correctness depends on state and order, and prove
what they promise for every input, every run or every interleaving. Where the program changes state in
place, the model is a class or a method with loops, proved equal to a function; the promises are then
proved about the functions, and for concurrent parts about a transition system over them.

- **Record cache** (`RecordCache.dfy`, `CacheCoherence.dfy`, `CacheHistory.dfy`, `CacheService.dfy`). The provider's bounded
  LRU with read leases, write and clear barriers and handle generations. `RecordCache.dfy` has the
  classes and the functions on a heap-free snapshot that their methods compute: the snapshot of a cache,
  `View`, changes only through the handle a method is called on. `CacheCoherence.dfy` is the system of cache and database, where reads, writes, clears and collection drops are split at every
  await. `CacheHistory.dfy` adds time: staleness under foreign writers, and the LRU order.
  `CacheService.dfy` has the other direction: that what is read is served. PostgreSQL and
  HANA have the same text; it is modelled once. A filtered delete on PostgreSQL is a write whose
  barrier is settled after its last statement.
- **Usage recorder** (`UsageSpec.dfy`, `LossEvidence.dfy`, `RecorderRuns.dfy`, `RecorderClock.dfy`,
  `RecorderPlaces.dfy`, `ClockLimits.dfy`, `UsageRecorder.dfy`, `EndToEnd.dfy`). The queue, the single sender, retries and expiry, and the loss
  counters. Each stretch between two awaits is one step, the transport's outcome is free, and the n-th
  reading of the clock is `clock(n)`, so readings within one call may differ. `hung` marks a state in
  which the eviction loop was entered and never ends. A transport failure that says "not possibly
  delivered" means its attempt stored nothing; `Delivery.dfy` proves that of the sinks and transports,
  and `EndToEnd.dfy` joins recorder, transport, sink and reader.
- **Sinks and transports** (`Delivery.dfy`, `JsonlLog.dfy`). The memory sink, combined sinks, direct and
  HTTP sending, and the append-only file with rotation and crash recovery.
- **Catalog races** (`CatalogRace.dfy`, `QdrantRace.dfy`). Any number of processes create or adopt one collection; each
  statement may fail, lose its reply or take effect late. PostgreSQL and HANA share one protocol, Qdrant has another.
- **Paging, filtered delete, over-fetch query** (`Paging.dfy`) against their unpaged meaning.
- **Tool trace** (`ToolTrace.dfy`), **signal bus** (`SignalBus.dfy`), **canonical argument key**
  (`CanonicalKey.dfy`), **external results** (`ExternalResults.dfy`).

Four facts that a reader of the code may not expect came out of the proofs:

- The eviction loop of the loss counters ends if and only if the counters span at most
  `maxLossCounters` window starts (`LossEvidence.EvictionEnds`). One call reads the clock several times, so
  the loop can run forever even if the clock never goes back; with such a clock it always ends if and only
  if `maxLossCounters` is at least 2 (`ClockLimits.HangsOnlyWithOneCounter`). With a clock that goes back no
  `maxLossCounters` is enough (`ClockLimits.AnyRoomMayHang`).
- Loss record ids are unique when the clock never goes back, or when each step reads one time
  (`RecorderClock.LossIdsUnique`). Under every clock they are unique if and only if `maxLossCounters` is 1
  (`ClockLimits.IdsUniqueOnlyWithOneCounter`): with more room, a clock that goes back within one pass over
  the counters can make two loss records of one id (`ClockLimits.IdUsedTwice`).
- A create or adopt call on PostgreSQL or HANA succeeds if and only if its insert ran while no record was
  stored and the reply arrived (`CatalogRace.OutcomeIffSeen`). A lost reply leaves a recorded collection and no
  successful call (`CatalogRace.NoneCreatedAfterLostReply`), which the create protocol allows.
- Normalising a trace that a collector made may change its texts: they are sanitised again, and a
  redaction that was cut short is redacted anew. Nothing else changes (`ToolTrace.NormalizeIsStable`).

`dafny verify dfyconfig.toml` checks everything.

## Model

| member | source | states |
|---|---|---|
| `CacheCoherence.HitIsCurrent` | packages/pg-vector-rag/src/record-cache.ts:162-199 | after any interleaving of reads, writes, clears, collection drops and their database statements through one cache, whatever the clock does, a hit equals the database's current record |
| `CacheCoherence.RunsKeep` | packages/pg-vector-rag/src/record-cache.ts:138-236 | inductive invariant of all runs: entries and valid fetched leases are live and current, barrier counters equal the operations in flight, generations are in order; without the coherence half it holds under foreign writers too |
| `CacheCoherence.CoreKeeps` | packages/pg-vector-rag/src/record-cache.ts:52-77 | each single step, whichever it is, keeps the structure, and coherence unless a foreign writer steps |
| `CacheCoherence.NoHitBehindBarrier` | packages/pg-vector-rag/src/record-cache.ts:162-170 | while a write, clear or drop of an id is in flight no handle of the store, of any generation, answers for it |
| `CacheCoherence.BarrierUp` | packages/pg-vector-rag/src/record-cache.ts:207-231 | the barrier of an operation in flight stays up whoever else begins or settles meanwhile |
| `CacheCoherence.ApplyKeeps` | packages/pg-vector-rag/src/pg-vector-rag.ts:518-523 | a database statement between begin and settle changes only rows that nobody may serve |
| `CacheCoherence.ForeignMakesStale` | packages/pg-vector-rag/src/pg-vector-rag.ts:518-523 | a corollary for a statement no barrier covers, of another writer or one that commits after its call was settled: what the cache answers is then stale if and only if the statement is on that store and leaves there another row, or none, for the id |
| `CacheCoherence.WriteBegunEffect` | packages/pg-vector-rag/src/record-cache.ts:207-214 | beginning a write raises each id's counter by its occurrences and purges entries and leases of these ids; entries and leases of all other ids stay, as do readers and the clear counter |
| `CacheCoherence.WriteSettledEffect` | packages/pg-vector-rag/src/record-cache.ts:215-222 | settling lowers each counter by the same amount, removing it at zero, and purges these ids again while everything of other ids stays |
| `CacheCoherence.SettledLevels` | packages/pg-vector-rag/src/record-cache.ts:215-231 | settling an operation in flight takes away exactly the barriers it put up |
| `CacheCoherence.RetiredForGood` | packages/pg-vector-rag/src/record-cache.ts:232-235 | a retired handle stays retired in every later state |
| `CacheCoherence.RetiredNeverServes` | packages/pg-vector-rag/src/record-cache.ts:162-199 | a retired handle never hits and never admits again |
| `CacheCoherence.OneGeneration` | packages/pg-vector-rag/src/record-cache.ts:52-74 | at most one handle of a store is not retired, and while a deletion is pending, overlapping ones included, there is none |
| `CacheHistory.HitIsRecent` | packages/pg-vector-rag/src/record-cache.ts:96-121 | with foreign writers at any point and a clock that does not go back, a hit was the database's value at a moment later than now minus the time to live |
| `CacheHistory.EvictsLeastRecentlyUsed` | packages/pg-vector-rag/src/record-cache.ts:123-131 | after any run, what an admission evicts was last used before everything that stays |
| `CacheHistory.EntryOrigin` | packages/pg-vector-rag/src/record-cache.ts:108-122 | a new entry comes only from an admitted read: it is the record the read fetched, dated by the lease |
| `CacheHistory.RunsStayOrdered` | packages/pg-vector-rag/src/record-cache.ts:104-105 | the list is in order of last use in every reachable state |
| `CacheService.ReadIsServed` | packages/pg-vector-rag/src/record-cache.ts:171-199 | after any run: a read begun through an open handle and ended while nothing purged its id meanwhile, by an enabled cache that takes the record, is what a lookup through that handle answers until the time to live after the read began |
| `CacheService.UninterruptedReadIsServed` | packages/pg-vector-rag/src/record-cache.ts:171-199 | in any reachable state: a read of a record of the database that is begun, fetched and ended at once through an open handle is answered with that record by the next lookup |
| `CacheService.OpenExactly` | packages/pg-vector-rag/src/record-cache.ts:162-178 | in every reachable state a handle answers for an id and admits its reads if and only if it is not retired and no write of the id and no clear of the store is in flight |
| `CacheService.StoreServes` | packages/pg-vector-rag/src/record-cache.ts:52-77 | the handle that store() gives out is in service if and only if no drop of the store is in flight, so it is renewed after the last drop is settled |
| `CacheService.StoreReopened` | packages/pg-vector-rag/src/record-cache.ts:52-77 | in any reachable state deleteStore takes the store's handle out of service, and store() then gives out one that is in service unless a drop is in flight |
| `CacheService.DisabledNeverAnswers` | packages/pg-vector-rag/src/record-cache.ts:40-40 | a cache that is switched off holds no entry and never answers, in every reachable state |
| `CacheService.NothingLeftBehind` | packages/pg-vector-rag/src/record-cache.ts:187-231 | once no operation and no read is in flight, no reader, barrier or pending deletion is left of any store |
| `RecordCaching.WithoutKeeps` | packages/pg-vector-rag/src/record-cache.ts:85-95 | drop keeps exactly the entries it does not select |
| `RecordCaching.EvictionIsMinimal` | packages/pg-vector-rag/src/record-cache.ts:124-131 | eviction removes the shortest prefix after which both bounds hold |
| `RecordCaching.PutKeepsBounds` | packages/pg-vector-rag/src/record-cache.ts:108-135 | after an admission both bounds hold, keys are distinct, the admitted entry is there and last, the others were there before |
| `RecordCaching.GotKeepsDistinct` | packages/pg-vector-rag/src/record-cache.ts:96-107 | a lookup loses nothing on a hit and adds nothing ever |
| `RecordCaching.GotBytes` | packages/pg-vector-rag/src/record-cache.ts:104-105 | a hit leaves number and total size of the entries as they were |
| `RecordCaching.RecordCache.Drop` | packages/pg-vector-rag/src/record-cache.ts:85-95 | the loop computes the specification in place and keeps the byte count equal to the sum of the entries |
| `RecordCaching.RecordCache.Get` | packages/pg-vector-rag/src/record-cache.ts:96-107 | lookup through one handle: another generation's entry is a miss, an expired one is dropped, a hit moves to the end |
| `RecordCaching.RecordCache.Put` | packages/pg-vector-rag/src/record-cache.ts:108-135 | when the cache is enabled, the time to live since the read began has not passed and the record is JSON and not too large, the record is last with its expiry at start plus time to live; otherwise nothing changes |
| `RecordCaching.RecordCache.Evict` | packages/pg-vector-rag/src/record-cache.ts:124-131 | the loop drops oldest entries until both bounds hold; it ends and keeps the byte count |
| `RecordCaching.RecordCache.Store` | packages/pg-vector-rag/src/record-cache.ts:52-63 | the handle for an identity: the whole cache becomes `Opened` of what it was, a new generation over the same coordination when the old one is retired and no deletion is pending; no two stores share a coordination |
| `RecordCaching.RecordCache.BeginDeleteStore` | packages/pg-vector-rag/src/record-cache.ts:64-67 | the whole cache, all handles included: the current handle is retired and the deletion counted |
| `RecordCaching.RecordCache.SettleDeleteStore` | packages/pg-vector-rag/src/record-cache.ts:68-73 | retires again and counts down, removing the count at zero |
| `RecordCaching.RecordCache.DeleteStore` | packages/pg-vector-rag/src/record-cache.ts:75-77 | retires the store's handle if there is one |
| `RecordCaching.StoreCache.Get` | packages/pg-vector-rag/src/record-cache.ts:162-170 | refused when retired, clearing or being written |
| `RecordCaching.StoreCache.BeginRead` | packages/pg-vector-rag/src/record-cache.ts:171-186 | a lease that is valid exactly when the id is open, registered under its id |
| `RecordCaching.StoreCache.EndRead` | packages/pg-vector-rag/src/record-cache.ts:187-199 | unregisters the lease and admits only through a valid lease on an open id |
| `RecordCaching.StoreCache.Invalidate` | packages/pg-vector-rag/src/record-cache.ts:200-206 | drops the entries and clears the flags of the reads in progress, of one id or all |
| `RecordCaching.StoreCache.BeginWrite` | packages/pg-vector-rag/src/record-cache.ts:207-214 | the loop over the ids, in place |
| `RecordCaching.StoreCache.SettleWrite` | packages/pg-vector-rag/src/record-cache.ts:215-222 | the closure of a write, in place |
| `RecordCaching.StoreCache.BeginClear` | packages/pg-vector-rag/src/record-cache.ts:224-226 | purges everything and raises the clear counter |
| `RecordCaching.StoreCache.SettleClear` | packages/pg-vector-rag/src/record-cache.ts:227-230 | purges again and lowers it |
| `RecordCaching.StoreCache.Retire` | packages/pg-vector-rag/src/record-cache.ts:232-235 | sets the flag and purges |
| `RecorderRuns.EveryCallAccountedFor` | packages/llm-usage/src/recorder.ts:104-270 | for every clock, transport and order of steps: accepted calls and generated loss records equal delivered, definitely lost, unconfirmed and queued; the queue stays within limit and reserve |
| `RecorderRuns.CloseReportsEverything` | packages/llm-usage/src/recorder.ts:316-339 | once closed the queue is empty, the three returned numbers explain every call and loss record, and every loss has evidence |
| `RecorderRuns.BatchIsPrefix` | packages/llm-usage/src/recorder.ts:187-192 | while an attempt is in flight, whatever is recorded, counted or turned into evidence meanwhile, the front of the queue is the batch handed to the transport, so an acknowledgement takes off exactly that batch and leaves what came behind it |
| `RecorderRuns.DefiniteLossIsSound` | packages/llm-usage/src/recorder.ts:194-207 | an entry counted as definite loss was stored by no step of the run, not even of an attempt pending at close; the definite losses are exactly these and the invalid calls |
| `RecorderRuns.NoSilentGap` | packages/llm-usage/src/recorder.ts:104-171 | a record given up on is in a counter, or every query that would have matched it matches a loss record showing its kind, time and session |
| `RecorderRuns.LossTotalsExact` | packages/llm-usage/src/recorder.ts:117-141 | per kind, counters and loss records together report exactly the number given up on, through every merge |
| `RecorderRuns.ReasonsAddUp` | packages/llm-usage/src/recorder.ts:104-107 | the losses by reason, invalid calls included, add up to the definite losses and the unconfirmed ones |
| `RecorderRuns.RetriesAreInTime` | packages/llm-usage/src/recorder.ts:179-187 | no entry is sent again after its retry window: each entry of a new batch was never sent or was found in time in this very step |
| `RecorderRuns.RunsKeep` | packages/llm-usage/src/recorder.ts:173-339 | the invariant behind these results holds in every reachable state |
| `RecorderRuns.NextKeeps` | packages/llm-usage/src/recorder.ts:173-339 | each stretch between two awaits keeps it |
| `RecorderRuns.AccountedKeeps` | packages/llm-usage/src/recorder.ts:104-142 | accounting for one entry settles it exactly once, also when it re-enters itself for a loss record |
| `RecorderRuns.StoredKeeps` | packages/llm-usage/src/recorder.ts:189-190 | an attempt may store any entry of its batch at any time before its outcome is known |
| `RecorderRuns.StoredLateKeeps` | packages/llm-usage/src/recorder.ts:194-207 | an entry whose attempt failed as possibly delivered, or was abandoned at close, may be stored at any later time, and it was never counted as a definite loss |
| `RecorderPlaces.EveryEntryHasItsPlace` | packages/llm-usage/src/recorder.ts:104-271 | in every run each entry made, call or loss record, is in the queue with its record, or was acknowledged, or was given up on: because the queue held queueLimit entries, for a loss record queueLimit and the reserve, or it was sent and its retry window had passed, or at close; it is a definite loss unless an attempt may have stored it |
| `RecorderPlaces.LossRecordsAreEntries` | packages/llm-usage/src/recorder.ts:154-169 | each loss record generated is the record of such an entry |
| `RecorderPlaces.LossRecordsAreDelivered` | packages/llm-usage/src/recorder.ts:168-192 | when every attempt succeeds, the queue stays below limit and reserve together and is empty at the end, every loss record generated was acknowledged |
| `RecorderPlaces.CallIsRecorded` | packages/llm-usage/src/recorder.ts:250-271 | a call on an open recorder makes exactly one entry, with the id, session, kind and evidence given and the time given or else read in this call; everything else it makes is loss records |
| `RecorderPlaces.NothingDueIsLeft` | packages/llm-usage/src/recorder.ts:144-171 | a pass over the counters leaves only those a reading of the pass found within their window, and makes a loss record of each other one; at close it leaves none |
| `RecorderPlaces.GivingUpIsCounted` | packages/llm-usage/src/recorder.ts:104-125 | giving up on a call's entry counts it once, under the kind of its record, or as unconfirmed when an attempt may have stored it, and while there is room for another counter in one of its own session |
| `RecorderPlaces.AttemptBegins` | packages/llm-usage/src/recorder.ts:179-189 | a turn of the sender that may try sends the oldest entries, as many as a batch may hold, and is idle only when nothing is queued |
| `LossEvidence.EvictionEnds` | packages/llm-usage/src/recorder.ts:126-141 | the eviction loop ends if and only if the counters span at most maxLossCounters window starts, and then leaves at most that many |
| `LossEvidence.EvictionCarries` | packages/llm-usage/src/recorder.ts:126-141 | eviction keeps every total per kind, the coverage of every record and the set of windows |
| `LossEvidence.CountedCovers` | packages/llm-usage/src/recorder.ts:115-125 | counting a record covers it, keeps covering the others and adds one to its kind only |
| `LossEvidence.EmissionKeepsBooks` | packages/llm-usage/src/recorder.ts:150-166 | turning a counter into a loss record moves its coverage and totals over |
| `LossEvidence.ChargeKeepsBooks` | packages/llm-usage/src/recorder.ts:111-141 | counting and eviction together keep every record given up on covered and the totals exact |
| `LossEvidence.EvidenceMatches` | packages/llm-usage/src/read.ts:13-29 | evidence that shows a record matches every query the record matches, whatever kinds are asked for |
| `LossEvidence.MatchesMeans` | packages/llm-usage/src/read.ts:13-29 | a record matches exactly when it speaks of a moment asked for, evidence of every moment between its first and last loss, and is of the session and kind asked for; evidence without a session counts for all, and its kind does not matter |
| `LossEvidence.Select` | packages/llm-usage/src/read.ts:31-42 | the loop with its seen set computes the first matching record of each id |
| `LossEvidence.SelectedMatch` | packages/llm-usage/src/read.ts:31-42 | only matching records are selected, each id once |
| `LossEvidence.SelectedAll` | packages/llm-usage/src/read.ts:31-42 | every matching record is represented |
| `UsageSpec.EvictOneProgress` | packages/llm-usage/src/recorder.ts:126-140 | one turn keeps the windows and decreases (per-session counters, position of the first one) |
| `UsageSpec.GlobalsAreWindows` | packages/llm-usage/src/recorder.ts:130-139 | with only global counters left there is one per window |
| `RecorderClock.NeverHangs` | packages/llm-usage/src/recorder.ts:104-142 | with a clock that never goes back and room for two counters no run hangs, and the bound on counters holds in every state |
| `RecorderClock.LossIdsUnique` | packages/llm-usage/src/recorder.ts:144-170 | no loss record's id is used twice in a run that reads one time per step, or, as long as the eviction loop was left, in one whose clock never goes back or with room for one counter under any clock |
| `RecorderClock.SurvivorsShareWindow` | packages/llm-usage/src/recorder.ts:110-114 | after a pass of a non-decreasing clock the remaining counters belong to one window |
| `ClockLimits.OneCounterMayHang` | packages/llm-usage/src/recorder.ts:110-141 | for every valid options with room for one counter it builds a run with a non-decreasing clock in which the loop never ends |
| `ClockLimits.HangsOnlyWithOneCounter` | packages/llm-usage/src/recorder.ts:110-141 | no run with a non-decreasing clock hangs if and only if maxLossCounters is at least 2 |
| `ClockLimits.AnyRoomMayHang` | packages/llm-usage/src/recorder.ts:110-141 | for every valid options it builds a run with a clock that goes back, in which the loop never ends, so that no maxLossCounters is enough for every clock |
| `ClockLimits.IdUsedTwice` | packages/llm-usage/src/recorder.ts:144-170 | for every valid options with room for two counters or more it builds a run, with a clock that goes back between the readings of one pass, in which an id is used twice and nothing hangs |
| `ClockLimits.IdsUniqueOnlyWithOneCounter` | packages/llm-usage/src/recorder.ts:144-170 | under every clock and in every run that does not hang ids are unique, if and only if maxLossCounters is 1 |
| `UsageRecording.UsageRecorder.Account` | packages/llm-usage/src/recorder.ts:104-142 | marks, emits due evidence and counts, in place, with the re-entry for loss records |
| `UsageRecording.UsageRecorder.Charge` | packages/llm-usage/src/recorder.ts:111-141 | finds or makes the counter, updates it and evicts |
| `UsageRecording.UsageRecorder.Evict` | packages/llm-usage/src/recorder.ts:126-141 | the while loop, terminating by the lexicographic measure, under exactly the condition under which it ends |
| `UsageRecording.UsageRecorder.EmitLosses` | packages/llm-usage/src/recorder.ts:144-171 | the loop over the map it removes from: each due counter becomes an entry, queued while the queue is below limit and reserve and otherwise accounted for as overflow |
| `UsageRecording.UsageRecorder.Convert` | packages/llm-usage/src/recorder.ts:151-167 | one counter becomes a record, with two readings of the clock |
| `UsageRecording.UsageRecorder.Record` | packages/llm-usage/src/recorder.ts:250-271 | a call is dropped, counted as invalid, queued or accounted for; the queue only grows at its end and the batch in flight stays its front |
| `UsageRecording.UsageRecorder.Expire` | packages/llm-usage/src/recorder.ts:180-185 | the loop over a copy of the queue that removes from the queue |
| `UsageRecording.UsageRecorder.BeginSend` | packages/llm-usage/src/recorder.ts:179-189 | one turn of the sender up to its await; the batch is a front of the queue and not empty |
| `UsageRecording.UsageRecorder.Resolve` | packages/llm-usage/src/recorder.ts:190-192 | an acknowledged batch leaves the front of the queue |
| `UsageRecording.UsageRecorder.Reject` | packages/llm-usage/src/recorder.ts:194-215 | a refused batch: marked in place, expired entries accounted for, evidence emitted |
| `UsageRecording.UsageRecorder.MarkBatch` | packages/llm-usage/src/recorder.ts:200-207 | the loop that marks entries shared with the queue while it removes from the queue |
| `UsageRecording.UsageRecorder.BeginClose` | packages/llm-usage/src/recorder.ts:320-322 | no more calls, and all counters become evidence |
| `UsageRecording.UsageRecorder.FinishClose` | packages/llm-usage/src/recorder.ts:324-336 | pending entries turn ambiguous, the queue and then its evidence is given up on; returns the three totals |
| `UsageRecording.UsageRecorder.Stats` | packages/llm-usage/src/recorder.ts:340-348 | the numbers reported while running, with queued ambiguous entries among the unconfirmed |
| `EndToEnd.HonestAttemptIsLegal` | packages/llm-usage/src/transports.ts:20-37 | whatever a transport does whose refusals are honest, in any order of storing, is a legal run of the recorder, so all results about runs apply to it |
| `EndToEnd.EvidenceReachesReader` | packages/llm-usage/src/read.ts:13-42 | for any sink that holds the loss records: a record given up on is still in a counter, or every query that would have returned it returns evidence showing it, although sinks and readers keep one record per id |
| `EndToEnd.PlaysAreRuns` | packages/llm-usage/src/transports.ts:20-37 | recorder, chunked transport and memory sink together: every run of the whole is a run of the recorder, and what was acknowledged is held under its id |
| `EndToEnd.DeliveredEvidenceIsRead` | packages/llm-usage/src/transports.ts:20-37 | with no premise about the sink: the number delivered is that of the records acknowledged, each is held, and a record given up on is in a counter or shown by a loss record that, once delivered, every query returns that would have returned the lost record |
| `EndToEnd.LostCallsAreShown` | packages/llm-usage/src/transports.ts:20-37 | while the sink refuses nothing and the reserve never fills up, and once the queue is sent: a call given up on is still in a counter, or every query that would have returned it is given evidence showing it, and no counter is left after a pass over all of them |
| `Delivery.MemorySink.Write` | packages/llm-usage/src/sinks.ts:18-35 | all or nothing: a full sink that may not evict stores nothing and says so, otherwise it holds the newest records |
| `Delivery.AdditionsAreNew` | packages/llm-usage/src/sinks.ts:19-23 | what is added has new ids, each once, and with what is held covers the batch |
| `Delivery.AdditionsAreLatest` | packages/llm-usage/src/sinks.ts:19-23 | of several records of one id in a batch the last one is added, in the place of the first, and the order of ids is that of the batch |
| `Delivery.RetryAddsNothing` | packages/llm-usage/src/sinks.ts:19-23 | writing a batch adds nothing if and only if the sink holds a record for each of its ids |
| `Delivery.RetryChangesNothing` | packages/llm-usage/src/sinks.ts:18-35 | after a write that evicted nothing, the same write again succeeds and leaves the sink as it is |
| `Delivery.SendToMemory` | packages/llm-usage/src/transports.ts:21-37 | the chunked loop over a memory sink that does not evict: acknowledged exactly when the whole batch fits, and then every record is held; certainly refused means the sink is as it was |
| `Delivery.CombinedIsHonest` | packages/llm-usage/src/sinks.ts:155-171 | combined sinks say not delivered exactly when all of them do, succeed exactly when all do, and are honest if their parts are |
| `Delivery.SendDirect` | packages/llm-usage/src/transports.ts:21-37 | acknowledged exactly when the sink took every chunk of the batch; what is stored is what the chunks offered stored; a failure is that of the last chunk offered, and possibly delivered if it was not the first |
| `Delivery.SendHttp` | packages/llm-usage/src/transports.ts:52-99 | acknowledged exactly when every chunk of the batch was answered ok; otherwise the last chunk sent was not, and it is certainly not delivered exactly for a refused connection on the first chunk |
| `Delivery.ChunksMakeBatch` | packages/llm-usage/src/transports.ts:29-31 | each entry of a batch is in exactly the chunk and at the place its index says, and no chunk is larger than allowed |
| `JsonlLog.RecoveryIsExact` | packages/llm-usage/src/sinks.ts:53-139 | over any writes, rotations and crashes cut at any byte, reading the files in whatever order they are listed gives what was there and each wholly written record, each exactly once |
| `JsonlLog.AppendReads` | packages/llm-usage/src/sinks.ts:129-134 | wherever an append is cut, older records are still read and the new one exactly when its JSON text is whole |
| `JsonlLog.ReadSplits` | packages/llm-usage/src/sinks.ts:74-83 | reading two texts joined by a newline is reading one and then the other |
| `JsonlLog.JsonlSink.constructor` | packages/llm-usage/src/sinks.ts:87-91 | a new process rebuilds ids and the missing newline from any disk |
| `JsonlLog.JsonlSink.WriteOne` | packages/llm-usage/src/sinks.ts:110-135 | duplicate check, rotation and append of one record: a held record changes nothing, and the file is rotated exactly when it is not empty and the line would take it past rotateBytes |
| `JsonlLog.JsonlSink.Write` | packages/llm-usage/src/sinks.ts:96-137 | a batch is a run of uncut events |
| `CatalogRace.AtMostOneCreated` | packages/pg-vector-rag/src/pg-vector-rag-provider.ts:197-219 | for any number of racing create and adopt calls, any failing statement, lost reply or statement that takes effect after its call ended: at most one succeeds and its record is stored, a duplicate or orphan is right that there is a record or table, a failed call stored nothing and never will, a record never lacks its table |
| `CatalogRace.ExactlyOneCreated` | packages/pg-vector-rag/src/pg-vector-rag-provider.ts:197-219 | without faults, whatever was there and whoever calls: exactly one call succeeds if one is there that can, which is a creator on a fresh name or an adopter of a table without a record, and otherwise none, and the record is that call's |
| `CatalogRace.RunsSafe` | packages/pg-vector-rag/src/catalog-record.ts:52-81 | the safety invariant holds in every run and a record once stored stays |
| `CatalogRace.RunsClean` | packages/pg-vector-rag/src/pg-vector-rag-provider.ts:354-377 | without faults whoever made the table, or adopts one, goes on to a record or finds one |
| `CatalogRace.CallsEnd` | packages/pg-vector-rag/src/pg-vector-rag-provider.ts:197-219 | every call ends after at most four statements of its own and changes no other call |
| `CatalogRace.OutcomeIffSeen` | packages/pg-vector-rag/src/pg-vector-rag-provider.ts:197-219 | in every run, whatever fails, each outcome is reported exactly after its cause: success after an insert that ran while no record was stored and whose reply arrived, a duplicate after seeing a record, a failure after a question not answered or no table, an orphan after seeing a table and no record, or not being able to look |
| `CatalogRace.ReportsWhatItFound` | packages/pg-vector-rag/src/pg-vector-rag-provider.ts:197-219 | without faults the last statement decides: duplicate if and only if there was a record, failed if and only if no table, created if and only if its insert found none |
| `CatalogRace.NoneCreatedAfterLostReply` | packages/pg-vector-rag/src/catalog-record.ts:71-80 | a run in which that reply is lost: the record is stored and the only call reports a duplicate |
| `CatalogRace.TableAfterFailure` | packages/pg-vector-rag/src/pg-vector-rag-provider.ts:354-377 | a run in which a call reports a failure and its table is made afterwards |
| `CatalogRace.StoredAfterOrphan` | packages/pg-vector-rag/src/catalog-record.ts:71-80 | a run in which a call reports an orphan and its record is stored afterwards |
| `QdrantRace.AtMostOneCreated` | packages/qdrant-rag/src/qdrant-rag-provider.ts:404-458 | with ignored inserts, lost replies, refusals of requests that took effect and late writes at most one call succeeds, and the record stays its own; a duplicate or orphan is right that there is a record or collection, and a failed call stored nothing and never will |
| `QdrantRace.OutcomeIffSeen` | packages/qdrant-rag/src/qdrant-rag-provider.ts:404-458 | in every run each outcome is reported exactly after its cause: success after reading one's own write id back, a duplicate after seeing another's record, a failure after a question not answered, a lost creation or no collection, an orphan after seeing a collection and no record, or not being able to look |
| `QdrantRace.ExactlyOneCreated` | packages/qdrant-rag/src/qdrant-rag-provider.ts:370-458 | without faults and with each write landed before its read-back, exactly one call succeeds if one is there that can, a creator on a fresh name or an adopter of a collection without a record, and otherwise none |
| `QdrantRace.ReportsWhatItFound` | packages/qdrant-rag/src/qdrant-rag-provider.ts:370-458 | then the last request decides: created if and only if it found its own record, duplicate if and only if another's, failed if and only if no collection |
| `QdrantRace.CollectionAfterFailure` | packages/qdrant-rag/src/qdrant-rag-provider.ts:370-402 | a run in which a call reports a failure and its collection is made afterwards |
| `QdrantRace.StoredAfterOrphan` | packages/qdrant-rag/src/qdrant-rag-provider.ts:404-458 | a run in which a call reports an orphan and its write lands afterwards |
| `QdrantRace.RunsSafe` | packages/qdrant-rag/src/qdrant-rag-provider.ts:370-402 | the invariant of all runs: success means one's own write id is stored |
| `Paging.ScanAll` | packages/llm-agent/src/interfaces/rag-scan.ts:125-148 | a scan with a page size that is not positive is refused before any read; with any other, or none, following cursors gives every matching row once in key order, on PostgreSQL and HANA |
| `Paging.Scan` | packages/pg-vector-rag/src/scan-delete.ts:28-45 | the loop over pages for any positive size: exactly the matching rows, and it ends |
| `Paging.ServerPageGoesOn` | packages/pg-vector-rag/src/store-sql.ts:83-102 | a page filtered in SQL and what follows its cursor make the whole scan, with fewer rows left |
| `Paging.ClientPageGoesOn` | packages/hana-vector-rag/src/scan-delete.ts:33-55 | the same for a page filtered afterwards, which may be short or empty |
| `Paging.DeleteWhere` | packages/hana-vector-rag/src/scan-delete.ts:58-93 | scan, then delete in batches: exactly the matching rows go and their number is returned |
| `Paging.FoundIsMatching` | packages/hana-vector-rag/src/scan-delete.ts:74-91 | deleting the ids found is deleting the rows that match |
| `Paging.Pick` | packages/hana-vector-rag/src/hana-vector-rag.ts:278-295 | the first kept rows up to the limit, and whether one was passed over |
| `Paging.Query` | packages/hana-vector-rag/src/hana-vector-rag.ts:270-309 | over-fetch with conditional second query equals filtering everything and taking the first max(1, k) |
| `Paging.OnePageIsEnough` | packages/hana-vector-rag/src/hana-vector-rag.ts:300-307 | when the second query is skipped the page already holds the answer |
| `ToolTrace.CollectorDescribes` | packages/llm-agent/src/tool-trace.ts:203-234 | for every history of dispatches 1, 2, 3, … each settled at most once later, the collector holds the first and last 25 as last observed, counts the rest and the open ones |
| `ToolTrace.WindowIsExact` | packages/llm-agent/src/tool-trace.ts:235-248 | the trace shown: these entries in order, and kept plus omitted is the number dispatched |
| `ToolTrace.CompleteMeansAllSettled` | packages/llm-agent/src/tool-trace.ts:240-247 | nothing pending and nothing kept unsettled if and only if every dispatched call was settled, omitted ones included |
| `ToolTrace.HistoryFacts` | packages/llm-agent/src/tool-trace.ts:276-343 | in a history a call is settled exactly when the last thing observed of it says so |
| `ToolTrace.NormalizeIsStable` | packages/llm-agent/src/tool-trace.ts:256-262 | normalising a trace a collector made sanitises its texts once more and changes nothing else, so it changes nothing at all if and only if sanitising leaves each of its texts as it is |
| `ToolTrace.NormalizedIsPresentable` | packages/llm-agent/src/tool-trace.ts:203-262 | whatever is normalised, with sequences invalid, repeated or out of order, gives a trace a collector can show: at most 50 entries by ascending valid sequence, each the last of its sequence, and none unsettled when it is complete |
| `ToolTrace.NormalizeTwice` | packages/llm-agent/src/tool-trace.ts:256-262 | so normalising any trace twice sanitises the texts twice and does nothing else twice |
| `ToolTrace.Normalize` | packages/llm-agent/src/tool-trace.ts:256-262 | the entries, sanitised again, go through a new collector and omissions add up |
| `ToolTrace.ToolTraceCollector.Observe` | packages/llm-agent/src/tool-trace.ts:203-234 | one observation in place, with its early returns |
| `ToolTrace.ToolTraceCollector.Snapshot` | packages/llm-agent/src/tool-trace.ts:235-248 | entries by ascending sequence, and the flag |
| `ToolTrace.ToolTraceCollector.Finalize` | packages/llm-agent/src/tool-trace.ts:249-253 | the first finalisation decides the flag and closes the collector |
| `SignalBus.LastIsLive` | packages/llm-signals/src/index.ts:202-206 | last gives a signal exactly when it is the last valid one of its slot and its source was not retired since |
| `SignalBus.LastAllIsAlive` | packages/llm-signals/src/index.ts:207-209 | lastAll gives exactly the live signals of a source in the order they were last emitted |
| `SignalBus.EachHearsAllInOrder` | packages/llm-signals/src/index.ts:144-158 | each subscribed handler was called exactly for the valid signals it asked for since it subscribed, in emit order |
| `SignalBus.LastDuringDelivery` | packages/llm-signals/src/index.ts:136-158 | during a delivery last gives the signal being delivered, whatever earlier handlers did |
| `SignalBus.SignalBus.Push` | packages/llm-signals/src/index.ts:164-183 | emit and retire, from outside or inside a handler: queued, and drained by whoever finds nobody draining |
| `SignalBus.SignalBus.Drain` | packages/llm-signals/src/index.ts:117-162 | ends with an empty queue for all handlers that stop emitting, and keeps the invariant |
| `SignalBus.SignalBus.Take` | packages/llm-signals/src/index.ts:122-144 | one entry: a retirement, a signal that is not plain, or one to retain and deliver |
| `SignalBus.SignalBus.Deliver` | packages/llm-signals/src/index.ts:144-158 | the loop over the snapshot of handlers: everyone still subscribed has had its turn |
| `SignalBus.SignalBus.Subscribe` | packages/llm-signals/src/index.ts:184-201 | a new handler hears what is taken from now on |
| `SignalBus.SignalBus.Unsubscribe` | packages/llm-signals/src/index.ts:191-193 | takes a handler out, also in mid-delivery |
| `SignalBus.SignalBus.Last` | packages/llm-signals/src/index.ts:202-206 | reads the fold of the entries taken |
| `SignalBus.SignalBus.LastAll` | packages/llm-signals/src/index.ts:207-209 | reads the live signals |
| `CanonicalKey.KeyDecides` | packages/llm-agent/src/artifact-identity.ts:37-47 | two argument values have one key if and only if they are equal up to key order at every depth |
| `CanonicalKey.PrehashDecides` | packages/llm-agent/src/artifact-identity.ts:54-60 | the text that is hashed is equal if and only if the tool name is and the arguments are, up to key order |
| `CanonicalKey.CanonIdempotent` | packages/llm-agent/src/artifact-identity.ts:38-45 | canonicalising twice is canonicalising once |
| `CanonicalKey.CanonIsSame` | packages/llm-agent/src/artifact-identity.ts:38-45 | canonicalising changes nothing but the order of keys |
| `CanonicalKey.SameMeansCanonEqual` | packages/llm-agent/src/artifact-identity.ts:42-44 | values equal up to key order have one canonical value |
| `CanonicalKey.CanonEqualMeansSame` | packages/llm-agent/src/artifact-identity.ts:42-44 | and only they |
| `CanonicalKey.PrintUnique` | packages/llm-agent/src/artifact-identity.ts:46 | no two values print the same JSON text, whatever follows it |
| `CanonicalKey.BodyUnique` | packages/llm-agent/src/artifact-identity.ts:46 | escaped string contents are told apart up to the closing quote |
| `CanonicalKey.PrintNoNul` | packages/llm-agent/src/artifact-identity.ts:54-60 | JSON text holds no raw NUL whatever the strings in it hold |
| `ExternalResults.BuildExternalResults` | packages/llm-agent/src/external-results.ts:30-79 | the nested loops compute the results of the runs and the kept messages |
| `ExternalResults.ResultIsLastAnswer` | packages/llm-agent/src/external-results.ts:50-57 | an id has a result exactly when an answer directly follows a declaring turn, and it is the text of the last such answer, empty when it has none |
| `ExternalResults.ConsumedFollows` | packages/llm-agent/src/external-results.ts:50-58 | a message is consumed exactly when it answers, with nothing but such answers between, an assistant turn that declares its id, which starts with ext: |
| `ExternalResults.DropsExternal` | packages/llm-agent/src/external-results.ts:60-76 | dropped are exactly the assistant turns with a call whose id starts with ext: and the tool messages that answer such an id |
| `ExternalResults.KeptIsExact` | packages/llm-agent/src/external-results.ts:73-76 | an order-preserving subsequence that drops exactly declaring turns and tool messages with external ids |
| `ExternalResults.SanitizedIsStable` | packages/llm-agent/src/external-results.ts:30-79 | on its own output the function changes nothing and finds no results |
| `ExternalResults.RunEnds` | packages/llm-agent/src/external-results.ts:50-58 | a run ends at the first message that is not one of its answers |

## Left out

- CacheCoherence.HitIsCurrent: covers runs before `RecordCache.close()`; a store opened after it gets fresh coordination that does not see writes of old handles.
- CacheCoherence.ApplyKeeps: a statement takes effect while its barrier is up. One that commits later, after the driver rejected the query, is a foreign statement of the model; `CacheCoherence.ForeignMakesStale` says exactly when a hit is stale after it, and `CacheHistory.HitIsRecent` bounds for how long.
- CacheHistory.HitIsRecent: needs a clock that does not go back between steps, as the time to live does; nothing else about the cache does.
- RecorderRuns.NoSilentGap: speaks of records given up on, not of calls refused as invalid or made after close; whether the loss record itself reaches a sink is what `RecorderPlaces.EveryEntryHasItsPlace` and `RecorderPlaces.LossRecordsAreDelivered` say.
- RecorderRuns.CloseReportsEverything: the record of evidence made at the deadline is counted and not delivered, as in the program.
- JsonlLog.RecoveryIsExact: assumes a JSON encoding whose texts hold no newline, read back and have no readable proper prefix, as texts of objects do; a failing append in a process that goes on is not covered, nor is a failed initialisation.
- JsonlLog.JsonlSink.WriteOne: rotated file names are taken to be fresh.
- Paging.DeleteWhere: one writer, no abort; a failing batch leaves the earlier ones deleted.
- Paging.Query: the two statements see one table in one order.
- Paging.ScanAll: the store does not change during the scan; the checks of the filter and of the cursor's own form are not modelled.
- CatalogRace.AtMostOneCreated: no concurrent delete of the same name.
- SignalBus.SignalBus.Drain: handlers are scripts of bus calls, so only runs that end are covered; promises rejected later and the delivery of `signalTransport` are not.
- CanonicalKey.KeyDecides: JSON trees without a key `__proto__`; a number is its printed text, so 0 and -0 are one value; canonical fields are computed before they are sorted, which their order does not depend on.
- ToolTrace.CollectorDescribes: sequence numbers are unbounded integers and the text of an entry is opaque.
- ToolTrace.NormalizeIsStable: what sanitising does to a text is a parameter; which texts it leaves as they are is not modelled.
- RecordCaching.RecordCache.Put: the size of a record is part of the record; cloning is a copy of a value.
- Range errors of constructors, and option defaults.
- Retry delays and timers: whether the sender may try again is free in every state.
- EndToEnd.EvidenceReachesReader: that the sink holds the loss records is a premise, as it may evict; `EndToEnd.DeliveredEvidenceIsRead` does without it for a memory sink that does not evict behind the direct transport.
- EndToEnd.DeliveredEvidenceIsRead: that a loss record is delivered at all is not promised here, since it shares the fate of the queue; `EndToEnd.LostCallsAreShown` says when it is.
- EndToEnd.LostCallsAreShown: that the sender goes on until the queue is sent is a premise, since timers are free.
- The skipped-line count of the file sink.
- Generated record ids, contexts other than the session, and the plain-data checks; each is an input or a flag.
- Shared-layout collections, listing and embedding, and Qdrant's scan and delete, which page the same way.
- SQL text, drivers, hashing, cursor encoding and redaction of trace texts.
- LLM providers, agents, servers and everything else of the repository.
