# Dashanan: verified models of the memory engine's protocols

This project models the stateful core of the Dashanan memory engine and proves what its design documents
promise about it. Each module follows one component. Where the original updates objects in place the module
holds a class whose methods are proved equal to specification functions on values; the results over whole
runs are then lemmas about those functions. Ports (SQL, object store, key store, index, event bus, clock)
appear as parameters that say how each call ends. The removals of the capacity backstop and the clearing of its
obligations, the journal append, the key's destruction and the blob write may fail before or after taking effect; the lifecycle's persist and the finalize
transaction fail before.

| module | component |
|---|---|
| `DependencyGraph` | Kahn's cycle check over backlog stories |
| `ErasureDurability` | the write-ahead erasure protocol of Zone 8 and its recovery sweep |
| `Zone8Archive` | merging payloads into content-addressed blobs, the manifest, sealing and shredding |
| `Lifecycle`, `RotationEngine`, `ArchiveEngine` | Active to Compressed to Archived, and the two engines that move items |
| `TimerWheel`, `RotationDeadline` | the lazy-deletion timer wheel and the closed-form deadline |
| `WriteGate`, `WriteGateProgress`, `TokenBucket` | the provenance write gate under concurrency and restarts, when its calls return, and its rate limiter |
| `ProvenanceChain`, `ConflictSweep`, `ConflictInterleaving`, `Encodings` | hash-chained provenance, conflict detection, its concurrent appends, canonical encodings and ids |
| `CircuitBreaker` | the count-based breaker |
| `CapacityBackstop` | Zone 2's eviction plan and the cross-zone removals that carry it out |
| `ContextAssembly` | the greedy context fill |
| `AliasTrie` | the heap-allocated alias index |
| `Sequences`, `Sorting`, `Text`, `Options`, `Zones`, `SourceTypes` | shared vocabulary |

Idealisations are hypotheses, never global facts. SHA-256 is an arbitrary function: a theorem either exhibits
a collision among the byte strings it hashed or assumes none among them. AES-256-GCM is any cipher that opens
what it sealed under the same key and associated data and nothing else (`SomeCipherIsLawful` shows the law can
be met over bytes). `exp` and `ln` are any mutually inverse strictly increasing pair with exp 0 = 1
(`SomePairIsLawful`). Times and scores are exact reals; the code's epsilons are kept as constants.

## Where the code and its documentation differ

The model follows the code. These lemmas record the consequences.

- The recovery sweep reads every finalize error as "already applied", so a commit that fails for another reason
  closes its marker without a provenance row (`ErasureDurability.SwallowedErrorLosesRow`). A finalized marker has
  its row exactly when some commit for it went through (`ErasureDurability.RecoveryResolvesEveryErasure`).
- The recovery sweep destroys whatever key the marker's subject holds. A subject that comes back between an
  interrupted erasure and the sweep loses its new key exactly when a pending marker of it has an attempt left that
  takes it (`ErasureDurability.SweepTakesKeyIff`, `ErasureDurability.FreshKeyIsShredded`).
- The timer wheel restarts an item's generation after an invalidation or a pop, so an orphaned entry can pop a
  live item early (`TimerWheel.RestartedCounterPopsEarly`). Pops are exact if and only if no such entry is in the
  heap; with counters that are kept they are always exact.
- A sweep drops every popped item from the wheel, also the skipped and failed ones
  (`RotationEngine.SweepAccountsForEveryPop`). An item popped early through an orphan, or by a sweep of another tenant
  of its zone, is therefore forgotten: its deadline brings a compression exactly when no sweep took it before
  (`RotationEngine.ScheduledItemIsCompressedIff`, `RotationEngine.RescheduledItemIsForgotten`).
- The engines check a guard and persist afterwards. When two compressions of one item overlap, the later one can take
  an archived item back (`Lifecycle.OverlapTakesItemBack`); every other overlap is harmless
  (`Lifecycle.SeparateCompressionsMoveOneStep`).
- The archive engine marks items archived at their source before it writes them. When the write does not land - the
  object store is down, or Zone 8 raises for the whole batch - the marked items stay archived without a row, and no
  later sweep picks them up again (`ArchiveEngine.UnlandedItemIsStranded`), although the documentation expects a retry.
- The local object store counts an existing file as written, so a write that failed half way leaves a short blob
  that a retry then accepts (`Zone8Archive.TornBlobIsKept`). An item reads back exactly when, before its batch, the
  blob was absent or long enough (`Zone8Archive.ArchivedItemReadsBackIff`).
- A conflict stores the incoming claim with a freshly computed confidence, without its compressions or its failed
  faithfulness check; "downgraded" is true exactly up to a number of compressions
  (`ConflictSweep.StoredConfidenceFallsIff`). A claim that is a summary is lost after the record it contradicts has
  been marked (`ConflictSweep.SummaryClaimIsLost`). The stored claim keeps its own `prev_hash`, so the item's lineage
  no longer verifies (`ConflictSweep.ConflictBreaksChain`, `ConflictSweep.ConflictKeepsChainIff`).
- `update_history` is not hashed, although the docstring of `compute_record_hash` holds that its parts are covered:
  rewriting it passes verification (`ProvenanceChain.RewrittenHistoriesVerify`), and conflict detection decides by it
  (`ConflictSweep.UnhashedFieldDecidesConflict`).
- The conflict sweep reads an item's history and inserts afterwards. Two appends that overlap on an item can both be
  stored undisputed on one predecessor (`ConflictInterleaving.OverlapStoresRivals`); appends that do not overlap on an
  item cannot (`ConflictInterleaving.SeparateAppendsHaveNoRivals`).
- A clock that steps back lets the rate limiter refill the same seconds twice. The bound on elapsed time holds for
  every bucket exactly when the clock never steps back (`TokenBucket.EndToEndBoundHoldsIff`), and what swings of the
  clock add has no limit (`TokenBucket.ClockStepBackAdmitsMore`).
- A journal append that raises after its entry became durable is answered "accepted" on every retry, and the fact is
  never persisted; so is an entry whose process died before the callback (`WriteGate.AcceptedIffRan`).
- The limiter's buckets are in memory, so every restart gives a tenant a full one (`WriteGate.TenantIsBounded`).
- The gate holds a key's lock while the callback runs. Callbacks that submit under one another's keys wait for ever
  (`WriteGateProgress.CrossedCallbacksDeadlock`); every other call returns
  (`WriteGateProgress.CallsReturnIffNotDeadlocked`).
- The breaker counts reports, not probes: a report about a call let through before the trip counts as a probe's, so an
  episode can close with fewer probes than it needs successes (`CircuitBreaker.ClosesOnItsProbesIff`,
  `CircuitBreaker.LateReportsClose`).
- A negative score is still taken when it fits, so an unskipped fill is optimal exactly when no score is negative
  (`ContextAssembly.UnskippedFillIsOptimalIff`).
- An eviction that raises after removing the item, or a clearing of its obligation that raises or is cut off before it
  takes effect, leaves the obligation pending for good
  (`CapacityBackstop.DecisionStrandsIff`, `CapacityBackstop.StrandedObligationStays`).
- A general fact's id is used as it is, so it can equal an edge's or an attribute's id (`Encodings.FactIdsCollideIff`).
- An episode id with a colon in its session does not parse back to its key (`Encodings.EpisodeIdRoundTrip`).

## Model

| member | source | states |
|---|---|---|
| `DependencyGraph.CheckNoCycles` | docs/orchestration/schemas/validate_handoff.py:41-66 | returns normally if and only if every dependency is a known story and the relation is acyclic; otherwise reports exactly the stories that reach a cycle or an unknown story, in order; the visits are a topological order without repeats |
| `DependencyGraph.Drain` | docs/orchestration/schemas/validate_handoff.py:54-62 | the loop ends, and its in-degree counts are the unfinished dependencies of each story |
| `DependencyGraph.BuildInDegrees` | docs/orchestration/schemas/validate_handoff.py:43-52 | in-degrees count the dependencies with multiplicity and dependents is exactly the inverse relation |
| `DependencyGraph.OrderedIsUnblocked` | docs/orchestration/schemas/validate_handoff.py:54-62 | a story in a topological order reaches neither a cycle nor an unknown story |
| `DependencyGraph.StuckIsBlocked` | docs/orchestration/schemas/validate_handoff.py:63-66 | stories that all wait on one another or on unknown stories reach a cycle or an unknown story (pigeonhole) |
| `DependencyGraph.NothingBlockedIffDag` | docs/orchestration/schemas/validate_handoff.py:41-66 | no story is blocked if and only if the graph is closed and acyclic |
| `ErasureDurability.RecoveryResolvesEveryErasure` | src/dashanan/application/zone8_erasure_durability.py:518-650 | after any history of erasures, sweeps and new keys, with deaths at any effect and any port failing, a sweep that reaches the key store and completes leaves every marker finalized or failed after its retries, says which, and a marker has exactly one row if some commit for it went through and none otherwise |
| `ErasureDurability.RecoveryClosesEveryErasure` | src/dashanan/application/zone8_erasure_durability.py:518-650 | if moreover commits fail only on a duplicate and no erased subject comes back, every finalized marker is closed: key gone, index rows gone, exactly one provenance row |
| `ErasureDurability.ProvenanceIsCommits` | src/dashanan/application/zone8_erasure_durability.py:443-504 | in every reachable state the provenance table is what was there at first and one row per commit that went through, in order |
| `ErasureDurability.ProcessCommits` | src/dashanan/application/zone8_erasure_durability.py:560-650 | a marker's job changes the table and the index exactly by its commit, and makes it exactly when its effects, queries and destroy attempts let it reach one |
| `ErasureDurability.IndexClearedIffCommitted` | src/dashanan/application/zone8_erasure_durability.py:443-504 | when erased subjects do not come back, a subject's index rows are gone exactly when it never had any or a commit for one of its erasures went through |
| `ErasureDurability.DestroyedKeyNeverReturns` | src/dashanan/application/zone8_erasure_durability.py:387-439 | a key confirmed destroyed is held by nobody ever after, also when its subject comes back under a new key and is erased again |
| `ErasureDurability.ReachableIsSound` | src/dashanan/application/zone8_erasure_durability.py:387-504 | every reachable state, wherever operations died and whatever ports failed, keeps the protocol's invariant; no finalized marker has lost its row unless a sweep met a commit error it took for a duplicate |
| `ErasureDurability.SecondSweepIsIdle` | src/dashanan/application/zone8_erasure_durability.py:518-586 | a sweep after a completed one changes nothing, whatever its ports do |
| `ErasureDurability.InterruptedErasureIsFulfilledIff` | src/dashanan/application/zone8_erasure_durability.py:387-439 | an erasure interrupted anywhere, whatever other erasures are unfinished beside it, is fulfilled by the next completed sweep - finalized, key and index rows gone, row written - exactly when its row is written already, or its commit does not fail and its key is gone or taken by some pending marker of its subject |
| `ErasureDurability.InterruptedErasureIsFulfilled` | src/dashanan/application/zone8_erasure_durability.py:607-650 | in particular whenever its commit does not fail and not every attempt keeps the key |
| `ErasureDurability.InterruptedErasureIsCompletedIff` | src/dashanan/application/zone8_erasure_durability.py:387-439 | with no other erasure unfinished the same condition decides whether the whole state ends as an undisturbed erasure would have left it, up to the retry count |
| `ErasureDurability.InterruptedErasureIsCompleted` | src/dashanan/application/zone8_erasure_durability.py:518-650 | so it does when its commit does not fail, some attempt takes the key, and the sweep lives for its effects |
| `ErasureDurability.SweepCompletes` | src/dashanan/application/zone8_erasure_durability.py:518-650 | a sweep that reaches the key store and lives for its jobs' effects, at most six a marker, completes |
| `ErasureDurability.SweepReturns` | src/dashanan/application/zone8_erasure_durability.py:518-586 | a completed sweep returns exactly the ids of the markers it found pending or confirmed and left finalized |
| `ErasureDurability.RetryJob` | src/dashanan/application/zone8_erasure_durability.py:607-650 | the bounded retry ends finalized unless every attempt left the key, and then failed |
| `ErasureDurability.TwoAttemptsDecide` | src/dashanan/application/zone8_erasure_durability.py:607-650 | a completed sweep over the only pending marker of a held key finalizes it if attempt 0 or 1, of those not yet spent, takes the key, with its row unless the commit fails; otherwise it leaves it failed after two attempts, key held and no row |
| `ErasureDurability.KeySurvivesIff` | src/dashanan/application/zone8_erasure_durability.py:560-650 | with any number of pending erasures of a subject, its key outlives a completed sweep exactly if none of them has one of its two attempts take it |
| `ErasureDurability.UndisturbedErasureLeaves` | src/dashanan/application/zone8_erasure_durability.py:387-504 | the exact state an undisturbed erasure leaves: key and index rows gone, one finalized marker, one provenance row naming the erasure, its subject, its time and the number of items |
| `ErasureDurability.SwallowedErrorLosesRow` | src/dashanan/application/zone8_erasure_durability.py:589-604 | a finalize error other than a duplicate closes a marker whose row was never written |
| `ErasureDurability.SweepTakesKeyIff` | src/dashanan/application/zone8_erasure_durability.py:560-650 | a completed sweep takes a held key if and only if some pending marker of its holder has an attempt left that takes it |
| `ErasureDurability.FreshKeyIsShredded` | src/dashanan/application/zone8_erasure_durability.py:560-586 | wherever an erasure was interrupted, a key its subject is given before the sweep is taken under exactly that condition; it holds whenever the old key's destruction was not confirmed and one of the erasure's attempts works |
| `ErasureDurability.ErasureService.EraseSubject` | src/dashanan/application/zone8_erasure_durability.py:387-439 | the method's effects, step by step and with death before any of them, are those of the specification |
| `ErasureDurability.ErasureService.RecoverPendingErasures` | src/dashanan/application/zone8_erasure_durability.py:518-586 | the sweep's loop is the specified sweep and returns the markers it finalized |
| `ErasureDurability.ErasureService.RetryDestroyThenFinalize` | src/dashanan/application/zone8_erasure_durability.py:607-650 | the while loop over retries is the specified retry |
| `ErasureDurability.MarkerStore.Put` | src/dashanan/application/zone8_erasure_durability.py:186-212 | replaces a marker in place and keeps first-insertion order |
| `Zone8Archive.ArchivedItemReadsBackIff` | src/dashanan/application/zone8_consolidation_store.py:437-501 | over any run, torn writes included, a written item reads back as exactly what was submitted, whatever happens afterwards, if and only if before its batch the blob was absent or long enough for its range |
| `Zone8Archive.BatchWritesIff` | src/dashanan/application/zone8_consolidation_store.py:353-501 | a batch writes a row for every accepted item exactly when it is not refused, accepts something, its put succeeds, the manifest answers, and its items are new; otherwise it writes none |
| `Zone8Archive.WrittenBatchLeaves` | src/dashanan/application/zone8_consolidation_store.py:437-501 | a batch that writes gives every item from an archivable zone its row, rejects the others, stores the merged payload under its hash unless there already, and adds no other row or blob |
| `Zone8Archive.BatchRaisesIff` | src/dashanan/application/zone8_consolidation_store.py:353-436 | when each error is raised: two tenants in one batch; else a tenant without a bucket; else a manifest that is down or has one of the items already |
| `Zone8Archive.ArchivedItemReadsBack` | src/dashanan/application/zone8_consolidation_store.py:525-553 | so over any run without torn writes or collisions, every written item reads back exactly, whatever happens afterwards |
| `Zone8Archive.KeyedItemReadsUntilErased` | src/dashanan/application/zone8_crypto_shredding_store.py:206-316 | an item archived for a subject reads back exactly until its subject is erased, and never again after that, even under a new key |
| `Zone8Archive.OnlyItsSubjectOpens` | src/dashanan/application/zone8_crypto_shredding_store.py:251-277 | it never reads for another subject of the tenant |
| `Zone8Archive.RowsPointInsideBlobsIff` | src/dashanan/application/zone8_consolidation_store.py:450-501 | in any run, torn writes and collisions included, every manifest row points inside a stored blob if and only if every batch that wrote found its blob absent or long enough |
| `Zone8Archive.RowsPointInsideBlobs` | src/dashanan/application/zone8_consolidation_store.py:450-501 | in every state reached without a torn write, every manifest row points inside a stored blob |
| `Zone8Archive.ReadFailsIff` | src/dashanan/application/zone8_consolidation_store.py:503-553 | in every reachable store a read fails exactly for a blank argument or an item without a row, with the answer that says so |
| `Zone8Archive.MergeSlices` | src/dashanan/application/zone8_consolidation_store.py:569-588 | each item's recorded range of the merged blob is its own payload |
| `Zone8Archive.ConsolidationGrows` | src/dashanan/application/zone8_consolidation_store.py:353-501 | no batch, however it ends, changes a blob or a row that was there |
| `Zone8Archive.BatchAccountsForEveryItem` | src/dashanan/application/zone8_consolidation_store.py:291-309 | a batch that returns lists every item once as written, deferred or rejected, and defers all or none |
| `Zone8Archive.TornBlobIsKept` | src/dashanan/infrastructure/local_object_store.py:74-109 | a half-written blob survives its retry: the retry succeeds and the row points past the end |
| `Zone8Archive.ErasureReportsEveryItem` | src/dashanan/application/zone8_crypto_shredding_store.py:279-316 | an erasure's report contains every item ever archived for the subject |
| `Zone8Archive.SealOpensOnlyForItsOwner` | src/dashanan/domain/zone8_crypto_shredding.py:102-122 | the associated data alone is ambiguous, but sealed bytes open exactly for their own tenant, subject and item, because live keys differ |
| `Zone8Archive.RunKeys` | src/dashanan/infrastructure/in_memory_subject_key_store.py:32-52 | a held key stays until its subject's erasure and a destroyed key never comes back |
| `Zone8Archive.KeyedArchiveLeaves` | src/dashanan/application/zone8_crypto_shredding_store.py:206-249 | archiving for a subject mints a key only if it has none and lists the item in the subject's index once, and only if a row was written |
| `Zone8Archive.ErasureLeaves` | src/dashanan/application/zone8_crypto_shredding_store.py:279-316 | erasing a subject is refused for blank arguments and otherwise removes its key and nothing else |
| `Zone8Archive.SomeCipherIsLawful` | src/dashanan/domain/zone8_crypto_shredding.py:138-222 | the sealing law assumed elsewhere can be met |
| `Zone8Archive.Zone8ConsolidationStore.ConsolidateBatch` | src/dashanan/application/zone8_consolidation_store.py:353-501 | checks, merge, one put and one insert, in that order, are the specified batch |
| `Zone8Archive.Zone8ConsolidationStore.MergePayloads` | src/dashanan/application/zone8_consolidation_store.py:569-588 | the loop builds the concatenation and the last range of each id |
| `Zone8Archive.LocalObjectStore.PutBlobIfAbsent` | src/dashanan/infrastructure/local_object_store.py:74-109 | exclusive create, then write; an existing file is success |
| `Zone8Archive.ManifestRepository.InsertRows` | src/dashanan/infrastructure/sql_manifest_repository.py:144-178 | all rows or none; a key that exists undoes the batch |
| `Zone8Archive.SubjectKeyedArchiver.ArchiveForSubject` | src/dashanan/application/zone8_crypto_shredding_store.py:206-249 | seals under the subject's key, archives as a batch of one, indexes on success |
| `Zone8Archive.SubjectKeyedArchiver.EraseSubject` | src/dashanan/application/zone8_crypto_shredding_store.py:279-316 | destroys the key and touches no blob or row |
| `Lifecycle.ItemsMoveOneStepIffNotLate` | src/dashanan/domain/archive_transition.py:131-166 | over any interleaving, every move is one step forward if and only if no compression persists on an item archived since its guard |
| `Lifecycle.SeparateCompressionsMoveOneStep` | src/dashanan/application/rotation_engine.py:477-569 | if no two compressions overlap on an item, items move only active to compressed to archived, however archive sweeps and fast tracks overlap with them and with one another |
| `Lifecycle.ArchivedWasCompressed` | src/dashanan/domain/archive_transition.py:116-128 | however workers interleave, an archived item was compressed before |
| `Lifecycle.OverlapTakesItemBack` | src/dashanan/application/rotation_engine.py:495-525 | the guard is checked before and not at the persist: from every state in which two compressions hold an item, some continuation turns it from archived back to compressed |
| `Lifecycle.OverlapIsReachable` | src/dashanan/application/rotation_engine.py:477-525 | two sweeps that read one item reach such a state |
| `Lifecycle.SweepMoves` | src/dashanan/application/archive_engine.py:681-728 | a sweep moves an item at most one step, from the one state its engine accepts, and only where a position of the sweep persisted it |
| `Lifecycle.SweepStepIsReadThenPersist` | src/dashanan/application/archive_engine.py:681-728 | one item of a sweep is a read directly followed by its persist in the interleaved machine |
| `Lifecycle.VerdictIs` | src/dashanan/application/rotation_engine.py:477-569 | an item named once fails if it cannot be read or is gone, is skipped if it scores above the limit or is not in the engine's state, fails if the move does not persist, and otherwise moves |
| `RotationEngine.SweepAccountsForEveryPop` | src/dashanan/application/rotation_engine.py:426-569 | a sweep reports each popped item exactly once and leaves none of them in the wheel |
| `RotationEngine.SweepOnlyCompresses` | src/dashanan/application/rotation_engine.py:477-569 | only popped active items of the swept zone change, and only to compressed |
| `RotationEngine.PoppedItemIsReported` | src/dashanan/application/rotation_engine.py:477-569 | every popped item is listed as failed, skipped or compressed exactly by what its read, its score against the threshold plus 1e-9, its state and its persist say |
| `RotationEngine.ScheduledAtFirstCrossing` | src/dashanan/application/rotation_engine.py:353-424 | whenever the engine schedules an item, the wheel holds exactly the reported instant, between now and the maximum age: from it on the score is at or below the threshold, and from the cooldown to it above |
| `RotationEngine.PinnedIff` | src/dashanan/application/rotation_engine.py:353-424 | it pins an item exactly if the item still scores the threshold at its maximum age, or would at the recency of the float guard |
| `RotationEngine.PinnedIsOutOfWheel` | src/dashanan/application/rotation_engine.py:353-424 | whenever it pins an item, the item is out of the wheel and scores above the threshold until the maximum age |
| `RotationEngine.RefusedIff` | src/dashanan/application/rotation_engine.py:353-424 | it refuses a rate or a weight that is not positive, and otherwise at most a blank id, and then changes nothing |
| `RotationEngine.ScheduledItemIsCompressedIff` | src/dashanan/application/rotation_engine.py:353-569 | whatever else is scheduled, pinned and swept in its zone, before and in the same sweep, an item scheduled from its score is compressed by its tenant's sweep from the deadline on if and only if no sweep before took one of the entries it was scheduled with and the item can be read and persisted |
| `RotationEngine.EarlySweepTakesIffImpostor` | src/dashanan/domain/rotation_timer_wheel.py:137-170 | before the deadline a sweep takes the item exactly because of an orphaned entry that poses as it |
| `RotationEngine.RescheduledItemIsForgotten` | src/dashanan/application/rotation_engine.py:426-569 | a concrete run: scheduled, invalidated and scheduled again, the item is popped early, skipped, and left active when its deadline comes |
| `RotationEngine.RotationEngine.RunSweep` | src/dashanan/application/rotation_engine.py:426-569 | the sweep over the zone's own wheel is the specified one, leaves other zones alone, and publishes each compression once, in order |
| `RotationEngine.RotationEngine.ScheduleOrPin` | src/dashanan/application/rotation_engine.py:353-424 | inserts the computed deadline or invalidates the item, in its own zone's wheel only |
| `ArchiveEngine.SweepAccountsForEveryCandidate` | src/dashanan/application/archive_engine.py:510-594 | a sweep that returns reports every candidate as often as it was named, under archived, deferred, skipped or failed |
| `ArchiveEngine.CandidateIsMarkedIff` | src/dashanan/application/archive_engine.py:681-728 | a candidate named once is handed to Zone 8 exactly if it can be read, is compressed, scores at most 0.25 (plus 1e-9), and could be persisted as archived |
| `ArchiveEngine.ArchivedItemsReadBackIff` | src/dashanan/application/archive_engine.py:510-594 | after any run of Zone 8, torn writes included, every archived item was compressed, is archived at its source, and has a manifest row; it reads back as its payload if and only if, before the sweep, the blob was absent or long enough |
| `ArchiveEngine.MarkedItemHasRowIffLands` | src/dashanan/application/archive_engine.py:510-594 | a marked item is archived at its source whatever Zone 8 answers; it gets a row and is reported archived exactly when the batch lands, and is otherwise deferred or, when Zone 8 raises, not reported |
| `ArchiveEngine.UnlandedItemIsStranded` | src/dashanan/application/archive_engine.py:359-385 | an item of a batch that does not land, deferred or raised, has no row and is never marked by any later sweep |
| `ArchiveEngine.ArchivedIsNeverMarkedAgain` | src/dashanan/application/archive_engine.py:703-712 | archived is terminal over any later sweeps |
| `ArchiveEngine.FastTrackIsSweepOfOne` | src/dashanan/application/archive_engine.py:596-679 | the fast track is exactly a weekly sweep of one candidate, with deferred read as skipped |
| `ArchiveEngine.ArchiveEngine.RunWeeklyArchiveSweep` | src/dashanan/application/archive_engine.py:447-594 | marks everything first and then writes one batch; publishes exactly the archived items |
| `ArchiveEngine.ArchiveEngine.FastTrackArchive` | src/dashanan/application/archive_engine.py:596-679 | the single-item path with its early returns |
| `TimerWheel.PopIsComplete` | src/dashanan/domain/rotation_timer_wheel.py:137-170 | every live item whose deadline has passed is popped once, in ascending order, and all others keep their schedule |
| `TimerWheel.PopOrder` | src/dashanan/domain/rotation_timer_wheel.py:137-170 | popped entries come by deadline, those of one deadline by generation, and those of one generation by item id |
| `TimerWheel.PopIsExactIffNoImpostor` | src/dashanan/domain/rotation_timer_wheel.py:137-170 | a pop returns exactly the due entries if and only if no orphaned entry poses as a live one |
| `TimerWheel.EveryPopAgrees` | src/dashanan/domain/rotation_timer_wheel.py:93-170 | over any run whose counters restart only without orphans, every pop agrees with the plain item-to-deadline map |
| `TimerWheel.RestartedCounterPopsEarly` | src/dashanan/domain/rotation_timer_wheel.py:113-134 | a concrete run in which a restarted counter pops an item before its deadline, and at its deadline nothing |
| `TimerWheel.KeptCountersAreExact` | src/dashanan/domain/rotation_timer_wheel.py:93-116 | with counters that are never reset, every pop of every run is exact |
| `TimerWheel.RotationTimerWheel.PopDue` | src/dashanan/domain/rotation_timer_wheel.py:137-170 | the while loop is the specified pop |
| `TimerWheel.RotationTimerWheel.Size` | src/dashanan/domain/rotation_timer_wheel.py:84-91 | counts the live items, not the heap entries |
| `RotationDeadline.DeadlineIsFirstCrossing` | src/dashanan/domain/rotation_deadline.py:137-158 | the deadline lies in [0, max age] and is the first instant after the cooldown at which the decayed score is at or below the threshold |
| `RotationDeadline.DeadlineIsClampedCrossing` | src/dashanan/domain/rotation_deadline.py:137-158 | it is the crossing time pushed past the cooldown and cut at the maximum age |
| `RotationDeadline.ScheduledIffAboveFloor` | src/dashanan/domain/rotation_deadline.py:137-158 | an item is scheduled exactly when its crossing recency is above the floor |
| `RotationDeadline.SecondPinIsUnreachable` | src/dashanan/domain/rotation_deadline.py:150-156 | over the reals the second pin branch is never taken |
| `RotationDeadline.PinnedStaysAbove` | src/dashanan/domain/rotation_deadline.py:137-148 | a pinned item stays above the threshold while its recency is above the floor |
| `RotationDeadline.PinnedUntilMaxAge` | src/dashanan/domain/rotation_deadline.py:137-148 | unless the float guard exceeds the recency at the maximum age, that is every instant before the maximum age |
| `RotationDeadline.DeadlineMeetsSweep` | src/dashanan/application/rotation_engine.py:495-503 | at or after its deadline an unchanged item passes the sweep's re-score guard; after its cooldown and before it the score is above the threshold |
| `WriteGate.EffectsAtMostOnce` | src/dashanan/application/provenance_write_gate.py:311-483 | under any interleaving of concurrent and re-entrant calls and any restarts each key is journaled and run at most once, the run after its entry, and all acceptances carry that entry's id |
| `WriteGate.RunIsSound` | src/dashanan/application/provenance_write_gate.py:341-483 | the lock, journal, event and token invariants hold in every reachable state |
| `WriteGate.TenantIsBounded` | src/dashanan/application/provenance_write_gate.py:240-259 | a tenant's journal entries are at most its capacity, once more for every restart, plus rate times forward clock movement, and its tokens stay within [0, capacity] |
| `WriteGate.EntriesAreBounded` | src/dashanan/application/provenance_write_gate.py:240-259 | the same bound said of the journal itself: the tenant's entries are at most the capacity times one more than the restarts, plus the rate times the seconds by which the clock was ahead whenever the tenant's bucket was consulted |
| `WriteGate.SoloRunIsSubmitWrite` | src/dashanan/application/provenance_write_gate.py:347-483 | a call nobody interrupts does exactly what the sequential decision says |
| `WriteGate.AcceptedIffRan` | src/dashanan/application/provenance_write_gate.py:452-483 | over any interleaving and any restarts, an accepted write's callback had been run before, with that id, exactly unless the append for its key raised after its entry became durable or the process died between that append and the callback |
| `WriteGate.EveryTokenIsAccountedFor` | src/dashanan/application/provenance_write_gate.py:363-470 | over any interleaving, every token a tenant spent is one journal entry, one call in flight, or one call refused after paying, whose append was lost, or cut off by a restart; replays spend nothing |
| `WriteGate.LaterCallIsAnsweredFromEntry` | src/dashanan/application/provenance_write_gate.py:363-402 | once a key has an entry, at any later point of any interleaving a call for it is answered from that entry and journals, spends and runs nothing |
| `WriteGate.ReplayReturnsFirstAnswer` | src/dashanan/application/provenance_write_gate.py:363-402 | sequentially: submitting a journaled request again accepts it with the entry's id and time and changes nothing, even if the callback never ran |
| `WriteGate.RefusalsHaveNoEffect` | src/dashanan/application/provenance_write_gate.py:404-470 | within one submission, replays and rejections journal and run nothing |
| `WriteGate.EntriesWereAttested` | src/dashanan/domain/write_gate.py:266-317 | over any interleaving and any restarts, every journal entry repeats, field by field, a request with a caller and a context hash; a user-stated one had the marker and an attestation whose key is known, at most 300 seconds old and not from the future when checked, and signed over exactly that request's fields |
| `WriteGate.NewSubmissionIs` | src/dashanan/application/provenance_write_gate.py:404-483 | the whole answer to a submission under a new key: which refusal, in which order of checks, with the token spent and nothing journaled; or journaled as submitted, unless the append is lost, and run; a user-stated request with the marker is forged exactly if it is not attested |
| `WriteGate.LaterCallIsAcceptedIff` | src/dashanan/application/provenance_write_gate.py:288-309 | once a key has an entry, a later call is accepted with its id and time exactly if the request repeats the entry in every field, and is a reuse of the key otherwise |
| `WriteGate.ProvenanceWriteGate.SubmitWriteWithinLock` | src/dashanan/application/provenance_write_gate.py:347-483 | the method is the sequential decision |
| `WriteGateProgress.CallsReturnIffNotDeadlocked` | src/dashanan/application/provenance_write_gate.py:262-345 | in every reachable state, however the calls under way are taken on, once none can be taken on further a thread's calls have all returned if and only if it does not wait into a set of threads that wait only on one another; and boundedly many steps get there |
| `WriteGateProgress.DeadlockStays` | src/dashanan/application/provenance_write_gate.py:341-345 | a deadlocked thread stays so whatever the others do |
| `WriteGateProgress.FlatCallsNeverDeadlock` | src/dashanan/application/provenance_write_gate.py:262-289 | while no callback submits a write there is no deadlock |
| `WriteGateProgress.CrossedCallbacksDeadlock` | src/dashanan/application/provenance_write_gate.py:341-345 | from every state in which two threads are in their callbacks, each submitting under the other's key deadlocks both |
| `WriteGateProgress.DeadlockIsReachable` | src/dashanan/application/provenance_write_gate.py:341-483 | such a state is reached by any two valid requests of two tenants |
| `TokenBucket.AdmissionsAreBounded` | src/dashanan/domain/write_rate_limiter.py:108-142 | over any readings, admissions are at most capacity plus rate times total forward movement |
| `TokenBucket.BurstIsAdmitted` | src/dashanan/domain/write_rate_limiter.py:108-142 | a burst at one instant is admitted up to the whole tokens of the capacity, and not one more |
| `TokenBucket.WaitingIsAdmitted` | src/dashanan/domain/write_rate_limiter.py:108-142 | whatever happened before, a caller who waits until one token has come in is let through |
| `TokenBucket.SteadyClockMeetsEndToEndBound` | src/dashanan/domain/write_rate_limiter.py:108-142 | for every clock that never steps back, admissions are at most capacity plus rate times elapsed time from first to last reading |
| `TokenBucket.ForwardIsEndToEndIff` | src/dashanan/domain/write_rate_limiter.py:133-142 | forward movement is end-to-end time exactly when the clock never steps back |
| `TokenBucket.EndToEndBoundHoldsIff` | src/dashanan/domain/write_rate_limiter.py:108-142 | for any readings, admissions are at most capacity plus rate times elapsed time for every bucket if and only if the clock never steps back |
| `TokenBucket.ClockStepBackAdmitsMore` | src/dashanan/domain/write_rate_limiter.py:133-142 | a clock that swings back and forth admits once more at every swing, without limit, while the end-to-end allowance stays at two |
| `AliasTrie.AliasTrie.ApplyAll` | src/dashanan/domain/entity_alias_trie.py:53-87 | after any sequence of inserts and removes the tree registers exactly what a plain set of pairs would |
| `AliasTrie.LastChangeDecides` | src/dashanan/domain/entity_alias_trie.py:53-87 | a pair is registered exactly if it was inserted, under an alias that is not empty and for an entity that is not blank, and not removed since |
| `AliasTrie.AliasTrie.ExactMatch` | src/dashanan/domain/entity_alias_trie.py:89-104 | returns exactly the entities registered under the term |
| `AliasTrie.AliasTrie.PrefixSearch` | src/dashanan/domain/entity_alias_trie.py:106-120 | returns exactly the entities registered under any alias with the prefix |
| `AliasTrie.AliasTrie.Insert` | src/dashanan/domain/entity_alias_trie.py:53-72 | adds exactly one pair, or refuses an empty alias or a blank entity |
| `AliasTrie.AliasTrie.Collect` | src/dashanan/domain/entity_alias_trie.py:131-135 | gathers exactly the subtree's entities |
| `AliasTrie.TreeIsAcyclicAndUnshared` | src/dashanan/domain/entity_alias_trie.py:28-36 | no node is its own descendant and no node has two parents |
| `CircuitBreaker.RingIsRecentWindow` | src/dashanan/infrastructure/circuit_breaker.py:168-183 | in every reachable state the ring is the last outcomes since the last trip or close, and the baseline the last successes that a full ring pushed out |
| `CircuitBreaker.ClosedMeansHealthy` | src/dashanan/infrastructure/circuit_breaker.py:210-225 | closed with a full ring means both rates are below their thresholds |
| `CircuitBreaker.TripsIff` | src/dashanan/infrastructure/circuit_breaker.py:168-225 | in every reachable state that is not half-open a report trips the breaker if and only if the ring is full with it and at least the threshold share of its places hold failures, or, with five samples in the baseline, successes slower than the multiple of its nearest-rank percentile; otherwise the report is remembered and nothing else changes |
| `CircuitBreaker.P99IsNearestRank` | src/dashanan/infrastructure/circuit_breaker.py:227-238 | the slow-call threshold is the nearest-rank 99th percentile of the baseline |
| `CircuitBreaker.ProbesAreBounded` | src/dashanan/infrastructure/circuit_breaker.py:124-146 | one half-open episode lets at most the configured number of probes through |
| `CircuitBreaker.ProbeIsLetThroughIff` | src/dashanan/infrastructure/circuit_breaker.py:124-146 | and lets a call through exactly while fewer have been |
| `CircuitBreaker.ClosingNeedsEveryProbe` | src/dashanan/infrastructure/circuit_breaker.py:148-157 | the breaker closes only after an episode with every required success reported and no failure |
| `CircuitBreaker.ClosesOnItsProbesIff` | src/dashanan/infrastructure/circuit_breaker.py:124-157 | given which call each report is about, the episode closed on its own probes alone, as many as it needs and all of them reported, exactly if none of its reports was about an earlier call |
| `CircuitBreaker.LateReportsClose` | src/dashanan/infrastructure/circuit_breaker.py:148-157 | a run in which two late reports close it although its only probe has not come back |
| `CircuitBreaker.ReportsDecideEpisode` | src/dashanan/infrastructure/circuit_breaker.py:124-166 | whatever is asked and reported after the call that reopens it, the breaker is half-open until the required successes or a failure are in, and then closed exactly when there was no failure |
| `CircuitBreaker.AskingAloneIsStuck` | src/dashanan/infrastructure/circuit_breaker.py:142-146 | with its probes used up, half-open is left only by a report |
| `CircuitBreaker.RetryAfterIsTheLeastWait` | src/dashanan/infrastructure/circuit_breaker.py:185-200 | from any reachable open state the reported seconds are the fewest whole seconds that make the next call pass |
| `CircuitBreaker.BackoffDoublesWithTrips` | src/dashanan/infrastructure/circuit_breaker.py:240-255 | the exponent counts the trips since the breaker last closed |
| `CircuitBreaker.ReopensAfterWait` | src/dashanan/infrastructure/circuit_breaker.py:124-146 | from any reachable open state the next call goes through, as the first probe, exactly once the base wait, doubled with each trip after the first since the breaker last closed and at most the maximum, has passed |
| `CircuitBreaker.CircuitBreaker.Allow` | src/dashanan/infrastructure/circuit_breaker.py:124-146 | the method is the specified transition |
| `CircuitBreaker.CircuitBreaker.RecordSuccess` | src/dashanan/infrastructure/circuit_breaker.py:148-157 | the method is the specified transition |
| `CircuitBreaker.CircuitBreaker.RecordFailure` | src/dashanan/infrastructure/circuit_breaker.py:159-166 | the method is the specified transition |
| `CircuitBreaker.CircuitBreaker.RetryAfterSeconds` | src/dashanan/infrastructure/circuit_breaker.py:185-200 | the method is the specified value |
| `ContextAssembly.GreedyFallsShortBy` | src/dashanan/application/context_assembly_builder.py:83-109 | for any scores, no feasible choice beats the fill by more than the first skipped candidate and what the items below zero it took cost |
| `ContextAssembly.GreedyIsNearOptimal` | src/dashanan/application/context_assembly_builder.py:83-109 | so with non-negative scores no feasible choice beats the fill by more than the first skipped candidate, and none beats it when nothing was skipped |
| `ContextAssembly.FillFits` | src/dashanan/application/context_assembly_builder.py:98-109 | the fill stays within the budget and every skipped candidate is larger than what is left |
| `ContextAssembly.FillPartitions` | src/dashanan/application/context_assembly_builder.py:98-109 | every candidate is taken or skipped, never both |
| `ContextAssembly.UnskippedFillIsOptimalIff` | src/dashanan/application/context_assembly_builder.py:83-109 | when nothing was skipped, no feasible choice beats the fill if and only if no candidate scores below zero |
| `ContextAssembly.ContextAssemblyBuilder.Build` | src/dashanan/application/context_assembly_builder.py:57-81 | refuses missing identifiers; otherwise returns the fill, its token total and the degradation flag |
| `Encodings.CanonicalIsInjective` | src/dashanan/domain/write_gate.py:56-84 | the length-prefixed encoding tells any two field lists apart, of any length and content |
| `Encodings.CanonicalAdds` | src/dashanan/domain/provenance_record.py:31-54 | each field adds its byte length, in ten digits and more only if it takes more, a colon, and its bytes |
| `Encodings.CanonicalizeFields` | src/dashanan/domain/provenance_record.py:31-54 | the loop builds that encoding |
| `Encodings.Utf8Reads` | src/dashanan/domain/provenance_record.py:50-53 | UTF-8 (section 3 of RFC 3629) determines the text |
| `Encodings.CharIsShortest` | src/dashanan/domain/provenance_record.py:50-53 | a character takes the fewest bytes that hold its code point, all but the first continuation bytes (section 3 of RFC 3629) |
| `Encodings.AttributeIdsAreInjective` | src/dashanan/application/conflict_aware_zone_writes.py:141-152 | an attribute's item id determines its entity and name |
| `Encodings.EdgeIdsAreInjective` | src/dashanan/application/conflict_aware_zone_writes.py:155-167 | an edge's item id determines its three parts |
| `Encodings.EdgeIdsAreNotAttributeIds` | src/dashanan/application/conflict_aware_zone_writes.py:141-167 | no edge shares its id with an attribute |
| `Encodings.JoinedReads` | src/dashanan/application/conflict_aware_zone_writes.py:141-167 | an item id decodes to the components it was built from |
| `Encodings.FactIdsCollideIff` | src/dashanan/application/conflict_aware_zone_writes.py:170-177 | a general fact's id equals an edge's, or an attribute's, exactly when it reads as three, or two, length-prefixed components |
| `Encodings.SomeFactIsTakenForEdge` | src/dashanan/application/conflict_aware_zone_writes.py:155-177 | such a fact id exists |
| `Encodings.EpisodeIdRoundTrip` | src/dashanan/domain/episode.py:149-199 | an episode id parses back to its key if and only if the session id has no colon |
| `Encodings.ParseSplits` | src/dashanan/domain/episode.py:168-199 | parsing splits at the last two colons, and refuses empty parts and a last part that is no number or a negative one |
| `Encodings.IntReads` | src/dashanan/domain/episode.py:186-199 | a last part of digits is read with its sign and without the white space around it |
| `ProvenanceChain.LastHashFixesLineage` | src/dashanan/domain/provenance_record.py:443-486 | two verified lineages that start a chain and end in one hash have equal length and agree on every hashed field, confidence to ten decimals, unless they exhibit a collision |
| `ProvenanceChain.VerifyChain` | src/dashanan/domain/provenance_record.py:443-486 | true exactly when every record hashes to what it says and names its predecessor's hash |
| `ProvenanceChain.RewriteVerifiesIff` | src/dashanan/domain/provenance_record.py:443-486 | records rewritten under their stored hashes still verify exactly if every hashed field of every record is unchanged, unless there is a collision |
| `ProvenanceChain.RewrittenHistoriesVerify` | src/dashanan/domain/provenance_record.py:218-246 | update histories can be rewritten at will without verification noticing |
| `ProvenanceChain.FieldsDetermineContent` | src/dashanan/domain/provenance_record.py:202-246 | the hashed field list determines every field it is meant to cover, whatever the number of references |
| `ProvenanceChain.TenthsIsNearest` | src/dashanan/domain/provenance_record.py:231-246 | confidence is hashed as the nearest multiple of the tenth decimal, the even one of two equally near |
| `ProvenanceChain.CreatedRecordExtendsChain` | src/dashanan/domain/provenance_record.py:349-429 | a created record extends a verified lineage exactly when it was given the last record's hash |
| `ProvenanceChain.CreatedIff` | src/dashanan/domain/provenance_record.py:319-429 | creation succeeds exactly for well-formed fields whose confidence can be computed |
| `ProvenanceChain.ConfidenceIsFraction` | src/dashanan/domain/provenance_record.py:111-170 | confidence lies in [0, 1] and is refused exactly for a negative generation or a summary without sources |
| `ProvenanceChain.ConfidenceIs` | src/dashanan/domain/provenance_record.py:103-170 | in closed form: base by source type, less 0.3 for a dispute and 0.2 for a failed check, times nine tenths to the number of compressions, cut to [0, 1] |
| `ProvenanceChain.ConfidenceOnlyFalls` | src/dashanan/domain/provenance_record.py:103-170 | confidence falls with a dispute, with a failed check and with every further compression, in any combination, even from a negative modified base |
| `ConflictSweep.UndisputedWereAcknowledged` | src/dashanan/application/conflict_detection_sweep.py:107-176 | over any run every stored undisputed record was the first active one of its item or named the then-latest active record |
| `ConflictSweep.ConflictAddsTwoDisputed` | src/dashanan/application/conflict_detection_sweep.py:120-174 | an unacknowledged claim is stored exactly when both disputed records can be created and inserted, and then adds exactly those two, the first chained by id and hash to the record it contradicts |
| `ConflictSweep.ConflictAddsOnlyDisputed` | src/dashanan/application/conflict_detection_sweep.py:120-174 | stored or not, it adds at most two records, all disputed, and touches none stored before |
| `ConflictSweep.ConflictKeepsChainIff` | src/dashanan/application/conflict_detection_sweep.py:137-174 | a lineage that verified before a stored conflict verifies after it exactly if the contradicted record was its last and the claim carried the hash of the correction still to be written |
| `ConflictSweep.ConflictBreaksChain` | src/dashanan/application/conflict_detection_sweep.py:158-174 | a claim that names no predecessor hash, or the hash of any stored record, always breaks it |
| `ConflictSweep.ContradictsTheLatestActive` | src/dashanan/domain/conflict_detection.py:77-110 | the contradicted record is the item's latest active one, exactly when the claim does not name it |
| `ConflictSweep.ContradictsTheLastWritten` | src/dashanan/domain/conflict_detection.py:55-110 | read in write order, it is the last stored record of the claim's own tenant and item that is not invalidated, unless the claim names it |
| `ConflictSweep.UnhashedFieldDecidesConflict` | src/dashanan/domain/conflict_detection.py:77-110 | whether a record is contradicted is decided by its first update entry alone, which leaves its hash unchanged |
| `ConflictSweep.HistoryOnlyGrows` | src/dashanan/application/conflict_detection_sweep.py:107-176 | stored history only grows at its end |
| `ConflictSweep.SummariesCannotBeDisputed` | src/dashanan/domain/provenance_record.py:153-160 | the disputed pair can be created exactly when neither record is a summary |
| `ConflictSweep.SummaryClaimIsLost` | src/dashanan/application/conflict_detection_sweep.py:137-174 | a contradicting summary marks the true record disputed and is itself lost |
| `ConflictSweep.StoredConfidenceFallsIff` | src/dashanan/application/conflict_detection_sweep.py:158-174 | the stored disputed claim has no more confidence than the claim came with exactly up to a number of compressions per source type and check; for one already disputed, only if it was neither compressed nor failed |
| `ConflictSweep.LatestActiveRecord` | src/dashanan/domain/conflict_detection.py:55-74 | the backwards search finds the last record that is not invalidated |
| `ConflictSweep.ConflictDetectingProvenanceRepository.AppendRecord` | src/dashanan/application/conflict_detection_sweep.py:107-176 | the method is the specified append |
| `ConflictInterleaving.AcknowledgedIffNoneStale` | src/dashanan/application/conflict_detection_sweep.py:107-176 | over any interleaving of reads and inserts, every stored undisputed record was the first active one of its item or named the then-latest active one, if and only if no claim was inserted on a decision gone stale |
| `ConflictInterleaving.SeparateAppendsHaveNoRivals` | src/dashanan/application/conflict_detection_sweep.py:107-176 | appends that do not overlap on an item never store two undisputed claims on one predecessor, however appends to other items are interleaved |
| `ConflictInterleaving.SerialAppendsHaveNoRivals` | src/dashanan/application/conflict_detection_sweep.py:107-176 | nor do appends made one after the other |
| `ConflictInterleaving.OverlapStoresRivals` | src/dashanan/application/conflict_detection_sweep.py:116-176 | from every state in which two uncontradicted appends on one predecessor overlap, their inserts store both undisputed |
| `ConflictInterleaving.OverlapIsReachable` | src/dashanan/application/conflict_detection_sweep.py:116-119 | two reads before either insert reach such a state |
| `ConflictInterleaving.UndisturbedAppend` | src/dashanan/application/conflict_detection_sweep.py:107-176 | an append nobody interleaves with is the sequential one |
| `ConflictInterleaving.ClaimFollowsCorrection` | src/dashanan/application/conflict_detection_sweep.py:137-174 | over any interleaving, when a contradicted claim goes in its correction has been stored before, exactly once |
| `CapacityBackstop.PlanIsAscending` | src/dashanan/domain/zone2_capacity_backstop.py:306-346 | for distinct ids the plan ascends strictly by rank and names no item twice |
| `CapacityBackstop.VictimsAre` | src/dashanan/domain/zone2_capacity_backstop.py:248-303 | an item is selected exactly when it is among the lowest-ranked excess or an expired compressed item |
| `CapacityBackstop.VictimsRankBelowSurvivors` | src/dashanan/domain/zone2_capacity_backstop.py:248-272 | every victim that has not expired ranks below every survivor, and no survivor has expired |
| `CapacityBackstop.PlanIsByScore` | src/dashanan/domain/zone2_capacity_backstop.py:241-346 | on the fields: the plan goes from the lowest score, then the earliest write, then the smallest id; an unexpired victim goes before every survivor in that order; and an item is evicted for its age exactly when it is compressed and older than the limit |
| `CapacityBackstop.SurvivorsFit` | src/dashanan/domain/zone2_capacity_backstop.py:306-346 | without its victims the zone is within its cap |
| `CapacityBackstop.NoMoreThanTheExcess` | src/dashanan/domain/zone2_capacity_backstop.py:248-272 | the unexpired victims are at most the excess |
| `CapacityBackstop.PlanTagsExpired` | src/dashanan/domain/zone2_capacity_backstop.py:333-346 | an item is tagged with its age exactly when it has expired, whichever trigger found it first |
| `CapacityBackstop.SweepFitsTheZone` | src/dashanan/application/zone2_capacity_backstop_sweep.py:433-493 | after a sweep the zone holds at most its cap plus the evictions that failed or were not reached, and no expired item but those |
| `CapacityBackstop.DecisionIsSafe` | src/dashanan/application/zone2_capacity_backstop_sweep.py:495-526 | with ports failing at any call, before or after taking effect, an item leaves Zone 2 only after Zone 6 and its obligation clears only when gone from both |
| `CapacityBackstop.UndisturbedDecisionEvicts` | src/dashanan/application/zone2_capacity_backstop_sweep.py:495-526 | when every port answers, the item leaves Zone 2 and both search surfaces, its obligation is cleared, and nothing else changes |
| `CapacityBackstop.DecisionFailsIff` | src/dashanan/application/zone2_capacity_backstop_sweep.py:495-526 | a decision fails exactly if a port it reaches raises |
| `CapacityBackstop.SweepIsSafe` | src/dashanan/application/zone2_capacity_backstop_sweep.py:443-493 | the same over a whole sweep, wherever an uncaught error or a death stops it; an item not evicted is still in Zone 2 or gone everywhere |
| `CapacityBackstop.ErasuresStayPendingUntilGone` | src/dashanan/infrastructure/dpdp_erasure_cascade.py:197-240 | over any run, also when items are written again, nothing searchable outlives Zone 2 and an obligation is still pending or was cleared when its item was gone everywhere |
| `CapacityBackstop.DecisionStrandsIff` | src/dashanan/infrastructure/dpdp_erasure_cascade.py:226-240 | a decision leaves an item gone with its obligation pending exactly when the cascade's last removal raised after taking effect, or the clearing raised or was cut off before it did |
| `CapacityBackstop.StrandedObligationStays` | src/dashanan/application/zone2_capacity_backstop_sweep.py:433-493 | such an obligation is never cleared by any later sweep over what Zone 2 holds |
| `CapacityBackstop.Zone2CapacityBackstopSweep.PlanEviction` | src/dashanan/domain/zone2_capacity_backstop.py:306-346 | filling the two dictionaries trigger by trigger gives the specified plan |
| `CapacityBackstop.Zone2CapacityBackstopSweep.RunSweep` | src/dashanan/application/zone2_capacity_backstop_sweep.py:389-493 | carries out the plan in order, as far as it gets, and announces exactly what was evicted |
| `CapacityBackstop.CrossZoneDpdpErasureCascade.FulfilPendingErasure` | src/dashanan/infrastructure/dpdp_erasure_cascade.py:197-240 | the method is the specified cascade, with the obligation cleared last |
| `Sorting.SortedIsOrdered` | src/dashanan/domain/zone2_capacity_backstop.py:268-272 | sorting yields the same elements in order |
| `Sorting.SortedIsStable` | src/dashanan/application/context_assembly_builder.py:90-97 | ties keep their original order |
| `SourceTypes.ResolvesIffNamed` | src/dashanan/domain/write_gate.py:100-128 | a spelling resolves exactly when it is a type's own name |

## Left out

- Floating point: rounding, and the rounding of timedeltas to microseconds; arithmetic is over the reals.
- Python's `heapq` and `sorted`: the heap is a sequence kept sorted, and sorting is a stable insertion sort.
- SQL adapters, files, HTTP routes, logging and event delivery: a port is a parameter saying how each call ends.
- The order in which SQL returns provenance records: any order is allowed, as a parameter, and the results hold for all.
- The best-effort subject index write of the archive engine: its failures are swallowed and change no outcome.
- Item removal during a rotation or archive sweep: the lifecycle model has no step that deletes an item.
- Key bytes, nonces and HMAC: a key is named by the order in which it was generated, and sealing and signing are parameters.
- The text of the correction's change entry is not reproduced exactly; it is not hashed.
- `int()` on non-ASCII digits in an episode id's last segment.
- The six-term score's individual term formulas other than recency, which are short algebra.
- Zone 4's backstop, which repeats Zone 2's plan, and the thin delegation modules around these components.
- ConflictSweep.SummaryClaimIsLost: stated for a reachable store whose keys are free, which is when the code gets that far.
- ConflictSweep.ConflictKeepsChainIff: about the lineage in the order it was written, with both inserts going through.
- WriteGate.AcceptedIffRan: about the callback's start; one that raised, was cut off by a restart, or is still running when a nested call is answered, counts as run.
- ConflictInterleaving.SeparateAppendsHaveNoRivals: the part about rivals is for a store that returns records in the order they were written, as sorting by timestamp does when timestamps do not go back.
- A finalize transaction or a zone's persist that raises after taking effect; for the former a death right after the commit leaves the same state.
