# Verified model of the bundle sync engine

The package syncs a signed, content-addressed bundle into a browser. It must never accept an older
release, and it must survive crashes, concurrent transfers and several tabs. This project models the
parts of it that carry those promises and proves them with Dafny 4.11. `dafny verify dfyconfig.toml`
checks everything.

| module | what it models |
|---|---|
| `Floor` | the durable pointer, the anti-rollback floor beside it, and the one gate all writers share |
| `ChunkStore`, `StoreAgreement` | the SQLite chunk store with its ingest buffer, against a plain map |
| `Migration`, `MigrationManifests`, `MigrationIdentity`, `LegacyLayout` | the crash-resumable move from the older stores, the manifests it carries, what its restarts do to the identity at the floor, and both for the two stores the library ships with, deleted entry by entry |
| `SessionFloor`, `Scheduler` | which floor a session runs under, and how operations are queued into sessions |
| `Fetch`, `Progress` | the concurrent fetch under one byte budget, its retries and its progress reports |
| `BoundedMap`, `ChunkReader` | the bounded map, and the shared reader with its semaphore and single flight |
| `PointerJson`, `Release`, `Manifest`, `SyncIndex` | the gate from a signed pointer to a promoted release |
| `Transfer`, `Reassembly` | the concurrent fetch, and the concurrent rebuild of all files, over one store: what `SyncIndex` says of them one by one holds in every interleaving |
| `Canonical`, `Utf` | canonical JSON (the signed preimage) and a parser that inverts it |
| `Zstd` | the walk over one Zstandard frame |
| `SqlEngine`, `SqlClient`, `SqlIsolation`, `SqlOrder` | interactive SQL transactions between the main thread and the Worker |
| `SqlCommits`, `SqlRequests` | which statements end up committed, and which requests are posted |
| `OpfsLock`, `Serializer` | Web Locks and sync access handles of the OPFS proxy, and its argument buffer |
| `StateStore`, `StatePages` | the versioned state store and its keyset pagination |
| `Prelude`, `Sums` | shared value types, and sums over sequences |

How it is modelled. Hashing, signature checks, decompression and JSON parsing of bytes are arbitrary
functions, so every statement holds whatever they are. A SQLite transaction is one step that commits
whole or not at all, and may be refused. Code with `await` is a state machine in which every await lets
any other worker, caller or tab run; a proved statement covers every interleaving. Objects that update
their fields are classes whose methods are proved against functions on the object's value, and the
lemmas are about those functions.

What was found. Where a claim one would like to make is not true of the code, the code is modelled as
it is, a lemma gives an input, and another gives the exact condition:

- A read with a wrong size evicts a good chunk from the SQLite store (`StoreAgreement.ReadKeepsContentsIff`).
- Whether slot selection throws depends on the order of the slots, and with it whether the highest one
  may be served; the floor does not (`Floor.ServingAfterMergeDependsOnOrder`). When neither can happen in
  any order is said exactly by `Floor.NoOrderThrowsExactly` and `Floor.OrderMattersExactly`.
- A restart between two removals of a migration keeps floor and chunks but can lose the identity at the
  floor, and with it the release served. For any list of sources, each removed in one step,
  `MigrationIdentity.IdentitySurvivesExactly` says from the sources when no restart does. The shipped OPFS
  store is not removed in one step: its entries are deleted one by one, so each of them counts as a source,
  and IndexedDB, deleted by one transaction, as the last. There it happens exactly if `active.a` and
  `active.b` disagree at one sequence while the IndexedDB pointer is at the floor
  (`LegacyLayout.ShippedIdentitySurvivesExactly`; `LegacyLayout.RestartMayForgetIdentity` is a run).
- A crash in that deletion can leave a torn `active.b` without the `active.a` that made up for it; every
  later session then finds the floor unreadable, until a reset. It happens exactly if `active.b` is the
  torn one of the pair (`LegacyLayout.RestartsCanReadExactly`, `LegacyLayout.UnreadableStopsTheMove`).
- A top-level `__proto__` property is not covered by a pointer's signature (`Canonical.ProtoIsNotSigned`;
  `Canonical.SigningBytesAgree` says exactly what is).
- A Frame_Content_Size above 2^53 is rounded (`Zstd.LargeDeclarationsAreRounded`), and so are version
  components (`Release.LargeComponentsCollide`), exactly unless they are multiples of the spacing of
  doubles there (`Zstd.SizesReadExactly`, `Release.ComponentsReadExactly`).
- A release whose version does not parse lets a later one go back behind an earlier one by a rising
  counter alone (`Release.AnUncomparableVersionHidesADowngrade`); around such a release nothing but the
  counters decides (`Release.OnlyCountersDecideAround`).
- A plain SQL call can overtake an earlier one that still waits behind a finished transaction
  (`SqlOrder.OvertakingHappens`); order is kept exactly as long as no overtaken call is posted after all
  (`SqlOrder.OrderIsKeptExactly`), for a close may cancel it first (`SqlOrder.ACancelledCallMayBeOvertaken`).
- A refused downgrade in the OPFS proxy leaves a lock type behind, so that a later read takes a handle no
  lock accounts for (`OpfsLock.ARefusedDowngradeLeavesAHandle`).
- A string that begins with U+FEFF loses it in the OPFS argument buffer, and 256 arguments read back as
  none (`Serializer.RoundTripsExactly`, `Serializer.NothingToRead`).
- A change built on epoch 2^53 - 1 makes the state store unusable for good, and one accepted import is
  enough (`StateStore.StaysUsableExactly`, `StateStore.OneImportExhausts`).
- Listing by prefix misses exactly the keys that continue with U+10FFFF
  (`StatePages.PrefixFindsExactly`).
- An operation that arrives between a drain's last look at its queue and the clearing of `#draining` is
  stranded (`Scheduler.LateArrivalsAreStranded`).
- A legacy floor written after the migration is done, or a database that opens to another Worker after one
  fell back to memory, is not looked at; and when the migration's own state cannot be read a session runs
  without the legacy floor (`SessionFloor.FloorsAreEnforcedExactly` and the three lemmas at its end).

## Model

| member | source | states |
|---|---|---|
| `Floor.SelectHighestPointer` | src/engine/activePointer.ts:87-124 | the loop over the durable slots computes the fold that the next two lemmas are about |
| `Floor.SelectionIsTheLeader` | src/engine/activePointer.ts:87-124 | a selection is the first slot with the highest sequence, and nothing only when all slots are empty |
| `Floor.ThrowsExactlyOnATie` | src/engine/activePointer.ts:109-117 | it throws if and only if some slot ties with the leader of the slots before it and is another release |
| `Floor.MergeRaisesToMaximum` | src/engine/sqliteStore.ts:472-506 | merging legacy slots leaves the floor at the maximum of the old floor and all slots, whether the slots agree or not |
| `Floor.MergeFloorIgnoresOrder` | src/engine/sqliteStore.ts:472-506 | any reordering of the slots leaves the same floor |
| `Floor.ServingAfterMergeDependsOnOrder` | src/engine/sqliteStore.ts:472-506 | three slots and two orders of them: one order can serve the highest release and the other cannot |
| `Floor.NoOrderThrowsExactly` | src/engine/activePointer.ts:87-124 | no order of the slots makes the selection throw if and only if slots at one sequence are one release |
| `Floor.OrderMattersExactly` | src/engine/sqliteStore.ts:472-506 | every order of the slots leaves the same floor, identity and served release if and only if they agree, disagree at the top already, lie below the floor, or top out in a release that is refused anyway |
| `Floor.TriggerNeverFires` | src/engine/sqliteStore.ts:79-82 | no write the store itself makes is stopped by the monotonic trigger |
| `Floor.AdmitsExactly` | src/engine/sqliteStore.ts:451-458 | on every row of a run the gate admits anything without a floor, and with one exactly what is above it, or level and of its identity |
| `Floor.ClearsExactly` | src/engine/sqliteStore.ts:265-272 | clearing takes away exactly the pointer that is expected, and never the floor or its identity |
| `Floor.NextIsSound` | src/engine/sqliteStore.ts:247-272 | every transaction, committed or aborted, keeps pointer, floor and identity consistent |
| `Floor.FloorNeverDecreases` | src/engine/sqliteStore.ts:451-506 | over any run of promotions, clears of the active pointer, merges and reads the floor never goes down |
| `Floor.ServedSitsAtTheFloor` | src/engine/sqliteStore.ts:235-240 | at every point of every run a served pointer is exactly at the floor's sequence |
| `Floor.NoForkIsEverServed` | src/engine/sqliteStore.ts:425-459 | two pointers ever served at one sequence >= 0 have the same identity |
| `Floor.LegacyFloorIsEnforced` | src/engine/sqliteStore.ts:328-352 | after a merge nothing below any slot is ever served or promoted, and level with one only the recorded identity |
| `Floor.PromotionRaisesTheFloor` | src/engine/sqliteStore.ts:247-263 | a committed promotion is at or below every later floor |
| `ChunkStore.SqliteCacheStore.PutChunkCompressed` | src/engine/sqliteStore.ts:132-158 | verify, buffer once, flush when due; it throws exactly when the bytes or that flush are refused, and otherwise the chunk is there |
| `ChunkStore.SqliteCacheStore.FlushPending` | src/engine/sqliteStore.ts:161-165 | the buffer goes into the table in one transaction, or stays |
| `ChunkStore.SqliteCacheStore.GetChunk` | src/engine/sqliteStore.ts:167-195 | flush, read the row, verify, evict a row that fails |
| `ChunkStore.SqliteCacheStore.PutManifestBytes` | src/engine/sqliteStore.ts:197-210 | manifest bytes are kept under their own hash |
| `ChunkStore.SqliteCacheStore.GetManifestBytes` | src/engine/sqliteStore.ts:212-230 | what is returned hashes to what was asked for; a row that does not is evicted |
| `ChunkStore.SqliteCacheStore.PromotePointer` | src/engine/sqliteStore.ts:247-263 | one transaction over buffer, presence check, gate and row; it throws exactly when one of them refuses |
| `ChunkStore.SqliteCacheStore.PruneInactive` | src/engine/sqliteStore.ts:278-303 | deletes what the active manifest does not name, or nothing |
| `ChunkStore.SqliteCacheStore.ImportLegacyStore` | src/engine/sqliteStore.ts:328-342 | rows, manifests, merged floor and state in one transaction |
| `ChunkStore.SqliteCacheStore.RaiseFloor` | src/engine/sqliteStore.ts:346-352 | the merged floor alone |
| `ChunkStore.CollectHashes` | src/engine/sqliteStore.ts:517-532 | the nested loops return every hash the manifest names, or nothing if any entry is malformed |
| `StoreAgreement.RunsAgree` | src/engine/sqliteStore.ts:123-342 | after any run of puts, flushes, reads of any size, prunes, promotions, merges and imports, whichever transactions are refused, the buffered store holds what a plain map of hash to plaintext holds that drops a chunk read with a wrong size |
| `StoreAgreement.ExactReadsKeepThePlainMap` | src/engine/memoryStore.ts:21-49 | while reads ask for the real sizes that map is the memory store's, which never drops anything |
| `StoreAgreement.ImportAgrees` | src/engine/sqliteStore.ts:328-342 | an import adds exactly the plaintexts the map has no chunk for |
| `StoreAgreement.ApplyKeepsSound` | src/engine/sqliteStore.ts:146-151 | pendingBytes is always the sum of the buffered bodies, and everything held verifies |
| `StoreAgreement.PutAgrees` | src/engine/memoryStore.ts:21-32 | a put adds exactly the plaintext the plain map adds |
| `StoreAgreement.ReadAgrees` | src/engine/memoryStore.ts:34-49 | a read returns the plain map's plaintext, or fails where that fails |
| `StoreAgreement.ReadKeepsContentsIff` | src/engine/sqliteStore.ts:185-194 | a read keeps the contents if and only if it asks for the stored size or the chunk is absent |
| `StoreAgreement.HeldBodiesAreSingleFrames` | src/engine/zstd.ts:29-41 | everything the store holds is exactly one frame that declares its size, so decoding is bounded |
| `StoreAgreement.PruneAgrees` | src/engine/sqliteStore.ts:278-303 | a prune keeps exactly the chunks the active manifest names, and everything without a readable one |
| `StoreAgreement.PruneKeepsActiveChunks` | src/engine/sqliteStore.ts:282-301 | no chunk of the active manifest is ever dropped |
| `StoreAgreement.PruneManifests` | src/engine/sqliteStore.ts:282-303 | a prune leaves the active manifest alone, with its bytes, when it is readable and nothing fails; otherwise all manifests, but for an active one that looking for it evicts |
| `StoreAgreement.PromotionIsAllOrNothing` | src/engine/sqliteStore.ts:247-263 | a refused promotion changes nothing; a committed one leaves every listed chunk in the table |
| `StoreAgreement.PutsBufferUntilDue` | src/engine/sqliteStore.ts:145-165 | an accepted chunk that is not buffered goes into the buffer alone until one of its limits is reached, and then with everything buffered into the table, or the put throws |
| `StoreAgreement.BufferStaysBounded` | src/engine/sqliteStore.ts:152-157 | while transactions succeed the buffer stays under both of its limits |
| `StoreAgreement.StoreRunsAreFloorRuns` | src/engine/sqliteStore.ts:247-272 | the store's row takes only the steps `Floor` is about, so its theorems hold of the store |
| `Migration.VerifiedChunks` | src/engine/migration.ts:129-141 | the loop keeps the first body per hash that verifies |
| `Migration.VerifiedRowsMeaning` | src/engine/migration.ts:129-159 | the copied rows are verified, free of repeats, and cover every hash some body verifies for |
| `Migration.CollectManifests` | src/engine/migration.ts:161-169 | the loop over the manifests computes the list that the next lemma is about |
| `MigrationManifests.VerifiedManifestsMeaning` | src/engine/migration.ts:161-169 | exactly the manifests whose bytes hash to their name are copied |
| `Migration.MigrateLegacyStores` | src/engine/migration.ts:91-127 | the method takes exactly the steps of one attempt, stopping at the first call that throws |
| `Migration.AttemptIsARun` | src/engine/migration.ts:91-127 | so what holds of every run holds of the method |
| `Migration.NothingIsLost` | src/engine/migration.ts:91-127 | at any crash point, after any restarts and with any operations of the session in between, a source that is gone left its pointers under the floor and its verifiable chunks in the store, but for those a prune or an evicting read has since taken out |
| `Migration.RestartsConverge` | src/engine/migration.ts:91-127 | once done, floor and chunks are those of one uninterrupted run |
| `MigrationManifests.NoManifestIsLost` | src/engine/migration.ts:91-127 | at any crash point, after any restarts and operations in between, a source that is gone left every manifest it held under its own hash in the store, with bytes of that hash, unless a prune or an evicting read took it out since |
| `MigrationManifests.ImportAddsOnlyAddressed` | src/engine/sqliteStore.ts:328-342 | whatever manifest an import adds comes from a source and hashes to its name |
| `MigrationManifests.ManifestsConverge` | src/engine/migration.ts:91-127 | once done, the store holds exactly the manifests that were there, unchanged, and those some source had under their own hash, as it had them |
| `Migration.StateTellsHowFar` | src/engine/sqliteStore.ts:337-363 | whatever crashed or ran in between, the recorded state is done, copied or none exactly as the final mark was made, an import has committed, or neither |
| `Migration.UninterruptedAttemptFinishes` | src/engine/migration.ts:105-126 | an attempt in which nothing throws completes, with the floor at the maximum of all slots |
| `Migration.CopiesAreAcceptableExactly` | src/engine/migration.ts:146-159 | every copied row is one a read accepts if and only if the bodies keep the cap on compressed chunks; the move leaves that to the readers of the legacy stores |
| `Migration.CappedSourcesAreReadable` | src/engine/legacyStores.ts:299-307 | and with the cap those readers apply they do |
| `Migration.OversizedCopyIsEvicted` | src/engine/migration.ts:143-159 | without it a verified longer body would be copied, be present, and be evicted by the first read |
| `Migration.MigratedStoresAreSound` | src/engine/migration.ts:91-127 | so the store stays one `StoreAgreement` speaks of at every point of every run |
| `MigrationIdentity.IdentitySurvivesExactly` | src/engine/migration.ts:91-127 | for any list of sources, each removed in one step, and whatever crashes and restarts: the identity and the release served stay as the first merge left them if and only if every suffix of the sources that still reaches the floor can select its highest release |
| `MigrationIdentity.CrashForgets` | src/engine/migration.ts:119-120 | otherwise a crash after as many removals forgets it |
| `LegacyLayout.EntriesReadAsTheStores` | src/engine/legacyStores.ts:263-279 | the entries as sources, together, read as the two stores do: every slot, chunk and manifest |
| `LegacyLayout.DeletionReadsAsTheRest` | src/engine/legacyStores.ts:280-286 | after any number of deletions the pointers that are left select and bound the floor as the entries behind them do |
| `LegacyLayout.ShippedIdentitySurvivesExactly` | src/engine/legacyStores.ts:25-26 | wherever a crash falls between two deletions, the identity and the release served survive every restart if and only if it is not the case that active.a and active.b disagree at one sequence while the IndexedDB pointer is at the floor |
| `LegacyLayout.RestartMayForgetIdentity` | src/engine/worker.ts:88-91 | a run of the shipped stores: begin, copy, delete chunk, manifest and active, crash, begin again; the release served after the first begin is then served no more though the floor is at it |
| `LegacyLayout.RestartsCanReadExactly` | src/engine/legacyStores.ts:337-354 | after a crash between any two deletions the pointers can be read again if and only if active.b is not the torn file of the pair |
| `LegacyLayout.UnreadableStopsTheMove` | src/engine/migration.ts:91-127 | while they cannot, no attempt merges, copies, removes or marks anything |
| `SessionFloor.ChunkDatabase.Open` | src/engine/chunkDatabase.ts:201-250 | how a session opens for every answer of the environment |
| `SessionFloor.ChunkDatabase.MigrateOnce` | src/engine/chunkDatabase.ts:313-329 | floor first; an unreadable state or a failed copy only warns, an unreadable floor refuses |
| `SessionFloor.FloorsAreEnforcedExactly` | src/engine/chunkDatabase.ts:201-329 | a session that looks enforces every persisted and legacy floor; one that relies on an earlier look does so exactly when nothing newer appeared |
| `SessionFloor.SessionsExactly` | src/engine/chunkDatabase.ts:201-262 | for every answer of the environment: whether a session opens, whether operations run in it or only the reset does, on which database and from which floor, and what is left of the migration |
| `SessionFloor.MemoryNeverRunsBesideThePool` | src/engine/chunkDatabase.ts:205-219 | a pool in use, on disk or of unknown state means no session at all |
| `SessionFloor.UnreadableFloorRefuses` | src/engine/chunkDatabase.ts:171-176 | an unreadable or unwritable legacy floor leaves only the reset |
| `SessionFloor.NoOperationBelowAnExistingFloor` | src/engine/chunkDatabase.ts:171-329 | in every run of any number of Workers, with storage opening, refused or in use from one session to the next and the pool present, absent or unknown, no operation runs below a floor that existed when its session opened; excluded are only an opening beside a Worker in memory, an unreadable migration state, and old builds writing above a floor already in force |
| `SessionFloor.ALaterLegacyFloorIsIgnored` | src/engine/migration.ts:95-102 | a run that shows why old builds are restricted |
| `SessionFloor.MemoryBesideALaterPool` | src/engine/chunkDatabase.ts:202-202 | a run that shows why storage must not open beside a Worker in memory |
| `SessionFloor.AnUnreadableStateSkipsTheFloor` | src/engine/chunkDatabase.ts:317-327 | a session that shows why the migration's state must be readable |
| `Scheduler.ChunkDatabase.Run` | src/engine/chunkDatabase.ts:123-139 | the arrival step of the state machine the run theorems are about, starting a drain unless one is going |
| `Scheduler.ChunkDatabase.TakeBatch` | src/engine/chunkDatabase.ts:193-199 | splices the next batch off the front |
| `Scheduler.ChunkDatabase.StartBatch` | src/engine/chunkDatabase.ts:156-169 | the session loop's step of the state machine: the batch starts, or the session closes when there is none |
| `Scheduler.ChunkDatabase.RejectQueued` | src/engine/chunkDatabase.ts:150-152 | rejects everything that waits, once each |
| `Scheduler.ChunkDatabase.FailSession` | src/engine/chunkDatabase.ts:146-154 | the step of the state machine for a session that fails to open or to lock |
| `Scheduler.StartsInArrivalOrder` | src/engine/chunkDatabase.ts:156-199 | operations start in arrival order and never twice |
| `Scheduler.ExclusiveRunsAlone` | src/engine/chunkDatabase.ts:193-199 | whatever runs beside another operation is shared |
| `Scheduler.ClosedBeforeReleased` | src/engine/chunkDatabase.ts:146-169 | operations run only in an open session and a session is open only under the cross-tab lock |
| `Scheduler.SettledAtMostOnce` | src/engine/chunkDatabase.ts:171-191 | no operation settles twice, and it is settled exactly when it is neither queued nor running |
| `Scheduler.StepMovesExactly` | src/engine/chunkDatabase.ts:146-199 | what one step of any run makes of an operation: it starts if and only if storage has opened or the last running operation finishes, and nothing exclusive waits before it (nor anything, if it is exclusive itself); it is rejected unrun if and only if it waits while the lock is refused, or given back after an opening or a closing that threw |
| `Scheduler.RunsOnlyInAnOpenSession` | src/engine/chunkDatabase.ts:156-169 | an operation runs only while the last that storage did was to open |
| `Scheduler.NothingIsRejected` | src/engine/chunkDatabase.ts:146-154 | while lock and storage work no operation is rejected unrun |
| `Scheduler.EverythingRuns` | src/engine/chunkDatabase.ts:123-199 | and with timely arrivals every operation has been started exactly once, and settled by its batch, when the drain is over |
| `Scheduler.EverythingSettlesExactlyOnce` | src/engine/chunkDatabase.ts:123-191 | with timely arrivals every operation has settled exactly once when the drain is over |
| `Scheduler.NextKeepsServed` | src/engine/chunkDatabase.ts:135-154 | an operation is left without a drain if and only if it arrives between the last queue test and the clearing of the flag |
| `Scheduler.LateArrivalsAreStranded` | src/engine/chunkDatabase.ts:135-154 | and then it stays queued |
| `Scheduler.NeverStuck` | src/engine/chunkDatabase.ts:146-169 | until the drain is over a step other than an arrival is possible |
| `Scheduler.DrainsTerminate` | src/engine/chunkDatabase.ts:146-169 | `n` arrivals cause at most twelve further steps each |
| `Fetch.RunIsSound` | src/engine/sync.ts:771-849 | the invariant of all workers holds after every interleaving |
| `Fetch.BudgetIsConserved` | src/engine/sync.ts:785-802 | free budget, reservations in flight and released consumption always add up to the cap, and a reservation is at most 2 MiB |
| `Fetch.WaitersHaveAWaker` | src/engine/sync.ts:785-802 | a worker waiting on the budget always has one in flight that will wake it |
| `Fetch.NeverStuck` | src/engine/sync.ts:785-849 | until all workers are done one can move |
| `Fetch.FetchTerminates` | src/engine/sync.ts:803-849 | waiting and waking included, a fetch of `n` chunks takes at most 12 n + 8 steps |
| `Fetch.BudgetIsReturned` | src/engine/sync.ts:798-802 | at the end nothing is in flight and the remaining budget is the cap less the total, which is at most the cap |
| `Fetch.ReturnsExactlyWhenAllStored` | src/engine/sync.ts:803-849 | a normal return happens exactly when every chunk was stored, and then each was handed to the store exactly once |
| `Fetch.NoReservationIsCut` | src/engine/sync.ts:785-797 | if the sizes leave eight chunk maxima free, every reservation is a full one and nobody ever waits |
| `Fetch.FailsExactlyForACause` | src/engine/sync.ts:803-849 | the fetch fails if and only if something failed: with the first error, unless a worker finds the budget spent later |
| `Fetch.LargeBudgetsSucceed` | src/engine/sync.ts:785-849 | if nothing fails and the sizes leave eight chunk maxima free, a fetch that is over has stored every chunk |
| `Progress.ChunkProgress.Emit` | src/engine/sync.ts:752-768 | reports are rate-limited unless forced and sum the fractions in flight |
| `Progress.ChunkProgress.TransferOnBytes` | src/engine/sync.ts:724-731 | received bytes count by their fraction of the declared wire size |
| `Progress.ChunkProgress.TransferOnRetry` | src/engine/sync.ts:731-741 | a retry forgets what the failed attempt had received and counts nothing else |
| `Progress.ChunkProgress.ChunkCompleted` | src/engine/sync.ts:744-750 | a completed chunk counts in full and always reports |
| `Progress.ReportsNeverOvershoot` | src/engine/sync.ts:703-769 | in every interleaving of the fetch with its callbacks bytesDone is at most bytesTotal |
| `Progress.LastReportIsTheTotal` | src/engine/sync.ts:703-769 | with equality once every chunk is stored |
| `Progress.ReportsCountTheStored` | src/engine/sync.ts:745-768 | in every interleaving a report counts exactly the stored chunks and the bytes transferred for them |
| `Progress.SharesAreCurrent` | src/engine/sync.ts:723-741 | and each other chunk with the share of the last bytes received since its last retry |
| `Progress.FractionMeaning` | src/engine/sync.ts:724-729 | that share is proportional to the declared wire size and full from its last byte on, or the bytes themselves where none is declared |
| `Progress.LateBytesOvershoot` | src/engine/sync.ts:724-731 | counting bytes after a chunk completed would overshoot |
| `Progress.FetchChunkWithRetry` | src/engine/sync.ts:671-696 | the first attempt that is no network failure decides, and the total backoff stays strictly below the closed form for any jitter and attempt count |
| `Progress.RetryBudgetIsNineSeconds` | src/engine/sync.ts:120-122 | the exported constant |
| `BoundedMap.BoundedAndInOrder` | src/engine/sync.ts:859-885 | at most `limit` calls in flight, each item called once, in order |
| `BoundedMap.NothingOutlivesTheMap` | src/engine/sync.ts:859-885 | when the map settles every call it started has settled |
| `BoundedMap.ResolvesInOrderOrRejectsWithTheFirst` | src/engine/sync.ts:859-885 | it resolves exactly when no call rejected, each value at its item's place, and otherwise rejects with the first error |
| `BoundedMap.FailsWithTheFirstAnswer` | src/engine/sync.ts:869-884 | the error is the first that any call of the run was rejected with |
| `BoundedMap.AnswersReachTheirItem` | src/engine/sync.ts:869-884 | the item a worker is calling gets the answer its call settles with, and no other item does |
| `BoundedMap.NoCallAfterAFailure` | src/engine/sync.ts:868-878 | after a rejection no call is started |
| `BoundedMap.MapTerminates` | src/engine/sync.ts:859-885 | it settles if every call does |
| `ChunkReader.BoundedAndSingleFlight` | src/engine/sync.ts:892-923 | at most eight reads in storage, no two for one hash, none called twice |
| `ChunkReader.WaitersHaveAWaker` | src/engine/sync.ts:897-915 | no lost wakeup: a waiting read always has an active or already woken read to wake it |
| `ChunkReader.NoReadAfterAFailure` | src/engine/sync.ts:901-904 | after a failure no getChunk starts |
| `ChunkReader.QueuedReadsGetTheFailure` | src/engine/sync.ts:901-904 | a read refused unread gets exactly the first failure |
| `ChunkReader.FailsWithTheFirstError` | src/engine/sync.ts:892-923 | the reader fails if and only if storage answered some read with an error, and with the first of them |
| `ChunkReader.ReadsEndAsAnswered` | src/engine/sync.ts:892-923 | a read ends with what storage answered it or with that failure |
| `ChunkReader.GoodAnswersAreGiven` | src/engine/sync.ts:892-923 | so while storage fails no read every read that has ended has its own answer |
| `ChunkReader.EveryReadSettles` | src/engine/sync.ts:897-923 | `n` requests take at most 5 n steps, and until all have settled some step is possible |
| `PointerJson.PointerFromInverts` | src/engine/sync.ts:195-248 | the accepted properties are exactly those of a storable pointer |
| `PointerJson.StoredPointersReadBack` | src/engine/activePointer.ts:8-27 | a stored pointer reads back as itself |
| `PointerJson.StorageKeepsThePreimage` | src/engine/sqliteStore.ts:408-421 | an object that storage gives back with its properties in another order reads as the same pointer and has the same signed bytes, whatever further properties it has |
| `Release.MatchedVersionsAreNumbers` | src/engine/sync.ts:352-371 | the pattern holds exactly when every dot-separated part is digits |
| `Release.WrittenVersionsReadBack` | src/engine/sync.ts:362-371 | dotted numbers below 2^53 read back, with or without the `v` |
| `Release.LargeComponentsCollide` | src/engine/sync.ts:362-371 | from 2^53 on two different components read the same |
| `Release.ComponentsReadExactly` | src/engine/sync.ts:362-371 | a component is read as its own value if and only if that is a multiple of the spacing of doubles around it |
| `Release.CompareRelease` | src/engine/sync.ts:373-379 | the loop decides older, newer and equal on zero-padded components |
| `Release.OlderIsATotalPreorder` | src/engine/sync.ts:373-379 | total, antisymmetric up to padding, transitive |
| `Release.PassesExactlyWhenProvablyFresh` | src/engine/sync.ts:393-435 | a pointer passes the gate if and only if neither counter nor version goes back, an equal counter is the same release, and one comparison is proof |
| `Release.ChainsNeverGoBackInSequence` | src/engine/sync.ts:425-435 | along a chain of accepted pointers the counter never goes back, and equal counters are one release |
| `Release.ChainsNeverGoBackInVersion` | src/engine/sync.ts:425-435 | nor the version, when the releases in between have comparable ones |
| `Release.AnUncomparableVersionHidesADowngrade` | src/engine/sync.ts:409-435 | which is needed: any release older in version, refused directly, passes after any release with an unparsable version and a counter in between |
| `Release.OnlyCountersDecideAround` | src/engine/sync.ts:393-435 | around a release whose version does not parse a chain is one exactly when the counters, and identities at equal ones, make it one |
| `Manifest.AssertManifest` | src/engine/sync.ts:526-610 | accepts exactly the manifests that meet every rule, with the files they list |
| `Manifest.ReadFile` | src/engine/sync.ts:554-596 | the loop body accepts an entry exactly when it keeps the manifest in order |
| `Manifest.ReadChunks` | src/engine/sync.ts:564-587 | the inner loop accepts exactly well-formed, consistent references within the cap, and sums them |
| `Manifest.SumsAreSafe` | src/engine/sync.ts:518-524 | within the caps no running sum leaves the safe integers, so checkedAdd never throws |
| `Manifest.AcceptedManifestsAreBounded` | src/engine/sync.ts:526-610 | what acceptance guarantees about files, paths and sizes |
| `SyncIndex.Concat` | src/engine/sync.ts:925-936 | the parts end to end, then zeros; it throws exactly when they do not fit |
| `SyncIndex.Reassemble` | src/engine/sync.ts:938-954 | what is returned is the file's chunks as the table has them, verified, end to end, with the signed size and hash; when no read is refused it is returned exactly if the held chunks make up the file |
| `SyncIndex.VerifyReassembly` | src/engine/sync.ts:956-968 | success means the table has every selected file, all at once: each chunk's row verifies and end to end they have the signed size and hash; when no read is refused it succeeds exactly if what is held makes up every file |
| `SyncIndex.FetchPointer` | src/engine/sync.ts:318-333 | a pointer is returned exactly if it is well shaped, sequenced and authentic |
| `SyncIndex.CheckPointer` | src/engine/sync.ts:1053-1073 | it goes on exactly if some pointer passes every check, and a refusal as a rollback is the gate's own reason |
| `SyncIndex.TimelyExactly` | src/engine/sync.ts:1060-1066 | a pointer is timely if and only if its deadline, if any, is still to come by a clock that can be read, and it and the served one carry the expected identity |
| `SyncIndex.ReadManifest` | src/engine/sync.ts:612-632 | files are returned exactly if the bytes hash to the pointer and meet every rule |
| `SyncIndex.FetchManifest` | src/engine/sync.ts:612-632 | the manifest is checked before it is stored, and then kept exactly if the store takes it |
| `SyncIndex.FetchOne` | src/engine/sync.ts:816-835 | one missing chunk is put as it arrived and nothing else changes; unrefused, it fails only if the chunk does not arrive, does not verify or passes what is left of the limit |
| `SyncIndex.DeliveredKeys` | src/engine/sync.ts:634-651 | what a complete fetch leaves: held rows as they were, every listed chunk, and no other |
| `SyncIndex.DeliveredAsSent` | src/engine/sync.ts:816-835 | and each new one as it arrived |
| `SyncIndex.FetchMissing` | src/engine/sync.ts:634-651 | success means every chunk is there, what was held as it was and what was not as it arrived, with at most the limit fetched; the row is untouched; when nothing is refused it succeeds exactly if everything missing arrives, verifies, and keeps the limit in all |
| `SyncIndex.SyncFromCache` | src/engine/sync.ts:982-1011 | what is served offline is the floor's own pointer, its stored object re-authenticated, expected, and its selected files in the table; when no read is refused it is served, expired or not, exactly if that holds of what the store has |
| `SyncIndex.FetchAndPromote` | src/engine/sync.ts:1074-1106 | refused for its manifest exactly when that fails; the manifest is kept before files are selected; promoted with manifest, files and row in place; any failure leaves the row alone; when storage refuses nothing, promoted exactly if its manifest holds, its missing chunks arrive within the limit and make up its files, and the floor admits it |
| `SyncIndex.Transfer` | src/engine/sync.ts:1082-1097 | the same from the selected files on |
| `SyncIndex.Sync` | src/engine/sync.ts:1049-1118 | whenever a pointer is promoted it was signed, unexpired, expected and not refused, the manifest hashes to it and the table then has every selected file, and it is the served one; while the network answers, the gates refuse exactly for their own reasons, and when storage refuses nothing, a release is promoted exactly if it passes them, its missing chunks arrive and make up its files, and the floor admits it; and with the network down the served one is given from the cache exactly if it passes and its files are held |
| `SyncIndex.PromotedPointersStayAuthentic` | src/engine/sync.ts:982-990 | the trust root that accepted a pointer online accepts its stored object offline, further properties included |
| `SyncIndex.PromotionsFormAChain` | src/engine/sync.ts:1066-1070 | promotions over one another form a chain, whatever keys and servers they came from |
| `SyncIndex.SyncsNeverGoBack` | src/engine/sync.ts:1049-1106 | no promotion goes back in sequence, and at an equal one it is the same release, whatever clears, merges and prunes lie between |
| `SyncIndex.VersionsNeverGoBack` | src/engine/sync.ts:1066-1070 | nor in version, between promotions over one another with comparable versions in between |
| `Transfer.FetchDeliversEverything` | src/engine/sync.ts:634-849 | in every interleaving of the workers over a store: when the fetch of what is missing returns, every chunk asked for is in the store, within the cap, and the row is untouched |
| `Transfer.SmoothFetchesSucceed` | src/engine/sync.ts:771-849 | in every interleaving: when every download delivers bytes the store accepts, nothing is refused, and the sizes leave eight chunk maxima of the cap free, a fetch that is over has stored everything |
| `Transfer.ReadsAgreeWithTheTable` | src/engine/sync.ts:892-923 | in every interleaving of callers and answers, while no read fails each that has ended gave what the table has |
| `Reassembly.RunIsJoined` | src/engine/sync.ts:859-968 | in every interleaving of all files' maps with their shared reads over a store, each read was asked for by a call, and each call settles as its read does |
| `Reassembly.NoReadFailed` | src/engine/sync.ts:938-968 | when all maps over the files have resolved to the signed hashes, no read has failed |
| `Reassembly.FilesAreRebuilt` | src/engine/sync.ts:859-968 | so when all of them resolve to the signed hashes, the table has all of the files, all at once |
| `Canonical.Inverts` | src/engine/canonical.ts:39-51 | a parser recovers the value from its canonical text, and reads exactly that text |
| `Canonical.TextIdentifiesValue` | src/engine/canonical.ts:39-51 | two values have the same text if and only if they are equal up to key order |
| `Canonical.BytesIdentifyValue` | src/engine/canonical.ts:54-70 | and the same bytes |
| `Canonical.CanonicalBytes` | src/engine/canonical.ts:54-70 | the loop over the keys encodes exactly the payload without the excluded ones |
| `Canonical.SigningBytesAgree` | src/engine/sync.ts:253-263 | two pointers share signing bytes if and only if they agree on every covered field, null and absent alike for the optional four |
| `Canonical.ProtoIsNotSigned` | src/engine/canonical.ts:61-66 | a `__proto__` property is not covered |
| `Canonical.IdentityTextInjective` | src/engine/sqliteStore.ts:425-436 | the identity text distinguishes exactly the eight fields |
| `Zstd.FrameByteLength` | src/engine/zstd.ts:121-145 | the walk over block headers |
| `Zstd.DecodesEveryEncoding` | src/engine/zstd.ts:70-166 | the declared size of every valid frame is read back, for every header layout |
| `Zstd.DeclaresExactlyOneFrame` | src/engine/zstd.ts:156-166 | for sizes below 2^53, the answer is n if and only if the bytes are one whole frame that declares n (section 3.1.1 of RFC 8878) |
| `Zstd.ReencodesExactly` | src/engine/zstd.ts:88-145 | accepted bytes are the encoding of the frame read from them |
| `Zstd.TrailingBytesAreRefused` | src/engine/zstd.ts:162-164 | appending anything, a second frame included, makes the answer null |
| `Zstd.TruncationsAreRefused` | src/engine/zstd.ts:124-140 | so does cutting anything off |
| `Zstd.LargeDeclarationsAreRounded` | src/engine/zstd.ts:84-84 | above 2^53 two declarations can read the same |
| `Zstd.SizesReadExactly` | src/engine/zstd.ts:70-86 | a declared size is read as it is if and only if it is a multiple of the spacing of doubles around it |
| `SqlEngine.Connection.Dispatch` | src/sql/handler.ts:39-103 | one request at a time, each to its engine operation |
| `SqlEngine.Connection.BeginTransaction` | src/sql/engine.ts:149-153 | the flag is set only after BEGIN succeeded |
| `SqlEngine.Connection.TxExec` | src/sql/engine.ts:156-163 | a transaction's statement is refused once the transaction has ended |
| `SqlEngine.Connection.CommitTransaction` | src/sql/engine.ts:166-174 | a failed COMMIT leaves it open for the rollback |
| `SqlEngine.Connection.RollbackTransaction` | src/sql/engine.ts:177-182 | rolls back if open, and is no error otherwise |
| `SqlClient.WorkerSqlDatabase.Call` | src/sql/client.ts:312-332 | post at once when nothing exclusive is counted, otherwise wait |
| `SqlClient.WorkerSqlDatabase.Transaction` | src/sql/client.ts:335-346 | counts itself in and chains its run and its count-down |
| `SqlClient.WorkerSqlDatabase.Interactive` | src/sql/client.ts:348-377 | begin, work, commit or rollback, one await at a time |
| `SqlClient.WorkerSqlDatabase.Close` | src/sql/client.ts:292-310 | cancels what waits, ends and rolls back an open transaction, then closes |
| `SqlClient.WorkerSqlDatabase.Statement` | src/sql/client.ts:419-425 | a statement through a handle is posted only while the handle is live |
| `SqlIsolation.TransactionsAreContiguous` | src/sql/client.ts:335-377 | in every interleaving nothing lies between the messages of one transaction but its own |
| `SqlIsolation.NothingForeignBeforeTheEnd` | src/sql/client.ts:335-377 | whatever follows a transaction follows its rollback or its successful commit |
| `SqlIsolation.CommitsAreIsolated` | src/sql/engine.ts:149-182 | what is committed together is plain calls, or the statements of one transaction |
| `SqlIsolation.StatementsRunOnlyInside` | src/sql/engine.ts:236-252 | a handle's statement runs inside its own open transaction or has no effect, even if sent after the callback settled |
| `SqlIsolation.LateStatementsAreRefused` | src/sql/engine.ts:236-243 | after the end it is refused |
| `SqlIsolation.OthersFindItEnded` | src/sql/handler.ts:105-115 | plain calls, other begins and the close find no interactive transaction open |
| `SqlCommits.InteractiveCommitsExactly` | src/sql/engine.ts:149-182 | in every run the interactive commits are exactly, in order, the statements answered with success of each transaction whose commit was answered with success |
| `SqlCommits.StatementIsKeptExactly` | src/sql/engine.ts:149-182 | a transaction's statement is committed if and only if it was answered with success and later a commit of its transaction was; a transaction that was rolled back instead leaves nothing |
| `SqlCommits.CommittedExactly` | src/sql/engine.ts:149-182 | while no plain call leaves a transaction open, all that is committed is those groups and each plain call answered with success alone |
| `SqlCommits.NoPlainCallIsLost` | src/sql/handler.ts:39-103 | in every run a plain call answered with success is committed, or pending in a transaction plain calls opened, or a rollback, the close or a failure came later |
| `SqlCommits.OnlySuccessCommits` | src/sql/handler.ts:39-103 | only a message answered with success commits anything, and nothing is committed while a transaction stays open |
| `SqlCommits.RefusedExactly` | src/sql/engine.ts:149-252 | while SQLite fails nothing, exactly the statements and commits that arrive after their transaction's end are refused |
| `SqlRequests.RequestsExactly` | src/sql/client.ts:292-377 | a begin is posted if and only if the transaction's turn came before the close, a commit if and only if its callback resolved while it was open, a rollback if and only if it was open and its begin or commit was refused, its callback rejected, or the close came; the close itself if and only if nothing was open then, or the rollback it posted was answered |
| `SqlRequests.HandleAfterBegin` | src/sql/client.ts:348-360 | the callback gets the handle only after its begin was answered with success |
| `SqlRequests.ClosedAfterTheClose` | src/sql/client.ts:292-310 | `close()` waits for its rollback and then for the close, and is over only when the close was answered |
| `SqlRequests.NoCallIsForgotten` | src/sql/client.ts:312-346 | until the close every call has been posted or stands in the line, so once that is empty all have reached the Worker |
| `SqlOrder.OrderIsKeptExactly` | src/sql/client.ts:312-346 | whatever is called, settled, cancelled or closed: requests reach the Worker in call order if and only if no call that another one overtook is posted after all |
| `SqlOrder.WithoutOvertakingOrderIsKept` | src/sql/client.ts:312-346 | so they do as long as no call is posted while another waits |
| `SqlOrder.OvertakingBreaksTheOrder` | src/sql/client.ts:316-318 | and an overtaken call breaks the order as soon as it is posted |
| `SqlOrder.OvertakingHappens` | src/sql/client.ts:316-332 | a run in which it occurs |
| `SqlOrder.ACancelledCallMayBeOvertaken` | src/sql/client.ts:292-332 | a run in which the overtaken call is cancelled by the close and the order is kept |
| `OpfsLock.AsyncProxy.XLock` | src/vector/sqlite/assets/sqlite3-opfs-async-proxy.js:807-874 | keep, upgrade or request the Web Lock and the handle with it |
| `OpfsLock.AsyncProxy.XUnlock` | src/vector/sqlite/assets/sqlite3-opfs-async-proxy.js:892-925 | release, or downgrade by asking again |
| `OpfsLock.AsyncProxy.XAccess` | src/vector/sqlite/assets/sqlite3-opfs-async-proxy.js:662-675 | an access without a lock takes an implicit one |
| `OpfsLock.AsyncProxy.ReleaseImplicitLocks` | src/vector/sqlite/assets/sqlite3-opfs-async-proxy.js:377-386 | the idle pass closes the implicit locks' handles and no other |
| `OpfsLock.TheRuleHoldsExactly` | src/vector/sqlite/assets/sqlite3-opfs-async-proxy.js:792-805 | a step keeps the Golden Rule if and only if it is not one of three: closing a locked file, or a close that throws in an upgrade or a downgrade |
| `OpfsLock.GoldenRule` | src/vector/sqlite/assets/sqlite3-opfs-async-proxy.js:792-925 | so in every other run a file with a Web Lock has its handle and is no implicit lock |
| `OpfsLock.IdleKeepsLockedHandles` | src/vector/sqlite/assets/sqlite3-opfs-async-proxy.js:377-386 | idle release never takes a locked file's handle, and takes all the others |
| `OpfsLock.UnlockGivesEverythingUp` | src/vector/sqlite/assets/sqlite3-opfs-async-proxy.js:900-906 | unlocking to NONE frees lock and handle even if the close throws |
| `OpfsLock.LocksAsAsked` | src/vector/sqlite/assets/sqlite3-opfs-async-proxy.js:807-874 | a lock is had, with its type and the handle, if and only if it was there in a sufficient mode or is granted (or an idle handle stood open); its mode is exclusive exactly from RESERVED on or if it was before; no other file is touched |
| `OpfsLock.DowngradesAsAsked` | src/vector/sqlite/assets/sqlite3-opfs-async-proxy.js:907-918 | a downgrade leaves a shared lock with its handle if and only if it is granted |
| `OpfsLock.UnlocksAsAsked` | src/vector/sqlite/assets/sqlite3-opfs-async-proxy.js:892-906 | unlocking to NONE leaves neither lock nor handle, and every other file as it was |
| `OpfsLock.AccessTakesAHandle` | src/vector/sqlite/assets/sqlite3-opfs-async-proxy.js:662-675 | an access has a handle if there is one or it is granted, keeps it unless the file gives implicit locks up at once, and touches no other file |
| `OpfsLock.FilesComeAndGo` | src/vector/sqlite/assets/sqlite3-opfs-async-proxy.js:676-740 | an opened file has neither handle nor lock, a closed one is gone with its implicit lock, and no other file is touched |
| `OpfsLock.WritersAreExclusive` | src/vector/sqlite/assets/sqlite3-opfs-async-proxy.js:807-925 | in every orderly run a file recorded as RESERVED or above has an exclusive Web Lock |
| `OpfsLock.HandlesStayAccountedExactly` | src/vector/sqlite/assets/sqlite3-opfs-async-proxy.js:907-918 | every handle stays accounted for if and only if no downgrade is refused |
| `OpfsLock.ARefusedDowngradeLeavesAHandle` | src/vector/sqlite/assets/sqlite3-opfs-async-proxy.js:892-918 | after one, a read takes a handle nothing accounts for |
| `Serializer.Serialize` | src/vector/sqlite/assets/sqlite3-opfs-async-proxy.js:215-247 | writes exactly the encoding and leaves the rest, or throws exactly when it does not fit |
| `Serializer.Deserialize` | src/vector/sqlite/assets/sqlite3-opfs-async-proxy.js:174-201 | reads what the bytes say, for any bytes; clearing zeroes the count |
| `Serializer.ReadsBackWhatWasWritten` | src/vector/sqlite/assets/sqlite3-opfs-async-proxy.js:174-247 | 1 to 255 arguments come back in order from exactly the bytes written |
| `Serializer.RoundTripsExactly` | src/vector/sqlite/assets/sqlite3-opfs-async-proxy.js:174-247 | they are the same list if and only if bigints have 64 bits and no string begins with U+FEFF |
| `Serializer.NothingToRead` | src/vector/sqlite/assets/sqlite3-opfs-async-proxy.js:176-222 | a cleared buffer reads as null, and so do 256 arguments |
| `StateStore.SqliteStateStore.Execute` | src/sqlite/database.ts:510-526 | the statements one by one, counting changed rows |
| `StateStore.SqliteStateStore.BatchAll` | src/sqlite/database.ts:266-276 | a batch commits whole or throws and changes nothing |
| `StateStore.SqliteStateStore.MigrateTo` | src/sqlite/database.ts:278-300 | a migration also moves the schema version and always the epoch, and succeeds exactly when it is accepted |
| `StateStore.SqliteStateStore.StageImport` | src/sqlite/database.ts:324-366 | a valid snapshot is staged under a new id |
| `StateStore.SqliteStateStore.DiscardImport` | src/sqlite/database.ts:368-371 | only the snapshot staged under that id is given up, and the rows stay |
| `StateStore.SqliteStateStore.CommitImport` | src/sqlite/database.ts:373-407 | exactly the staged snapshot is committed, and consumed only then |
| `StateStore.SqliteStateStore.ResetAll` | src/sqlite/database.ts:409-424 | clears the rows, raising the epoch unless there are none, and succeeds exactly when it is accepted |
| `StateStore.SqliteStateStore.Dispose` | src/sqlite/database.ts:446-451 | gives up what is staged and refuses everything later; the rows stay |
| `StateStore.LastMutationWins` | src/sqlite/database.ts:510-526 | per name the last mutation decides; all other rows keep value and revision |
| `StateStore.AcceptedTakesEffect` | src/sqlite/database.ts:266-424 | what an accepted operation leaves: an import exactly the snapshot's rows and version, a reset no row, a batch or migration per name what the last mutation says at one past the epoch, a migration its target version, the others the version as it was |
| `StateStore.EpochNeverDecreases` | src/sqlite/database.ts:499-531 | over any run by any writers the epoch never goes down |
| `StateStore.EqualEpochsMeanEqualStores` | src/sqlite/database.ts:266-424 | no ABA: equal epochs mean identical rows and schema version |
| `StateStore.OneWriterWins` | src/sqlite/database.ts:533-539 | of two writers holding one expected epoch at most one changes the store |
| `StateStore.EveryRevisionIsAtMostTheEpoch` | src/sqlite/database.ts:340-355 | no row is newer than the store, imports included |
| `StateStore.EpochMovesExactly` | src/sqlite/database.ts:266-424 | the epoch moves, to one past the epoch built on, if and only if the operation is not aborted, passes every check and has something to do: a put or a delete of a row that is there, rows to clear, a migration or an import |
| `StateStore.StaysUsableExactly` | src/sqlite/database.ts:545-557 | a store stays usable if and only if no accepted operation with something to do builds on epoch 2^53 - 1 |
| `StateStore.ExhaustedForEver` | src/sqlite/database.ts:545-557 | and after that nothing ever succeeds |
| `StateStore.OneImportExhausts` | src/sqlite/database.ts:385-397 | one valid import gets there |
| `StatePages.List` | src/sqlite/database.ts:213-247 | the page is the first `limit` eligible keys, with a next key exactly when there are more |
| `StatePages.ListedInOrderWithoutRepeats` | src/sqlite/database.ts:213-247 | following nextKey over changing tables lists in key order without repeats, only keys that were there and in range |
| `StatePages.NothingIsMissed` | src/sqlite/database.ts:213-247 | and every key in range that was present throughout |
| `StatePages.PagingTerminates` | src/sqlite/database.ts:213-247 | pages that all have more to come hold, `limit` each, fewer keys than there are; so a listing is over within as many pages as there are keys, or after one |
| `StatePages.PrefixFindsAllButTheHighest` | src/sqlite/database.ts:645-647 | a key that continues the prefix is in range if and only if it does not continue with U+10FFFF |
| `StatePages.PrefixFindsExactly` | src/sqlite/database.ts:645-647 | a key is in the range of a prefix if and only if it starts with it and does not go on with U+10FFFF |
| `StatePages.PrefixListsOnlyItsOwn` | src/sqlite/database.ts:213-247 | a listing by prefix holds no foreign key, over changing tables too |

## Left out

- Cryptography, decompression, `JSON.parse` and key rings: arbitrary functions and predicates; nothing is said about them.
- SQLite itself: tables are maps, a transaction is one step, statements of interactive transactions only run, fail or end the transaction.
- Network, timers, stall watchdogs, Worker envelopes, memory profiles, vector search, SQL import and export text, pool leases: plumbing or arithmetic outside these promises.
- Numbers that are not integers in JSON, and `-0`: the model's JSON has integers only; where the code demands a safe integer such a value would be refused.
- Rounding of the progress fractions: they are real numbers here, doubles in the code.
- Awaits inside one store operation (hashing between a check and its write): a store operation is one step; sessions run exclusive operations alone, shared ones only read.
- Several Workers serving one SQL file, and `migrateLegacySahPool`: one connection is modelled.
- Which of two error classes is thrown, and error texts.
- Explicit resets (`clear` and the removal of legacy stores after it): they give the floor up on purpose, so the runs about floors have none.
- Manifest.AssertManifest: says which manifests are accepted, not whether a refusal is a cap error or an integrity error, because that only depends on which check comes first.
- Migration.RestartsConverge: the floor and the chunk set converge; identity and pointer need not, and `MigrationIdentity.IdentitySurvivesExactly` says when they do.
- MigrationIdentity.IdentitySurvivesExactly: removes a source in one step; `LegacyLayout` says it of the shipped stores entry by entry. Deleting a directory recursively is still one step there, because the directories hold no pointer; and the lock file is not an entry.
- SyncIndex.Sync: the method transfers and rebuilds one chunk after the other; `Transfer` and `Reassembly` prove the same promises of the concurrent code. When it succeeds is exact for the method; the concurrent fetch reserves ahead, so close to the limit it can fail where the method does not, and `Transfer.SmoothFetchesSucceed` leaves room for that. Progress reports to the caller are not modelled there.
- SyncIndex.FetchMissing: one chunk after the other; the workers and their shared budget are in `Fetch`, and over a store in `Transfer.FetchDeliversEverything`.
- SyncIndex.VerifyReassembly: files one after the other; the maps and their shared reader are in `Reassembly.FilesAreRebuilt`.
- Canonical.NumberText: decimal digits for every integer, while the code writes integers from 10^21 on with an exponent.
- SyncIndex.SyncFromCache: the object stored in the row is a parameter that reads as the served pointer; the row itself keeps the pointer's own properties.
- SessionFloor.NoOperationBelowAnExistingFloor: not for a Worker to which storage opens while another one is in memory, nor while the migration's state cannot be read, nor after an older build wrote a pointer above a floor already in force; a counterexample shows why for each.
- StoreAgreement.RunsAgree: as long as no two plaintexts with one digest are put or imported, and imports bring rows within the cap on compressed chunks, as the readers of the legacy stores deliver them (`Migration.CappedSourcesAreReadable`).
- Serializer.RoundTripsExactly: for well-formed strings; a lone surrogate becomes U+FFFD in the encoder. A number is its bit pattern, so NaN payloads are not distinguished from the code's own reading.
- Zstd.DeclaresExactlyOneFrame: for sizes a double holds exactly; above that `Zstd.LargeDeclarationsAreRounded` says what is returned.
