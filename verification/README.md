# A model of the local-first replica

An effect-local client keeps a replica of a shared space. It applies mutations to its own rows at
once, keeps them in an outbox until the server has settled them, and shows the user one projection:
the replicated rows, minus what has been retracted, with the unsettled mutations replayed on top.
This project models the machinery behind that promise and proves that it is kept.

The modules follow the program.

- `Basics`, `Tables`, `Outbox`, `Paging`, `View`: entity tables, the outbox and what replaying it means,
  ordered pages, changes of the replicated view. Replaying is defined once, as a fold over local
  sequences; every projection algorithm is proved against that fold. A handler is any fixed
  function of a mutation and the table it reads.
- `Projection`, `Rebuild`, `Divergence`: the incremental delta, the do-nothing shortcut and the
  batched rebuild as functions of the stored state, with the equalities between them.
- `RebuildRuns`, `ProjectionRuns`: every run of a rebuild's transactions with crashes between them,
  and every run of the operations that change what is projected.
- `LocalStore`, `StoreOperations`: the store's code, as a class with the stored tables in its
  fields and methods with the source's loops, proved against those functions and runs.
- `SettlementLog`, `SettlementRuns`, `ReceiptCapacity`, `ReceiptStore`: receipts, the numbered log
  of settlements, its pruning and its readers, the lookup of mutation identities, and whether
  receipts always find room.
- `Quarantine`, `QuarantineServer`: resubmission links, cancellation chains and the loop that drives
  them, alone and with a server that answers in local order.
- `CommitOrder`, `CommitRounds`, `CommitQueue`, `CommitBarrier`: batched commits against one-by-one
  commits, and the barriers that wait for them.
- `Submission`, `Bootstrap`: the submission pass against an arbitrary remote, and the staging and
  installation of paged snapshots.
- `Scheduler`: the flags and the queue of the reconciliation manager.
- `EphemeralKeys`, `EphemeralView`, `EphemeralBooks`, `EphemeralHub`, `Watchers`: the ephemeral
  space of presence, state and events, its redundant accounts, and what a client sees of it over a
  lossy channel.
- `StatementCache`: the cache of prepared statements.

What an operation computes is said twice: by the function of the run that its contract equates it
with, and independently of that function, field by field, comparison by comparison and row by row
(`Written`, `Passes`, `Due`, `Replaced`, `Answers`, `PrunedTo`, `Returned` and the like), with a lemma
between the two.

A transaction is one atomic step: a method that fails leaves the stored fields as they were. A
crash may happen between any two transactions. Interleavings are runs of events or operations; the
receipts, pages, answers and arrival times that other parties choose are arbitrary parameters.

## Where the code falls short of its own rule

Six properties that the design suggests are not kept by the code in every case. Each is stated
exactly, with a concrete case and the condition under which it does hold.

1. A quarantined mutation that the server had accepted can be resolved while the client's cursor is
   still behind that acceptance. It becomes pending again, but with no replacement to cancel no
   replay is requested, so it is not visible until something else causes a replay
   (`NoRowIsMissed`, `ResolvedRowIsInvisible`).
2. A rebuild drops retracted entities after every batch, a delta once at its end. When a mutation
   writes a retracted entity and a later one reads it, the two can disagree. For a given batch size
   they agree for all handlers exactly when nothing is retracted or no batch ends between two
   undropped rows (`RebuildEqualsDeltaExactly`, `SeparatedDiffer`); neither ever leaves a retracted
   entity visible.
3. A request that is withdrawn after its batch was aborted has influenced the outcome already told
   to the culprit (`LateWithdrawalDiffers`, a run of the queue that no order of requests explains).
   Batching is invisible exactly when no request is withdrawn after a batch that claimed it has
   aborted (`SameAsAloneExactly`, `CommitQueued`); withdrawing one that is still queued is never
   late (`QueuedIsNeverLate`).
4. Resolving a quarantined replacement before its original leaves a link without a replacement,
   exactly then (`ResolveKeepsExactly`). A server that answers a client's mutations in local order
   prevents it exactly when it has answered no original that is quarantined and resubmitted
   (`AlwaysInOrderExactly`). It has when an original was accepted, set aside before its receipt was
   heard, and resubmitted, and then the order is not kept (`OutOfOrderCorrupts`).
5. A resubmission may exceed the pending capacity by one. Every configuration with equal capacities
   for pending mutations and receipts has a run that leaves a pending mutation without room for its
   receipt (`Overflows`); receipts always fit exactly when the receipt capacity is the larger, or
   beyond what local sequences can fill (`ReceiptsFitExactly`).
6. When finalizing an evicted statement fails, the freshly prepared one stays marked as running
   although nobody received it: exactly when the cache is full and its oldest statement is idle and
   cannot be finalized (`PrepareCompleted`, `StrandingHappens`). It is then in use and unfinalized
   for good, and as long as it is cached its text is never found (`StrandedForever`).

## Model

| member | source | states |
|---|---|---|
| `Projection.ShortcutSound` | packages/local-sql/src/LocalStore.ts:2147-2227 | when the do-nothing check passes on a projection that was the replay over the previous base, the full replay over the present base gives exactly the visible rows and the recorded write sets already stored, and nothing retracted is visible |
| `Projection.DeltaRefinesReplay` | packages/local-sql/src/LocalStore.ts:2267-2368 | resetting only dirty and recorded entities and replaying gives the replay of the whole outbox over the whole base, minus retractions, with the same recorded write sets |
| `Projection.CleanDeltaIsReplay` | packages/local-sql/src/LocalStore.ts:2320-2361 | if no replayed mutation writes a retracted entity, the delta gives the replay itself |
| `Projection.CleanReplayHidesRetracted` | packages/local-sql/src/LocalStore.ts:2189-2204 | such a replay shows no retracted entity |
| `Projection.DeltaHidesRetracted` | packages/local-sql/src/LocalStore.ts:2342-2361 | after a delta no retracted entity is visible, whatever the mutations write |
| `Projection.DeltaReportsChanges` | packages/local-sql/src/LocalStore.ts:2366-2367 | every entity whose visible row changed is among those the delta reports |
| `Projection.DeltaKeepsFrame` | packages/local-sql/src/LocalStore.ts:2229-2370 | after a delta the visible rows are the base everywhere outside the recorded write sets of the undropped rows |
| `Projection.ReplayRuns` | packages/local-sql/src/LocalStore.ts:1742-1846 | replaying runs every row that still waits, and no other, in sequence, from canonical minus retractions: each on the table before it, leaving for each entity what its last change says and recording result and changes, and a refused row changes no table |
| `Projection.OnlyReplay` | packages/local-sql/src/LocalStore.ts:1742-1846 | any tables and records that come about row by row in that way end in the replay and in its write sets |
| `Tables.ApplyAllWrites` | packages/local-sql/src/LocalStore.ts:3887-3897 | after a handler's changes the table has, for each entity, the value of its last change, or no row if that is a deletion, and every entity they do not name is as before |
| `Rebuild.RebuildHidesRetracted` | packages/local-sql/src/LocalStore.ts:1821-1846 | a rebuild leaves no retracted entity visible, for any batch size and any mutations |
| `Rebuild.RebuildIsReplay` | packages/local-sql/src/LocalStore.ts:1848-2045 | if no replayed mutation writes a retracted entity, the batched rebuild, which filters after every batch, gives the one-piece replay and its write sets |
| `Rebuild.DeltaEqualsRebuild` | packages/local-sql/src/LocalStore.ts:1848-2370 | under that condition rebuild and delta promote the same rows and write sets, for any batch size |
| `Divergence.RebuildEqualsDeltaExactly` | packages/local-sql/src/LocalStore.ts:1821-2370 | with a given batch size, rebuild and delta give the same rows and write sets for all handlers if and only if nothing is retracted or no batch ends between two undropped rows |
| `Divergence.SeparatedDiffer` | packages/local-sql/src/LocalStore.ts:1837-1845 | otherwise some handler makes the rebuild with that batch size and the delta disagree |
| `Divergence.AgreeAtEverySizeExactly` | packages/local-sql/src/LocalStore.ts:1821-2370 | they agree for all handlers and all batch sizes if and only if nothing is retracted or at most one row is undropped |
| `RebuildRuns.EventKeeps` | packages/local-sql/src/LocalStore.ts:1868-1976 | every transaction of a rebuild, and a restart between any two, keeps the outcome it will promote and leaves the visible generation alone |
| `RebuildRuns.EventAdvances` | packages/local-sql/src/LocalStore.ts:1868-1976 | every transaction decreases the lexicographic measure of phase and rows left |
| `RebuildRuns.CanAdvance` | packages/local-sql/src/LocalStore.ts:1868-1976 | an unfinished rebuild without a foreign receipt always has a transaction to run |
| `RebuildRuns.RunKeeps` | packages/local-sql/src/LocalStore.ts:1848-1976 | the outcome and the visible rows are the same after any run of transactions and restarts |
| `RebuildRuns.RunSteps` | packages/local-sql/src/LocalStore.ts:1868-1976 | a run of a rebuild is its transactions one after the other, each enabled where it happens |
| `RebuildRuns.ResumedRunPromotes` | packages/local-sql/src/LocalStore.ts:1978-2014 | a run resumed from any cursor after any number of crashes promotes exactly what an uninterrupted one would, and until then the visible rows never change |
| `RebuildRuns.RequestedOutcome` | packages/local-sql/src/LocalStore.ts:1715-1724 | a rebuild requested now will promote the rebuilt projection of the present state |
| `ProjectionRuns.StepKeepsInvariant` | packages/local-sql/src/LocalStore.ts:2127-2145 | every event (mutation, page, snapshot, revocation, receipts, quarantine resolution, settlement, projection, rebuild, crash) keeps the frame of the projection and, after clean replays, its coherence with a previously projected base |
| `ProjectionRuns.RunKeepsInvariant` | packages/local-sql/src/LocalStore.ts:3587-3646 | the same over every finite run of events |
| `ProjectionRuns.EventWrites` | packages/local-sql/src/LocalStore.ts:2489-2579 | what a receipt, a submission mark, logged entries, a quarantine resolution and a restart write to the tables, and that they leave the rest alone |
| `ProjectionRuns.RunAllSteps` | packages/local-sql/src/LocalStore.ts:3587-3646 | a run of the operations is its events one after the other, each enabled where it happens |
| `ProjectionRuns.InitialHolds` | packages/local-sql/src/LocalStore.ts:4026-4046 | a space without pending or dirty entities, whose visible rows are its base, satisfies the invariant |
| `ProjectionRuns.MutateKeeps` | packages/local-sql/src/LocalStore.ts:3887-3924 | a local mutation keeps the invariant: the replay grows by one row at its end |
| `ProjectionRuns.PageKeeps` | packages/local-sql/src/LocalStore.ts:3587-3646 | a page of the view keeps the frame by marking what it touches as dirty |
| `ProjectionRuns.ReplacedViewKeeps` | packages/local-sql/src/LocalStore.ts:3409-3573 | installing, and likewise revoking and applying logged entries, keeps the invariant and requests a replay |
| `ProjectionRuns.ResolveKeeps` | packages/local-sql/src/LocalStore.ts:2906-3008 | resolving a quarantined mutation keeps the frame |
| `ProjectionRuns.PrepareKeeps` | packages/local-sql/src/LocalStore.ts:2646-2758 | marking the write sets of settled rows as dirty keeps the invariant |
| `ProjectionRuns.SkipKeeps` | packages/local-sql/src/LocalStore.ts:2628-2640 | not projecting when the settled rows wrote nothing keeps the invariant |
| `ProjectionRuns.DeleteKeeps` | packages/local-sql/src/LocalStore.ts:1201-1249 | deleting settled rows keeps the frame and the coherence |
| `ProjectionRuns.SettledIsDropped` | packages/local-sql/src/LocalStore.ts:2690-2715 | every row that a receipt settles had already been dropped by replay |
| `ProjectionRuns.CoveredIsDropped` | packages/local-sql/src/LocalStore.ts:3489-3507 | every row that an arriving snapshot covers is dropped by replay once it is installed |
| `ProjectionRuns.SettlesExactly` | packages/local-sql/src/LocalStore.ts:2690-2715 | a row settles exactly if its own receipt is a rejection, an acceptance with log evidence, an acceptance at or below the cursor, or an expiry within the installed snapshot's two marks |
| `ProjectionRuns.CoveredExactly` | packages/local-sql/src/LocalStore.ts:3489-3507 | a snapshot covers a row exactly if its own receipt is an acceptance or expiry within both of the snapshot's marks or a rejection at or below the terminal one |
| `ProjectionRuns.DroppedIsSettled` | packages/local-sql/src/LocalStore.ts:1742-1756 | with the installed snapshot at or before the watermark, a row that could be replayed is dropped because of its receipt exactly if a settlement takes it |
| `ProjectionRuns.RunKeepsAnchor` | packages/local-sql/src/LocalStore.ts:3475-3575 | over every run the installed snapshot stays at or before the watermark |
| `ProjectionRuns.DeletingIsNeutral` | packages/local-sql/src/LocalStore.ts:1201-1249 | deleting settled rows changes neither the visible rows nor what replaying the outbox gives |
| `ProjectionRuns.NoRowIsMissed` | packages/local-sql/src/LocalStore.ts:2889-3047 | after every step without a requested replay each undropped row has been run by the projection, except, and exactly then, when a quarantined mutation is resolved by a receipt that is not terminally ready and cancels nothing |
| `ProjectionRuns.ResolvedRowIsInvisible` | packages/local-sql/src/LocalStore.ts:2994-3047 | a concrete state in which that exception leaves an accepted mutation pending but not visible |
| `ProjectionRuns.VisibleMeansReplay` | packages/local-sql/src/LocalStore.ts:1742-1819 | with nothing dirty, clean replays and every undropped row run, visible is the replay of the outbox over canonical minus retractions, and the stored write sets are those of that replay |
| `ProjectionRuns.ProjectMeansReplay` | packages/local-sql/src/LocalStore.ts:2628-2640 | every projection that ran cleanly establishes that meaning, whether by shortcut, delta or rebuild |
| `ProjectionRuns.ProjectHidesRetracted` | packages/local-sql/src/LocalStore.ts:2628-2640 | no projection, clean or not, leaves a retracted entity visible |
| `LocalStore.ProjectionStore.RequestProjectionReplay` | packages/local-sql/src/LocalStore.ts:1715-1724 | requests a generation once and keeps a request that already stands |
| `LocalStore.ProjectionStore.RowPasses` | packages/local-sql/src/LocalStore.ts:2176-2184 | a row passes iff it is dropped exactly when each entity it wrote is dirty |
| `LocalStore.ProjectionStore.ProjectionMatchesReplay` | packages/local-sql/src/LocalStore.ts:2147-2227 | the paged scan returns true iff no receipt is foreign, the dropped rows form a prefix whose write sets are dirty while no other is, no replayed write set meets a retraction, and the dirty rows agree with the base |
| `LocalStore.ShortcutExactly` | packages/local-sql/src/LocalStore.ts:2147-2227 | row by row, when nothing needs to be replayed: the waiting rows come last, exactly the others' write sets are dirty, no waiting row wrote anything retracted, and the dirty rows agree with the base |
| `LocalStore.ProjectionStore.ReplayPendingRow` | packages/local-sql/src/LocalStore.ts:1758-1819 | runs one waiting row on top of the rows before it, so that each entity it changes ends as its last change says and result and changes are recorded, leaves a row that does not wait alone, and fails exactly on a foreign receipt |
| `LocalStore.ProjectionStore.ReplayPage` | packages/local-sql/src/LocalStore.ts:1828-1836 | replays a page of rows in order |
| `LocalStore.ProjectionStore.ReplayOutbox` | packages/local-sql/src/LocalStore.ts:2320-2341 | the paged loop computes the fold of all undropped rows, whatever the page size |
| `LocalStore.ProjectionStore.TouchedEntities` | packages/local-sql/src/LocalStore.ts:2267-2290 | collects the dirty entities and every recorded write set |
| `LocalStore.ProjectionStore.ReplayTouched` | packages/local-sql/src/LocalStore.ts:2291-2368 | the delta: the new outbox and rows are those of the specification, or nothing changes on a foreign receipt |
| `LocalStore.ProjectionStore.ApplyProjectionDelta` | packages/local-sql/src/LocalStore.ts:2229-2370 | yields to a requested rebuild, clears the dirty set when the shortcut holds, and applies the delta otherwise |
| `LocalStore.ProjectionStore.DeleteProjectionRows` | packages/local-sql/src/LocalStore.ts:1870-1900 | one cleanup transaction is a cleanup event of the run |
| `LocalStore.ProjectionStore.CopyProjectionRows` | packages/local-sql/src/LocalStore.ts:1909-1933 | one copy transaction is a copy event of the run |
| `LocalStore.ProjectionStore.ReplayBatchRows` | packages/local-sql/src/LocalStore.ts:1821-1846 | one batch replayed, filtered and its entities collected |
| `LocalStore.ProjectionStore.ReplayPendingBatch` | packages/local-sql/src/LocalStore.ts:1948-1972 | one replay transaction is a replay event of the run, finds nothing left to replay, or fails on a foreign receipt without a change |
| `LocalStore.ProjectionStore.PromoteProjection` | packages/local-sql/src/LocalStore.ts:1978-2014 | swaps the generations and reports the dirty entities |
| `LocalStore.ProjectionStore.CollectGenerations` | packages/local-sql/src/LocalStore.ts:2016-2043 | deletes every superseded row and no visible one |
| `LocalStore.ProjectionStore.EmptyTarget` | packages/local-sql/src/LocalStore.ts:1868-1905 | the cleanup loop ends with the promised outcome unchanged |
| `LocalStore.ProjectionStore.CopyCanonical` | packages/local-sql/src/LocalStore.ts:1907-1938 | the copy loop ends with the promised outcome unchanged |
| `LocalStore.ProjectionStore.ReplayBatches` | packages/local-sql/src/LocalStore.ts:1947-1976 | the replay loop ends ready to promote the promised outcome, or at a foreign receipt |
| `LocalStore.ProjectionStore.FinishRebuild` | packages/local-sql/src/LocalStore.ts:1978-2044 | promotes the promised outcome and empties all other generations |
| `LocalStore.ProjectionStore.RebuildProjection` | packages/local-sql/src/LocalStore.ts:1848-2045 | from any stored cursor the rebuild terminates and promotes the outcome that cursor promised, or stops at a foreign receipt with the promise kept |
| `StoreOperations.Mutate` | packages/local-sql/src/LocalStore.ts:3817-3925 | a mutation is refused exactly when pending and quarantined mutations fill the capacity, leaves no trace exactly when the handler rejects it, and otherwise leaves each changed entity visible as its last change says and itself pending, queued, at the next local sequence |
| `StoreOperations.Record` | packages/local-sql/src/LocalStore.ts:3887-3924 | what the handler committed becomes visible and the mutation joins the outbox, as the mutation event of the run |
| `StoreOperations.WriteVisible` | packages/local-sql/src/LocalStore.ts:3887-3897 | after it each entity the handler changed is visible with the value of its last change, or gone if that is a deletion, and every other is as before |
| `StoreOperations.ApplyViewChange` | packages/local-sql/src/LocalStore.ts:3134-3173 | an upsert leaves its row canonical and unfenced, a removal neither row nor fence, a retraction a fence and no row, and every other entity is as before |
| `StoreOperations.ApplyViewChanges` | packages/local-sql/src/LocalStore.ts:3621-3625 | the last change of each entity stands, an entity that none names is as before, and every entity named is reported |
| `StoreOperations.ApplyViewPage` | packages/local-sql/src/LocalStore.ts:3587-3638 | a page is refused exactly when its last part would move the watermark back; otherwise its changes stand, what they name is dirty and the watermark is the page's |
| `StoreOperations.RevokeReplication` | packages/local-sql/src/LocalStore.ts:3657-3697 | everything known is retracted and marked, nothing canonical stays, and a replay is requested |
| `StoreOperations.PrepareSettlements` | packages/local-sql/src/LocalStore.ts:2646-2730 | finds exactly the rows whose receipt is a rejection, an acceptance with log evidence or at or below the cursor, or an expiry within the installed marks, and marks their write sets; or fails without a change exactly when a receipt does not belong to its row or to its log entry |
| `StoreOperations.FindCovered` | packages/local-sql/src/LocalStore.ts:3453-3507 | finds exactly the rows whose receipts lie within the snapshot's marks, or fails exactly on a receipt that names another mutation |
| `StoreOperations.AwaitLogged` | packages/local-sql/src/LocalStore.ts:3509-3552 | exactly the rows with accepted log evidence up to the snapshot lose it and wait for their receipt |
| `StoreOperations.ReplaceView` | packages/local-sql/src/LocalStore.ts:3431-3549 | the snapshot's entries stand, an entity it does not name has no row and is retracted exactly if it was or had one, and the fence stays disjoint from canonical |
| `StoreOperations.WriteSnapshot` | packages/local-sql/src/LocalStore.ts:3431-3573 | every write of an installation, as the install event of the run |
| `StoreOperations.InstallSnapshot` | packages/local-sql/src/LocalStore.ts:3409-3575 | an installation fails without a change exactly when it is older than the watermark or a receipt belongs elsewhere; otherwise canonical is exactly the snapshot's puts, every entity it does not name is retracted exactly if it was retracted or canonical before, and the covered rows are those whose receipts lie within its marks |
| `StoreOperations.RebuildRequested` | packages/local-sql/src/LocalStore.ts:1848-2045 | a rebuild started from its request gives the rebuilt state, and the run's invariant rules out its failure |
| `StoreOperations.Project` | packages/local-sql/src/LocalStore.ts:2628-2640 | projecting in the gate, by whichever way applies, gives the projected state of the run |
| `StoreOperations.ConcludedIsFaithful` | packages/local-sql/src/LocalStore.ts:2646-2775 | projecting and then deleting the settled rows ends, after clean replays, with visible equal to the replay of the remaining outbox |
| `StoreOperations.Conclude` | packages/local-sql/src/LocalStore.ts:2761-2775 | the imperative form of that |
| `StoreOperations.Settle` | packages/local-sql/src/LocalStore.ts:2628-2778 | a settlement deletes exactly the rows due, so that no row left is due; with a page, or if those rows wrote something, it leaves visible equal to the replay of the rest, and otherwise it changes nothing else; on a foreign receipt it only projects, and without a page changes nothing |
| `StoreOperations.SkippedIsNeutral` | packages/local-sql/src/LocalStore.ts:2628-2640 | not projecting rows that wrote nothing keeps the invariant and the replay, and visible equal to the replay if it was |
| `StoreOperations.ReceivePage` | packages/local-sql/src/LocalStore.ts:3587-3646 | a whole page: refused exactly if it moves the watermark back, staged, or settled, with every row due at the new watermark gone and visible equal to the replay of the remaining outbox over the new view |
| `StoreOperations.ReceiveSnapshot` | packages/local-sql/src/LocalStore.ts:3409-3577 | a whole installation: refused exactly if older than the watermark, or ended with the covered rows gone, canonical exactly the snapshot's puts, everything else that was canonical retracted and invisible, and visible equal to the replay of the rest over the snapshot |
| `StoreOperations.Revoke` | packages/local-sql/src/LocalStore.ts:3657-3701 | a whole revocation: nothing canonical, everything formerly known retracted and invisible, the outbox kept |
| `View.ViewFrame` | packages/local-sql/src/LocalStore.ts:3134-3173 | view changes affect no entity they do not name |
| `View.ViewKeepsFence` | packages/local-sql/src/LocalStore.ts:3134-3173 | canonical and retractions stay disjoint |
| `View.ApplyViewStands` | packages/local-sql/src/LocalStore.ts:3134-3173 | of a list of view changes the last one of each entity stands: a row, nothing, or a retraction |
| `View.ReplacementReplaces` | packages/local-sql/src/LocalStore.ts:3431-3549 | a replaced view has the entries standing, no other row, and retracts whatever else was retracted or canonical |
| `View.ReplacedByPuts` | packages/local-sql/src/LocalStore.ts:3431-3549 | if each entity is named once, its canonical rows are exactly the puts |
| `SettlementLog.VictimsAreOldest` | packages/local-sql/src/LocalStore.ts:2382-2405 | pruning takes receipts of no pending row, takes settled ones as a prefix of the log, and takes enough unless none is left |
| `SettlementLog.PruneTakesOldest` | packages/local-sql/src/LocalStore.ts:2372-2444 | a prune to a target removes exactly the surplus, or everything but the receipts of pending rows; those without a settlement before any other, the oldest of each kind before the younger; and of what goes exactly the recent identities stay known |
| `SettlementLog.PrunedInterval` | packages/local-sql/src/LocalStore.ts:2372-2444 | pruning keeps the retained settlement sequences an interval and records exactly how far it went |
| `SettlementLog.PrunedMarks` | packages/local-sql/src/LocalStore.ts:2421-2442 | the prune marks stay exact for every name and never fall |
| `SettlementLog.PrunedIdentities` | packages/local-sql/src/LocalStore.ts:2406-2420 | an identity pruned from the receipts stays known for the retained number of allocations |
| `SettlementLog.PruneKeepsValid` | packages/local-sql/src/LocalStore.ts:2372-2444 | pruning keeps the whole invariant of the log |
| `SettlementLog.CapacityExactly` | packages/local-sql/src/LocalStore.ts:2566-2573 | pruning leaves the receipt capacity exhausted if and only if the receipts of pending rows alone exhaust it |
| `SettlementLog.CapacityIsUnreachable` | packages/local-sql/src/LocalStore.ts:2566-2573 | with at most as many pending rows as receipts allowed, a pending row without a receipt always finds room |
| `SettlementRuns.SearchIsExact` | packages/local-sql/src/LocalStore.ts:3755-3815 | a repeated identity is unknown iff no retained mutation has it, and returns a recorded mutation iff it is the same mutation |
| `SettlementRuns.AdmitExactly` | packages/local-sql/src/LocalStore.ts:4224-4232 | the answer to a request: repeated with the row that records the same mutation, a conflict if the identity is known otherwise, and for a new identity exhausted, full or created under exactly the two limits |
| `SettlementRuns.SetAsideMoves` | packages/local-sql/src/SchemaEvolution.ts:1059-1075 | setting a pending row aside moves it to quarantine and no other row anywhere |
| `SettlementRuns.ResolvesExactly` | packages/local-sql/src/LocalStore.ts:2994-3008 | a quarantined row comes back pending with its receipt, next to what a prune to the retention target leaves, exactly if the held receipts leave room; otherwise nothing changes |
| `SettlementRuns.StepKeepsValid` | packages/local-sql/src/LocalStore.ts:1201-1249 | every step of allocation, receipts, settlement, quarantine, acknowledgement keeps the log valid |
| `SettlementRuns.RunKeepsValid` | packages/local-sql/src/LocalStore.ts:2372-2444 | the same over every run, along which marks, floors and sequences only grow |
| `SettlementRuns.RunSteps` | packages/local-sql/src/LocalStore.ts:2372-2444 | a run of the log is its steps one after the other |
| `SettlementRuns.InitialHolds` | packages/local-sql/src/LocalStore.ts:619-625 | a fresh space satisfies the invariant of the log |
| `SettlementRuns.StepGrows` | packages/local-sql/src/LocalStore.ts:1390-1392 | no step lowers a mark, the floor or the next settled sequence, or forgets history |
| `SettlementRuns.IdentityOverRuns` | packages/local-sql/src/LocalStore.ts:4224-4232 | over every run two local sequences share an identity only if more than the retained number of allocations lies between them, and within that span a repeated identity allocates nothing |
| `ReceiptCapacity.StepBounds` | packages/local-sql/src/LocalStore.ts:3848-3855 | one step keeps pending plus quarantined within the capacity, one above it only for a resubmission |
| `ReceiptCapacity.RunBounds` | packages/local-sql/src/LocalStore.ts:3848-3855 | the same over every run |
| `ReceiptCapacity.ReceiptFits` | packages/local-sql/src/LocalStore.ts:2545-2579 | with at most as many unresolved mutations as receipts allowed, the receipt of a pending row is stored |
| `ReceiptCapacity.ReceiptsAlwaysFit` | packages/local-sql/src/LocalStore.ts:2545-2579 | over every run the receipt of a pending row is stored when the receipt capacity exceeds the pending capacity, or when no quarantined mutation was resubmitted |
| `ReceiptCapacity.PersistStoresExactly` | packages/local-sql/src/LocalStore.ts:2545-2579 | the receipt of a pending row is there after it arrived if and only if it was before, or the receipts held by pending rows are fewer than the capacity |
| `ReceiptCapacity.Overflows` | packages/local-sql/src/LocalStore.ts:3848-3855 | for every configuration with equal capacities a run that resubmits reaches a pending row whose receipt is refused |
| `ReceiptCapacity.ReceiptsFitExactly` | packages/local-sql/src/LocalStore.ts:286-303 | over every run every receipt of a pending row is stored if and only if the receipt capacity exceeds the pending capacity, or the local sequences run out before it is filled |
| `SettlementRuns.TruncatedExactly` | packages/local-sql/src/LocalStore.ts:1338-1344 | a read is truncated if and only if a settlement of that name after the position is no longer retained |
| `SettlementRuns.ReadIsComplete` | packages/local-sql/src/LocalStore.ts:1345-1355 | a successful read is the next page of all settlements of that name ever numbered |
| `SettlementRuns.PollDelivers` | packages/local-sql/src/LocalStore.ts:1361-1380 | a poll that is not refused moves on and reaches everything outstanding, up to a full page |
| `ReceiptStore.ReadsExactly` | packages/local-sql/src/LocalStore.ts:1328-1359 | a read is refused exactly if a settlement of that name past the position is gone; otherwise it lists retained ones of the name in order and skips none before its end |
| `SettlementRuns.ReaderMissesNothing` | packages/local-sql/src/LocalStore.ts:1361-1380 | over every interleaving of polls and steps a subscriber that is never truncated has seen exactly the settlements after its start, in order, once each |
| `ReceiptStore.Receipts.SelectPrunable` | packages/local-sql/src/LocalStore.ts:2382-2405 | the three queries select the victims in order |
| `ReceiptStore.Receipts.HighestSequences` | packages/local-sql/src/LocalStore.ts:2421-2431 | the loop finds the highest settled sequence, overall and by name |
| `ReceiptStore.Receipts.UpsertMarks` | packages/local-sql/src/LocalStore.ts:2432-2437 | every named mark is raised to at least its highest pruned sequence |
| `ReceiptStore.Receipts.RaiseMarks` | packages/local-sql/src/LocalStore.ts:2421-2442 | both kinds of marks are raised as specified |
| `ReceiptStore.Receipts.DropReceipts` | packages/local-sql/src/LocalStore.ts:2406-2420 | receipts move to the retired identities, of which old ones go |
| `ReceiptStore.Receipts.Retire` | packages/local-sql/src/LocalStore.ts:2406-2442 | dropping and marking together are the specified pruning |
| `ReceiptStore.Receipts.PruneReceipts` | packages/local-sql/src/LocalStore.ts:2372-2444 | pruning removes exactly the surplus over the target, oldest first and unsettled before settled, and nothing that is held |
| `ReceiptStore.Receipts.InsertReceipt` | packages/local-sql/src/LocalStore.ts:2566-2574 | a receipt is stored exactly when pruning leaves room; otherwise everything is rolled back |
| `ReceiptStore.Receipts.PersistReceipt` | packages/local-sql/src/LocalStore.ts:2489-2579 | a receipt for a pending row that has none is stored exactly if the held receipts leave room, next to what a prune to the retention target leaves; otherwise nothing changes |
| `ReceiptStore.Receipts.NumberSettled` | packages/local-sql/src/LocalStore.ts:1231-1240 | deleted rows get consecutive settlement sequences in order |
| `ReceiptStore.Receipts.DeleteSettledPending` | packages/local-sql/src/LocalStore.ts:1201-1249 | settling a batch deletes exactly its rows still pending with their receipts and gives them the next settlement sequences in the order of the batch |
| `ReceiptStore.SettleIsBulk` | packages/local-sql/src/LocalStore.ts:1204-1240 | deleting and numbering in bulk is the same as settling one row after the other |
| `ReceiptStore.Receipts.AcknowledgeSettlements` | packages/local-sql/src/LocalStore.ts:1382-1396 | the floor becomes the acknowledged sequence, or the last settled one if that is lower, and never falls |
| `ReceiptStore.Receipts.ReadSettlements` | packages/local-sql/src/LocalStore.ts:1328-1359 | a read is refused exactly if a settlement of the name past the position is gone, and otherwise is the next page of everything ever settled under the name |
| `ReceiptStore.Receipts.RecordedMutation` | packages/local-sql/src/LocalStore.ts:3755-3815 | the lookup by identity in its four places |
| `ReceiptStore.Receipts.Mutate` | packages/local-sql/src/LocalStore.ts:4224-4232 | a repeated mutation is answered with the row that records it, a known identity with other content is a conflict, and a new one is exhausted, refused for capacity or recorded pending under the next local sequence, each in exactly its case |
| `Quarantine.StepKeepsValid` | packages/local-sql/src/LocalStore.ts:2855-3027 | a step keeps the tables consistent (links from quarantined originals to later, unclaimed replacements still pending or quarantined; cancellations at quarantined mutations) if and only if it resolves no replacement before its original |
| `Quarantine.RunKeepsValid` | packages/local-sql/src/LocalStore.ts:3927-4016 | the same over every run |
| `Quarantine.RunSteps` | packages/local-sql/src/LocalStore.ts:3927-4016 | a run is its steps one after the other, and in order if each of them is |
| `Quarantine.NeverCorrupt` | packages/local-sql/src/LocalStore.ts:2962-2966 | over every such run the missing-replacement and missing-current branches are never taken |
| `Quarantine.ProceedWorks` | packages/local-sql/src/LocalStore.ts:1201-1529 | what else happens to the outbox: a row arrives under the next sequence, one before every quarantined row is claimed, a claimed one gets its receipt, one with a receipt leaves; and nothing else moves |
| `Quarantine.EnsureKeeps` | packages/local-sql/src/LocalStore.ts:3927-4016 | asking for a resubmission keeps the links valid and never finds the replacement missing |
| `Quarantine.EnsuredAnswers` | packages/local-sql/src/LocalStore.ts:3927-4016 | in consistent tables: the recorded replacement if it is pending and the content the same, a new one for a mutation without, or not found, in conflict, rejected or refused, each in exactly its case |
| `Quarantine.EnsuredCorruptExactly` | packages/local-sql/src/LocalStore.ts:2962-2966 | in whatever tables, exactly when asking for a resubmission finds a replacement missing or its row taken |
| `Quarantine.ResolveShape` | packages/local-sql/src/LocalStore.ts:2889-3027 | what resolving changes: the original becomes pending with its receipt, the replacement is set aside or kept |
| `Quarantine.ResolveCancellations` | packages/local-sql/src/LocalStore.ts:2970-2998 | what resolving does to the cancellation records: the chain of the same root moves on by one, or ends |
| `Quarantine.ResolveReturns` | packages/local-sql/src/LocalStore.ts:2889-3027 | the answers of a resolution with their reasons and whole effects, on rows, links and every cancellation |
| `Quarantine.ResolveCorruptExactly` | packages/local-sql/src/LocalStore.ts:2955-3027 | in whatever tables, exactly when resolving finds the replacement missing or a row taken |
| `Quarantine.SetAsideMoves` | packages/local-sql/src/SchemaEvolution.ts:1059-1075 | exactly a pending row without a receipt moves to quarantine when it is set aside, and nothing else changes |
| `Quarantine.ContinuesExactly` | packages/local-sql/src/LocalStore.ts:1573-1600 | continuing finds the mutation a cancellation is at, nothing if there is none, and fails exactly if that mutation is not in quarantine |
| `Quarantine.ResolveKeepsExactly` | packages/local-sql/src/LocalStore.ts:2855-3027 | resolving keeps the links valid if and only if the resolved mutation is not itself a linked replacement |
| `QuarantineServer.AnswersRise` | packages/local-sql/src/ServerStore.ts:1631-1638 | the last answered sequence rises to every answer, heard or not, and to nothing else |
| `QuarantineServer.ExposesExactly` | packages/local-sql/src/ServerStore.ts:1631-1638 | with a server that answers in local order, a step keeps every quarantined and resubmitted original unanswered if and only if it neither resubmits an answered original nor lets an answer to a resubmitted one go unheard |
| `QuarantineServer.AlwaysInOrderExactly` | packages/local-sql/src/ServerStore.ts:1631-1638 | with such a server no replacement is ever resolved before its original, over all runs without such a step, if and only if no quarantined and resubmitted original has been answered |
| `QuarantineServer.OutOfOrderCorrupts` | packages/local-sql/src/ServerStore.ts:1631-1638 | a concrete run with such a server: a mutation accepted but not heard of is set aside and resubmitted, its replacement is set aside, answered and settled, and the missing-replacement branch is taken |
| `Quarantine.ChainStep` | packages/local-sql/src/SqlReplica.ts:1214-1221 | one round of a cancellation either ends the chain or moves to its next mutation with fewer links left |
| `Quarantine.ChainFollows` | packages/local-sql/src/SqlReplica.ts:1214-1221 | the chain of a mutation is the least set with it that follows every link |
| `Quarantine.DiscardStarts` | packages/local-sql/src/SqlReplica.ts:1311-1316 | discarding a quarantined mutation starts the chain that the continuation finishes |
| `Quarantine.InterruptedResumes` | packages/local-sql/src/SqlReplica.ts:1301-1322 | whoever goes on with an interrupted cancellation ends where an uninterrupted one does |
| `Quarantine.EnsuredChain` | packages/local-sql/src/LocalStore.ts:4012-4016 | a fresh resubmission adds one link and disturbs no chain |
| `Quarantine.QuarantineStore.EnsureResubmission` | packages/local-sql/src/LocalStore.ts:3927-4024 | the transaction and all its failures, in consistent tables with every answer's reason and effect |
| `Quarantine.QuarantineStore.ResolveQuarantine` | packages/local-sql/src/LocalStore.ts:2855-3033 | the transaction and all its failures, in consistent tables with every answer's reason and effect |
| `Quarantine.QuarantineStore.ContinueCancellation` | packages/local-sql/src/SqlReplica.ts:1209-1222 | the loop terminates, because links decrease; it cancels the whole chain, or stops on it exactly because the server failed, and touches nothing but the chain, whatever else happens between its rounds |
| `Quarantine.QuarantineStore.DiscardQuarantined` | packages/local-sql/src/SqlReplica.ts:1301-1322 | discarding cancels the mutation with its whole chain of replacements, or resumes a cancellation that was interrupted, or fails because the server did, unchanged or at a point from where it can be resumed, and touches no other row or chain; the tables agree afterwards if and only if what was resolved was no linked replacement, and apart from the dangling link always |
| `Quarantine.QuarantineStore.ResubmitQuarantined` | packages/local-sql/src/SqlReplica.ts:1323-1356 | a resubmission ends with the replacement pending and unclaimed exactly if the server answered so, and else with the whole chain canceled; or resumes a cancellation; every failure has its reason and leaves the new mutation recorded or a point to resume from; nothing else is touched; the tables agree afterwards under the same condition |
| `CommitOrder.CulpritCommutes` | packages/local-sql/src/LocalStore.ts:4180-4183 | taking a mutation that died out of the queue changes nobody else's outcome |
| `CommitOrder.AbortKeeps` | packages/local-sql/src/LocalStore.ts:4180-4183 | settling the culprit alone and carrying the rest keeps the sequential meaning of the queue |
| `CommitOrder.CommitKeeps` | packages/local-sql/src/LocalStore.ts:4174-4178 | committing a batch keeps the sequential meaning of the queue |
| `CommitQueue.CommitQueue.Settle` | packages/local-sql/src/LocalStore.ts:4088-4089 | an outcome is told and its ticket released |
| `CommitQueue.CommitQueue.Claim` | packages/local-sql/src/LocalStore.ts:4107-4111 | claiming drops the withdrawn requests and releases their tickets |
| `CommitQueue.CommitQueue.Poll` | packages/local-sql/src/LocalStore.ts:4116-4120 | polling takes requests in queue order up to the batch size |
| `CommitQueue.CommitQueue.ClaimBatch` | packages/local-sql/src/LocalStore.ts:4105-4120 | a batch and the queue behind it are together the standing requests, in order |
| `CommitQueue.CommitQueue.RunBatch` | packages/local-sql/src/LocalStore.ts:4122-4146 | a batch commits every effect and tells every outcome, or a culprit leaves the store as it was |
| `CommitQueue.CommitQueue.CommitBatch` | packages/local-sql/src/LocalStore.ts:4105-4187 | a batch is one round of the rounds below, and loses or releases no ticket twice |
| `CommitQueue.CommitQueue.CommitAll` | packages/local-sql/src/LocalStore.ts:4189-4195 | the loop over carried requests terminates and ends where the rounds end |
| `CommitQueue.CommitQueue.CommitQueued` | packages/local-sql/src/LocalStore.ts:4197-4203 | the queue is worked off to where the rounds end, every ticket is released exactly once, and store and outcomes are those of running each request that stood when first looked at alone, in order, if and only if none is withdrawn after a round that claimed it has aborted |
| `CommitRounds.SameAsAloneExactly` | packages/local-sql/src/LocalStore.ts:4105-4203 | for all handlers, polls and withdrawals the rounds end as if each request that stood when first looked at had run alone, in order, if and only if none of them is withdrawn after a round that claimed it has aborted |
| `CommitRounds.AcceptedStood` | packages/local-sql/src/LocalStore.ts:4107-4120 | every queued request is looked at first in one round, and those that stood are the ones not withdrawn in that round, in queue order |
| `CommitRounds.PolledExactly` | packages/local-sql/src/LocalStore.ts:4116-4120 | polling ends exactly at a full batch, an empty queue or the last poll |
| `CommitRounds.BatchExactly` | packages/local-sql/src/LocalStore.ts:4105-4120 | a batch is what stands of the carried requests and of the shortest prefix of the queue at which it is full, within thirty-two; nothing is polled when all carried requests were withdrawn |
| `CommitRounds.QueuedIsNeverLate` | packages/local-sql/src/LocalStore.ts:4107-4120 | withdrawing a request while it is still queued, in whatever round, is never late |
| `CommitRounds.RoundsAreLinear` | packages/local-sql/src/LocalStore.ts:4174-4187 | however requests are withdrawn, the store is that of some of the requests run alone in order, those were told what they were told alone, and anyone else was told of a crash |
| `CommitRounds.RoundKeepsWaiting` | packages/local-sql/src/LocalStore.ts:4105-4187 | through every round each ticket waits at most once, and nobody who waits has been told anything |
| `CommitRounds.LateWithdrawalDiffers` | packages/local-sql/src/LocalStore.ts:4105-4187 | a concrete queue of two: the second crashes on what the first did, the first is then withdrawn, and no list of requests run alone in order explains the store and the answer |
| `CommitBarrier.CommitBarriers.Admit` | packages/local-sql/src/LocalStore.ts:4221-4262 | tickets are handed out in sequence |
| `CommitBarrier.CommitBarriers.AfterLocalCommits` | packages/local-sql/src/LocalStore.ts:4081-4087 | a barrier is open at once iff everything admitted is released |
| `CommitBarrier.CommitBarriers.Advance` | packages/local-sql/src/LocalStore.ts:4072-4073 | the released count is the longest fully released prefix and the rest is kept ahead |
| `CommitBarrier.CommitBarriers.OpenReached` | packages/local-sql/src/LocalStore.ts:4074-4079 | checking only the first barrier opens exactly those whose mutations are all released |
| `CommitBarrier.CommitBarriers.ReleaseCommits` | packages/local-sql/src/LocalStore.ts:4071-4080 | a release keeps all of that, and closes no barrier |
| `CommitBarrier.OrderIsIrrelevant` | packages/local-sql/src/LocalStore.ts:4067-4087 | the order of releases makes no difference to the counters or to the open barriers |
| `StatementCache.Connection.CheckoutCached` | packages/local-expo/src/ExpoSqliteClient.ts:194-202 | a hit takes an idle cached statement and makes it the most recently used |
| `StatementCache.Connection.PrepareCompleted` | packages/local-expo/src/ExpoSqliteClient.ts:203-213 | a fresh statement is cached as the newest unless its text already is, and evicts exactly the least recently used one; the checkout fails and strands it if and only if the cache is full, the evicted statement is idle and cannot be finalized |
| `StatementCache.StrandsExactly` | packages/local-expo/src/ExpoSqliteClient.ts:203-213 | the same of one step of the cache |
| `StatementCache.StrandedForever` | packages/local-expo/src/ExpoSqliteClient.ts:173-226 | a stranded statement stays in use and unfinalized through every later run, nobody may return it, and while it is cached its text is never found |
| `StatementCache.StrandingHappens` | packages/local-expo/src/ExpoSqliteClient.ts:173-226 | a concrete cache of one in which this happens |
| `StatementCache.RunKeepsSound` | packages/local-expo/src/ExpoSqliteClient.ts:173-226 | over every run of uses, preparations and returns a statement is finalized once if it is neither cached nor running, and otherwise never |
| `StatementCache.Connection.Evict` | packages/local-expo/src/ExpoSqliteClient.ts:180-187 | an evicted statement is finalized once, at once if idle and not yet if running |
| `StatementCache.Connection.Checkin` | packages/local-expo/src/ExpoSqliteClient.ts:216-226 | a statement that is no longer cached is finalized once, a cached one kept, a failed one dropped |
| `StatementCache.OpenExactly` | packages/local-expo/src/ExpoSqliteClient.ts:173-226 | in every reachable state the open statements are exactly the cached and the running ones, the cache is within its size, and none is finalized twice |
| `StatementCache.HeadIsOldest` | packages/local-expo/src/ExpoSqliteClient.ts:189-192 | the first statement of the cache is the least recently used |
| `Submission.TakeBatch` | packages/local-sql/src/LocalStore.ts:1480-1498 | a batch is the longest prefix of the range that fits the entry and byte limits, at least one entry, and more is reported exactly when some is left |
| `Submission.LongestFitExactly` | packages/local-sql/src/LocalStore.ts:1480-1498 | the longest fit, limit by limit: at most sixty-four entries and, beyond one, four mebibytes of encoding, stopped by one of the two if rows are left |
| `Submission.Outbox.ClaimSubmitBatch` | packages/local-sql/src/LocalStore.ts:1468-1529 | a claim starts after the position, stays before the first quarantined sequence, and marks exactly its rows as submitting |
| `Submission.Outbox.MarkRetrying` | packages/local-sql/src/LocalStore.ts:1531-1545 | exactly the rows still submitting are marked |
| `Submission.Outbox.SendBatch` | packages/local-sql/src/Reconciler.ts:848-856 | an answer acknowledges a prefix of the batch, or none if it is not one receipt for each of its first mutations; of the rows exactly the acknowledged become submitted and the others still submitting are to be retried |
| `Submission.ValidAnswerExactly` | packages/local-sql/src/Reconciler.ts:848-856 | an answer is valid exactly if it is receipts for a non-empty prefix of the batch |
| `Submission.Outbox.SubmitRound` | packages/local-sql/src/Reconciler.ts:842-858 | a round sends the longest batch that fits of what remains, acknowledges what its answer is valid for, and reports more exactly when some remain |
| `Submission.Outbox.SubmitPending` | packages/local-sql/src/Reconciler.ts:836-875 | for every remote and every mutation arriving meanwhile, a pass terminates and acknowledges exactly the pending rows before the first quarantined one at its start, in order, once each, or a prefix of them and then fails at the next batch that fits, whose answer was not valid |
| `Submission.RoundAdvances` | packages/local-sql/src/Reconciler.ts:857-858 | the acknowledged part and what remains after it make up the range |
| `Bootstrap.BootstrapStore.PrepareBootstrap` | packages/local-sql/src/LocalStore.ts:3175-3200 | an admissible manifest keeps a stage that belongs to it and replaces any other; a too large one changes nothing |
| `Bootstrap.ScanEntries` | packages/local-sql/src/LocalStore.ts:3221-3267 | the loop accepts a page iff it is numbered on, its bytes are right and within the manifest, and its entities are distinct, and carries bytes and digest on |
| `Bootstrap.BootstrapStore.CheckEntries` | packages/local-sql/src/LocalStore.ts:3227-3290 | and iff none of its entities is staged already |
| `Bootstrap.BootstrapStore.StageBootstrapPage` | packages/local-sql/src/LocalStore.ts:3202-3325 | a page is staged iff it is admissible, belongs to the stage and passes those checks; a refused page changes nothing; a complete stage is described by its manifest |
| `Bootstrap.BootstrapStore.ReadStaged` | packages/local-sql/src/LocalStore.ts:3350-3400 | reading back succeeds exactly on durable entries consistent with the manifest |
| `Bootstrap.BootstrapStore.CheckStage` | packages/local-sql/src/LocalStore.ts:3335-3408 | in a valid store the consistency checks of an installation never fail |
| `Bootstrap.BootstrapStore.InstallBootstrap` | packages/local-sql/src/LocalStore.ts:3327-3575 | an installation succeeds iff the stage is that of an admissible manifest, complete in count, bytes and digest, and not older than the watermark; then canonical is the snapshot and everything else that was canonical or fenced is fenced |
| `Bootstrap.BootstrapStore.FetchPage` | packages/local-sql/src/LocalStore.ts:3202-3325 | the next page of a well-formed snapshot is always accepted |
| `Bootstrap.BootstrapStore.Bootstrap` | packages/local-sql/src/Reconciler.ts:706-745 | from any stage of a snapshot, for any paging, fetching terminates with exactly that snapshot installed |
| `Bootstrap.PageContinues` | packages/local-sql/src/LocalStore.ts:3227-3290 | a staged prefix and a page make a well-formed prefix iff the page is numbered on, distinct, and disjoint from what is staged |
| `Bootstrap.AcceptableExactly` | packages/local-sql/src/LocalStore.ts:3202-3325 | every check a page has to pass, entry by entry: ordinals, validity, sizes, distinct entities among themselves and with what is staged, bytes, count, the last page, and at completion the manifest's bytes and digest |
| `Bootstrap.AppliedIsSnapshot` | packages/local-sql/src/LocalStore.ts:3544-3549 | after applying the entries canonical is exactly their upserts and the fence exactly their retractions and the older ones they do not name |
| `Bootstrap.InstallMeansSnapshot` | packages/local-sql/src/LocalStore.ts:3431-3549 | after an installation canonical is the snapshot, every formerly canonical entity absent from it is retracted, and both are disjoint |
| `Bootstrap.NextPageFits` | packages/local-sql/src/LocalStore.ts:3295-3318 | the next page of a well-formed snapshot passes every check |
| `Scheduler.Manager.Admit` | packages/local-sql/src/Reconciler.ts:273-287 | admitting raises the dirty epoch, ends a halt, and puts the space at the end of the queue exactly if it is not queued, running, retrying or gated |
| `Scheduler.Manager.SelectWork` | packages/local-sql/src/Reconciler.ts:467-474 | selecting takes the head and marks it running at its present epoch, ignores work of another generation, and never starts a running space |
| `Scheduler.Manager.FinishTurn` | packages/local-sql/src/Reconciler.ts:438-451 | a finished turn requeues its space exactly if requests came in since its selection and it is neither queued, retrying, halted nor gated |
| `Scheduler.Manager.TurnSucceeded` | packages/local-sql/src/Reconciler.ts:427-437 | a turn that succeeded forgets the failed attempts of its own registration, and nothing else |
| `Scheduler.Manager.HandleFailure` | packages/local-sql/src/Reconciler.ts:383-404 | a failure leaves the space retrying with one more attempt, halted, or at a gate never used before, and changes nothing else |
| `Scheduler.Manager.FinishRetry` | packages/local-sql/src/Reconciler.ts:358-363 | an elapsed retry turns into a readmission |
| `Scheduler.Manager.FinishWait` | packages/local-sql/src/Reconciler.ts:327-334 | only the owner of a credential gate opens it, and opening it turns into a readmission |
| `Scheduler.Manager.Readmit` | packages/local-sql/src/Reconciler.ts:406-411 | a readmission ends in an admission, unless the space was unregistered |
| `Scheduler.Manager.ReadmissionFailed` | packages/local-sql/src/Reconciler.ts:412-420 | or in a failure that leaves the space retrying, gated or halted |
| `Scheduler.Manager.Register` | packages/local-sql/src/Reconciler.ts:493-575 | a registration replaces the space of that id with a fresh queued generation |
| `Scheduler.Manager.Unregister` | packages/local-sql/src/Reconciler.ts:577-585 | unregistering removes only its own generation |
| `Scheduler.QueuedExactly` | packages/local-sql/src/Reconciler.ts:273-474 | in every reachable state a space is queued iff it has a live queue item, never two, and never queued and running |
| `Scheduler.QuietMeansDone` | packages/local-sql/src/Reconciler.ts:406-474 | in every reachable state a space with an empty queue and nothing in flight was last selected at its dirty epoch, or is halted |
| `EphemeralKeys.MemberKeyInjective` | packages/local-rpc/src/EphemeralHub.ts:159 | two members with one key are the same, because ids contain no colon |
| `EphemeralKeys.StateKeyInjective` | packages/local-rpc/src/EphemeralHub.ts:161-168 | length prefixes make state keys injective for any channel and key text |
| `EphemeralKeys.EventKeyInjective` | packages/local-rpc/src/EphemeralHub.ts:170-173 | and event keys |
| `EphemeralKeys.PrefixedInjective` | packages/local-rpc/src/EphemeralHub.ts:166-168 | joined length-prefixed components determine their list |
| `EphemeralKeys.CutAtColon` | packages/local/src/Identity.ts:5-8 | text before the first colon determines both halves |
| `EphemeralBooks.PutMemberSound` | packages/local-rpc/src/EphemeralHub.ts:590-601 | storing a member record keeps the five counters equal to their sums and counts, and under their caps |
| `EphemeralBooks.MemberAdmissibleExactly` | packages/local-rpc/src/EphemeralHub.ts:549-578 | a member is refused exactly if some limit would be exceeded with it |
| `EphemeralBooks.RenewMemberSound` | packages/local-rpc/src/EphemeralHub.ts:906-919 | renewing a lease keeps them |
| `EphemeralHub.RenewalFitsExactly` | packages/local-rpc/src/EphemeralHub.ts:906-919 | a heartbeat is refused exactly if the snapshot would grow too large with it |
| `EphemeralBooks.DropEventsSound` | packages/local-rpc/src/EphemeralHub.ts:312-335 | dropping an owner's events keeps them |
| `EphemeralBooks.CleanUpSound` | packages/local-rpc/src/EphemeralHub.ts:297-305 | forgetting an owner that holds nothing restores that only owners with something are recorded |
| `EphemeralBooks.LeaveSound` | packages/local-rpc/src/EphemeralHub.ts:337-366 | leaving keeps them |
| `EphemeralBooks.PutStateSound` | packages/local-rpc/src/EphemeralHub.ts:804-851 | setting a state keeps them |
| `EphemeralBooks.StateAdmissibleExactly` | packages/local-rpc/src/EphemeralHub.ts:804-843 | a state is refused exactly if some limit would be exceeded with it |
| `EphemeralBooks.RemoveStateSound` | packages/local-rpc/src/EphemeralHub.ts:381-390 | removing a state keeps them |
| `EphemeralBooks.PutEventSound` | packages/local-rpc/src/EphemeralHub.ts:759-777 | publishing an event keeps them |
| `EphemeralBooks.EventAdmissibleExactly` | packages/local-rpc/src/EphemeralHub.ts:759-775 | an event is refused exactly if some limit would be exceeded with it |
| `EphemeralBooks.ClearEventSound` | packages/local-rpc/src/EphemeralHub.ts:417-423 | clearing an event keeps them |
| `EphemeralView.SnapshotIsGrouped` | packages/local-rpc/src/internal/ephemeralView.ts:30-43 | a snapshot view is the listed members and states grouped by channel |
| `EphemeralView.SetIsReduced` | packages/local-rpc/src/internal/ephemeralView.ts:65-73 | reducing a state message is setting it in the ungrouped map |
| `EphemeralView.RemoveIsReduced` | packages/local-rpc/src/internal/ephemeralView.ts:74-77 | reducing a removal is removing it there, and an emptied channel disappears |
| `EphemeralView.ClientSeesTheHub` | packages/local-rpc/src/EphemeralHub.ts:656-669 | whatever messages the channel drops, the delivered ones are exactly the log up to the last delivered revision |
| `EphemeralView.ClientFollowsLog` | packages/local-rpc/src/EphemeralHub.ts:656-669 | so reducing them from a prefix of the log gives the view of a longer one |
| `EphemeralView.NothingIsHeldBack` | packages/local-rpc/src/EphemeralHub.ts:656-669 | as long as no message is lost nothing is held back, and what is delivered ends only at the first gap |
| `EphemeralHub.StepKeepsGood` | packages/local-rpc/src/EphemeralHub.ts:547-936 | every operation keeps the accounts, their caps, the numbering of the log and that reducing the log gives the hub |
| `EphemeralHub.RunKeepsGood` | packages/local-rpc/src/EphemeralHub.ts:437-460 | the same over every run from an empty space |
| `EphemeralHub.AccountsAreExact` | packages/local-rpc/src/EphemeralHub.ts:297-435 | over every run each counter equals its sum or count, stays under its cap, and no departed owner keeps an entry |
| `EphemeralHub.ClientFollowsHub` | packages/local-rpc/src/EphemeralHub.ts:617-669 | over every run and every loss of messages, the join snapshot reduced with the delivered messages is the hub in the state that the last revision shows, also between the messages of one rejoin |
| `EphemeralHub.ClientIsNeverAstray` | packages/local-rpc/src/EphemeralHub.ts:617-669 | so the view is at every moment one that the hub had since the client joined |
| `EphemeralHub.ViewIsTables` | packages/local-rpc/src/internal/ephemeralView.ts:30-43 | the hub's view has exactly the entries of its members, and of its states under their channels |
| `EphemeralHub.SnapshotShowsHub` | packages/local-rpc/src/EphemeralHub.ts:624-629 | a snapshot that lists all members and states shows the hub |
| `EphemeralHub.EarlierSessionsAreOver` | packages/local-rpc/src/EphemeralHub.ts:267-280 | after a rejoin an older session can neither act nor, by its timer, remove the new one |
| `EphemeralHub.SpaceRuntime.Join` | packages/local-rpc/src/EphemeralHub.ts:547-633 | joining stores the member with the requested value, fresh tokens and the capped lease from now, says so last, and takes away exactly the events of a session it replaces with one message each; its snapshot is of the revision it returns |
| `EphemeralHub.SpaceRuntime.UpdateMember` | packages/local-rpc/src/EphemeralHub.ts:719-754 | an update that is accepted gives the member the requested value, keeps its expiry, tokens and lease, and says so; a refused one changes nothing |
| `EphemeralHub.SpaceRuntime.Heartbeat` | packages/local-rpc/src/EphemeralHub.ts:898-936 | a heartbeat that is accepted moves the expiry to now plus the lease, keeps value and tokens, and says so; a refused one changes nothing |
| `EphemeralHub.SpaceRuntime.RemoveMember` | packages/local-rpc/src/EphemeralHub.ts:337-366 | the current token removes the member with exactly its events and one message; any other does nothing |
| `EphemeralHub.SpaceRuntime.ClearEventsOf` | packages/local-rpc/src/EphemeralHub.ts:312-335 | every event of the owner goes, in some order, with exactly one message for each |
| `EphemeralHub.SpaceRuntime.CleanupOwnerAccounting` | packages/local-rpc/src/EphemeralHub.ts:297-305 | forgets an owner iff it holds nothing |
| `EphemeralHub.SpaceRuntime.SetState` | packages/local-rpc/src/EphemeralHub.ts:804-876 | a state that is accepted is stored with the requested member, channel, key and value, a fresh token and the capped expiry, with one message; a refused one changes nothing |
| `EphemeralHub.SpaceRuntime.RemoveState` | packages/local-rpc/src/EphemeralHub.ts:368-403 | a removal with the current session and token removes exactly that state with one message; any other does nothing |
| `EphemeralHub.SpaceRuntime.PublishEvent` | packages/local-rpc/src/EphemeralHub.ts:755-803 | an event that is accepted is recorded under a fresh token and published with its value and capped expiry; a refused one changes nothing |
| `EphemeralHub.SpaceRuntime.ClearEvent` | packages/local-rpc/src/EphemeralHub.ts:405-435 | clearing with the current session and token removes exactly that event with one message; any other does nothing |
| `EphemeralHub.SpaceRuntime.TakeSnapshot` | packages/local-rpc/src/EphemeralHub.ts:624-629 | a snapshot lists every member and state once the maps are read, and nothing else |
| `Watchers.WatcherCounts.AdmitWatcher` | packages/local-rpc/src/EphemeralHub.ts:464-475 | a watcher is admitted iff both caps allow it |
| `Watchers.WatcherCounts.ReleaseWatcher` | packages/local-rpc/src/EphemeralHub.ts:477-486 | a release takes back exactly one admission, and the counters stay the sums of what is held |

## Left out

- LocalStore.ProjectionStore.RebuildProjection: a receipt stored for another mutation stops the rebuild where it stands; storage errors inside a transaction are crashes and not results.
- ProjectionRuns.RunKeepsInvariant: a rebuild is one event there, which `ResumedRunPromotes` justifies for crashes; a rebuild abandoned without a restart and followed by another operation is not modelled.
- ProjectionRuns.ProjectMeansReplay: needs that the replays since the last full one wrote no retracted entity, because otherwise the three ways to project differ (see the second point above).
- StoreOperations.ApplyViewPage: the checks of scope generation, view cursor, page bytes and page digest are left out, as the model has no view cursor and no codec.
- StoreOperations.InstallSnapshot: the durable entries and the manifest are checked in `Bootstrap`; here they arrive checked. The checks of log evidence against its mutation are left out.
- StoreOperations.PrepareSettlements: of the checks of an accepted log entry against its receipt, only the sequence is modelled; pruning of the server log is left out, and pruning of receipts is in `ReceiptStore`.
- StoreOperations.ReceivePage: the meaning of the visible rows is stated for clean replays, as explained above, and with every undropped row run before.
- Divergence.RebuildEqualsDeltaExactly: the quantification is over handlers for one stored state and one batch size; which of the disagreeing handlers an application registers is not modelled.
- SettlementRuns.IdentityOverRuns: settlement sequences are unbounded; only local sequences stop at the largest safe integer.
- ReceiptStore.Receipts.HighestSequences: rows that are skipped because they have no replayable snapshot do not occur.
- SettlementRuns.ReaderMissesNothing: waiting on the settlement signal is a poll that finds nothing; that a signal follows every settlement is not stated.
- ReceiptStore.Receipts.PersistReceipt: comparing a duplicate receipt with the stored one, an expiry that covers a stored receipt, and the provenance checks are left out; receipts without a replayable snapshot do not occur.
- QuarantineServer.AlwaysInOrderExactly: the server's answers are reduced to the last local sequence it answered; that it repeats an earlier answer unchanged is part of the receipts' identity and not stated there.
- CommitQueue.CommitQueue.CommitQueued: requests arriving while the queue is worked off are later entries of the same queue; a storage-level failure that fails a whole batch is left out.
- Submission.Outbox.SubmitPending: receipts that report an expired mutation, after which the pass bootstraps and starts again, are left out.
- Bootstrap.BootstrapStore.InstallBootstrap: the refusals of the same transaction because of receipts or log evidence that contradict their mutation (`packages/local-sql/src/LocalStore.ts:3475-3538`) are not part of its condition.
- Bootstrap.BootstrapStore.Bootstrap: a remote that switches to another snapshot halfway restarts the preparation; that restart is not part of the loop.
- Scheduler.Manager.Readmit: writing the durable request before the admission, and sharing one write between admissions, are left out, as are fibers interrupted by unregistering.
- Scheduler.QuietMeansDone: that a halted space stays halted until a new admission is the code's intent and is not counted as stranded work.
- EphemeralHub.SpaceRuntime.Join: session tokens and timer tokens are fresh numbers; authorization, its refresh and the departure notification of the previous session are left out.
- EphemeralHub.ClientFollowsHub: ordering within the channel is kept, any message may be lost; ending the stream at the first gap is part of the model, reconnecting is not.
- StatementCache.Connection.Checkin: running the statement and binding its values are left out.
- SQL text, JSON and schema codecs, cryptographic digests, spans, metrics, invalidation keys and reactivity: encoded sizes and digests are arbitrary functions, and writes in chunks of a hundred rows are one write.
- Schema evolution: one schema generation; fences that detect another process are left out.
- Mutation handlers read and write one table in one step; a handler that fails with a defect is part of `CommitQueue` only.
- Applying logged entries (`packages/local-sql/src/LocalStore.ts:4356-4500`) is one event of the projection runs; its checks for gaps and conflicting duplicates and its deferred settlements are left out.
- Generated mutation ids are assumed not to repeat an id that was ever used.
- Locks are mutual exclusion: the operations of a gate are not interleaved inside each other; fairness and priorities are left out.
- The authoritative server, authentication, real time and backoff delays, the browser and Expo sockets, the atom layer and configuration validation.
