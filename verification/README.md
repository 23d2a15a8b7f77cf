# USTE graph, import, memory and commitment cores in Dafny

A model of the reducers and codecs of USTE, and proofs of what they promise over every run.

## What is modelled

* **Graph reducer** (`crates/uste-graph/src/state.rs`). Records are entities, evidence, assertions and relationships (the last
  two share one life cycle and are one `Claim` constructor here). A transaction runs over a copy-on-write overlay, only the
  records it changed are validated, and publication adjusts four derived indexes in place and appends to every history.
  `Reducer` states the operations as functions; `OverlayObject` and `GraphStateObject` hold the classes and loops that compute them.
* **Disk-backed graph state** (`crates/uste-graph/src/state_disk.rs`). The same reducer runs on a partial proof loaded from
  eight sorted families; its result becomes per-family deltas, a streaming validator checks the merged output, and a live
  state holds at most one pending plan. Cold admission and materialised reconstruction are the other way in.
* **Index-served reads** (`disk.rs`, `query.rs` of uste-graph) against in-memory reads of the same snapshot.
* **Import ledger** (`crates/uste-ingest`), layered on the graph reducer.
* **Memory pilot** (`crates/uste-memory/src/state.rs`, `query.rs`) and the **research record codec** (`research.rs`).
* **Ordered commitment** (`scripts/check_ordered_commitment_vectors.py`) and the **publication experiment**
  (`experiments/storage-publication.rs`).

Conventions. An absent commit revision is 0. `BTreeMap` and `BTreeSet` are maps and sets walked in key order (`Base.InOrder`).
The eight families share one map whose keys say which family they belong to; index storage is that map with exact get,
prefix scan, predecessor lookup and "apply deltas, each checking its before-value". SHA-256 is modelled by the sequence of
tokens it is applied to, so it is one-to-one; record and policy frames are tokens that carry the value. Authorization callbacks
are pure predicates. Checked integer widths are written out where the source checks them. Time, blobs staged by the caller,
the digests of requests and the answer of the spatial component are parameters.

A class is proved against a function of its old abstract value (`View`, `Value`, `Rest`); the laws are then lemmas about the functions.

## Model

| member | source | states |
|---|---|---|
| `References.ValidateRecordMeaning` | crates/uste-graph/src/state.rs:2622-2684 | full validation accepts a record if and only if it is in scope, well shaped and each reference is there, visible and of the right kind |
| `References.ReverseForIsLookup` | crates/uste-graph/src/state.rs:2886-2905 | the descriptor computed for one target is the entry for that target in the aggregated reverse map |
| `Operations.CascadeExact` | crates/uste-graph/src/state.rs:2470-2572 | a cascade passes if and only if the declaration is strictly ascending, is exactly the set of accepted dependents, fits the maximum, and nothing proposed and no other active entity depends on the target |
| `Operations.DeleteWrites` | crates/uste-graph/src/state.rs:2457-2582 | a successful deletion writes exactly the declared claims as retracted and the target as deleted, each as the legal next version |
| `Integrity.OperationWrites` | crates/uste-graph/src/state.rs:2209-2265 | every operation changes only the records it reports, each to a legal first or next version of what the overlay showed |
| `Integrity.OperationHides` | crates/uste-graph/src/state.rs:2457-2582 | only a deletion hides a record, and only its target |
| `Integrity.OperationCorrects` | crates/uste-graph/src/state.rs:2354-2440 | a new claim naming a predecessor was written by the correction of that predecessor, which was accepted and of the same kind |
| `Integrity.DeletionLeavesNoDependent` | crates/uste-graph/src/state.rs:2470-2572 | after the checks of a deletion no visible record outside the retracted ones depends on the target |
| `Integrity.RunKeepsInvariant` | crates/uste-graph/src/state.rs:359-394 | the operation loop keeps legal versions, no dangling dependency, protected correction targets and at most one mutation per record |
| `Index.ChangeKeepsMatch` | crates/uste-graph/src/state.rs:2805-2861 | removing the old contributions of a record and adding the new ones keeps an index exact, with no empty bucket |
| `Index.RebuildMatches` | crates/uste-graph/src/state.rs:2762-2803 | the rebuilt index holds exactly what the records contribute |
| `Publication.PublishChangesExact` | crates/uste-graph/src/state.rs:641-665 | publication replaces exactly the changed records, appends one version to each of their histories, and touches nothing else |
| `Publication.PreparedIsPublishable` | crates/uste-graph/src/state.rs:289-314 | a prepared transaction always passes the exact-base check of the state it was prepared on |
| `Publication.CommitKeepsIndexes` | crates/uste-graph/src/state.rs:641-665 | after an accepted commit all four indexes are exactly what the published records contribute |
| `Invariant.UnchangedStaysValid` | crates/uste-graph/src/state.rs:2594-2605 | a record the commit did not validate again still passes full validation of its references |
| `Invariant.CommitKeepsConsistent` | crates/uste-graph/src/state.rs:359-401 | one accepted commit keeps valid records, exact indexes, legal histories, historical closure and policy order |
| `Invariant.EveryRunIsConsistent` | crates/uste-graph/src/state.rs:359-401 | all of that holds in every reachable state |
| `Runs.EveryRecordValidates` | crates/uste-graph/src/state.rs:2584-2684 | in every reachable state full validation accepts every record |
| `Runs.NothingDependsOnDeleted` | crates/uste-graph/src/state.rs:2457-2582 | in every reachable state whatever an active entity or a proposed or accepted claim depends on is present and visible |
| `Runs.IncrementalIsRebuild` | crates/uste-graph/src/state.rs:223-236 | in every reachable state the four incrementally kept indexes equal a full rebuild |
| `Runs.TimeTravel` | crates/uste-graph/src/state.rs:94-123 | reading any record, or the policy, at the revision of an earlier snapshot of the run gives exactly what that snapshot held |
| `Runs.OneVersionPerChange` | crates/uste-graph/src/state.rs:646-664 | a commit adds a version of a record exactly when it changes the record |
| `Restore.AcceptedHistoryIsGood` | crates/uste-graph/src/state.rs:1201-1280 | a history that passes the shape checks is versions 1..n, each a legal successor, at rising revisions |
| `Restore.GoodHistoryIsAccepted` | crates/uste-graph/src/state.rs:1201-1280 | and every such history passes them |
| `Restore.ClosedMeaning` | crates/uste-graph/src/state.rs:1305-1400 | the emitted reference requirements hold if and only if every version's references were valid at its revision and every correction target was accepted one revision earlier |
| `Restore.PoliciesMeaning` | crates/uste-graph/src/state.rs:1043-1126 | the policy walk accepts exactly the in-scope histories with rising versions |
| `Restore.RestoreExact` | crates/uste-graph/src/state.rs:1043-1126 | restore accepts parts if and only if the state assembled from them is consistent, and then returns it |
| `Restore.EveryRunRestores` | crates/uste-graph/src/state.rs:1043-1126 | every reachable state survives its own restore unchanged |
| `Checkpoint.CheckpointRoundTrip` | crates/uste-graph/src/state.rs:834-998 | whenever a reachable state's checkpoint encodes, decoding it gives back the identical state |
| `OverlayObject.MergeReferences` | crates/uste-graph/src/state.rs:465-505 | the two-way merge visits each owner whose overlaid version references the target exactly once, in order, with its current reference |
| `OverlayObject.ScanDependents` | crates/uste-graph/src/state.rs:2470-2502 | one pass over the visits counts accepted, proposed and entity dependents and the declared ones among them |
| `OverlayObject.CheckScan` | crates/uste-graph/src/state.rs:2503-2541 | the counts alone decide the deletion as the sets would, down to the error |
| `OverlayObject.RetractPass` | crates/uste-graph/src/state.rs:2542-2572 | one kind's pass over the declaration retracts exactly the claims of that kind or stops at the first that cannot be |
| `OverlayObject.RecordOverlay.ForEachReverseReference` | crates/uste-graph/src/state.rs:465-505 | the callback order and arguments are those of the merged reference map |
| `OverlayObject.RecordOverlay.CreateRecord` | crates/uste-graph/src/state.rs:2267-2311 | the overlay afterwards, the touched ids and the error are those of the creation function |
| `OverlayObject.RecordOverlay.ReplaceEntity` | crates/uste-graph/src/state.rs:2209-2265 | the same for property replacement |
| `OverlayObject.RecordOverlay.Act` | crates/uste-graph/src/state.rs:2354-2455 | the same for status actions and corrections |
| `OverlayObject.RecordOverlay.DeleteEntity` | crates/uste-graph/src/state.rs:2457-2582 | the same for deletion with and without cascade |
| `OverlayObject.RecordOverlay.ApplyOperation` | crates/uste-graph/src/state.rs:2209-2265 | the same for every operation |
| `GraphStateObject.FindRecordAt` | crates/uste-graph/src/state.rs:3098-3108 | bisection finds the last version at or before the revision |
| `GraphStateObject.ReverseReferences` | crates/uste-graph/src/state.rs:2886-2895 | collecting mentions one by one aggregates all roles a record gives each target |
| `GraphStateObject.GraphState.RemoveIndexContributions` | crates/uste-graph/src/state.rs:2805-2824 | exactly the record's contributions leave the four indexes, and emptied buckets go |
| `GraphStateObject.GraphState.AddIndexContributions` | crates/uste-graph/src/state.rs:2826-2861 | exactly the record's contributions enter them |
| `GraphStateObject.GraphState.Publish` | crates/uste-graph/src/state.rs:641-665 | the object afterwards is the published snapshot of the functional model |
| `GraphStateObject.GraphState.RebuildIndexes` | crates/uste-graph/src/state.rs:2762-2803 | the object afterwards holds the rebuilt indexes and nothing else changed |
| `GraphStateObject.GraphState.PrepareTransaction` | crates/uste-graph/src/state.rs:324-413 | the loop over one overlay object computes the prepared changes or the first error of the functional model |
| `Families.EntriesLookup` | crates/uste-graph/src/state_disk.rs:5143-5245 | the families of a state hold exactly the emitted entries |
| `Families.EntryIsOwned` | crates/uste-graph/src/state_disk.rs:3395-3439 | every current and secondary entry is the one its owner's current version contributes |
| `Counting.CountsAreSizes` | crates/uste-graph/src/state_disk.rs:5246-5257 | every metadata count is the number of entries of its family |
| `Proofs.OperationCovers` | crates/uste-graph/src/state_disk.rs:1565-1633 | an operation on covered ids only ever writes records whose references are covered too |
| `Proofs.PrepareAgrees` | crates/uste-graph/src/state.rs:2998-3028 | two states that agree on the required records, histories and reverse buckets prepare a transaction alike, including the error |
| `Proofs.ProofSuffices` | crates/uste-graph/src/state_disk.rs:1068-1105 | on a true and complete proof the reducer prepares exactly what it prepares on the whole state, or rejects with the same error |
| `Deltas.CommitAdvancesTo` | crates/uste-graph/src/state_disk.rs:3154-3333 | every accepted commit is an advance of the kind the delta results speak about |
| `Deltas.EntryDeltasExact` | crates/uste-graph/src/state_disk.rs:3154-3333 | a key has a delta exactly when its entry changes, with both sides exact |
| `Deltas.DeltasAreSeparate` | crates/uste-graph/src/state_disk.rs:3154-3333 | record deltas and policy deltas never share a key |
| `Deltas.TargetCountsExact` | crates/uste-graph/src/state_disk.rs:3441-3449 | the counts computed from the deltas are the published state's own metadata counts |
| `Deltas.DeltaExact` | crates/uste-graph/src/state_disk.rs:3154-3333 | applied to the base families the deltas pass every before-check and give the published families |
| `DeltaBuilder.SecondaryEntries` | crates/uste-graph/src/state_disk.rs:3395-3439 | the collected secondary entries are the record's own, and corruption is reported exactly when evidence repeats |
| `DeltaBuilder.BuildChanges` | crates/uste-graph/src/state_disk.rs:3154-3280 | the loop over the changes never produces a key twice and builds exactly the exact deltas |
| `DeltaBuilder.CountTargets` | crates/uste-graph/src/state_disk.rs:3257-3279 | the checked counter updates give the target counts, and are refused exactly when a count leaves the 64-bit range somewhere on the walk in key order |
| `DeltaBuilder.RoomStaysInRange` | crates/uste-graph/src/state_disk.rs:3441-3449 | with an entry for every removal and room for every insertion, no order of the walk leaves the range |
| `DeltaBuilder.BuildPlan` | crates/uste-graph/src/state_disk.rs:3154-3290 | a plan exists exactly when the counts stay in range and the state has a base revision; it holds the exact deltas and target counts |
| `DeltaBuilder.AdvanceIsBuildable` | crates/uste-graph/src/state_disk.rs:3154-3333 | no commit the reducer accepts is refused by the builder |
| `DeltaBuilder.AdvanceIsCovered` | crates/uste-graph/src/state_disk.rs:3441-3449 | and none underflows a counter |
| `DiskLoad.LoadCurrent` | crates/uste-graph/src/state_disk.rs:1352-1397 | the worklist ends with the true current value of every id the transaction requires |
| `DiskLoad.ScanVersions` | crates/uste-graph/src/state_disk.rs:1718-1784 | a prefix scan rebuilds a record's whole history |
| `DiskLoad.ScanOwners` | crates/uste-graph/src/state_disk.rs:1786-1867 | a prefix scan rebuilds a target's whole reverse bucket |
| `DiskLoad.LoadProof` | crates/uste-graph/src/state_disk.rs:1290-1434 | loading succeeds if and only if the request is within limits and in scope, and then the proof is true and complete |
| `Refusals.AcceptedNamesInScope` | crates/uste-graph/src/state_disk.rs:1899-1921 | every id an accepted operation names lies in the namespace |
| `Refusals.StrayNamesAreRejected` | crates/uste-graph/src/state_disk.rs:1303-1310 | a transaction naming anything outside its namespace is rejected by the reducer too |
| `Validator.MergedGraphStateValidator.Flush` | crates/uste-graph/src/state_disk.rs:3013-3031 | flushing succeeds, and leaves the state, as the functional validator says |
| `Validator.MergedGraphStateValidator.ObserveEntry` | crates/uste-graph/src/state_disk.rs:2796-2808 | the same for observing any entry |
| `Validator.MergedGraphStateValidator.Close` | crates/uste-graph/src/state_disk.rs:2810-2854 | the same for closing a family |
| `Streaming.StreamedDigestIsSnapshotDigest` | crates/uste-graph/src/state_disk.rs:2755-3062 | fed any consistent state's families in order the validator accepts, and the sequence it hashes is the whole-snapshot digest's |
| `DiskState.RefusalIsRejection` | crates/uste-graph/src/state_disk.rs:1290-1310 | whatever the loader refuses the reducer rejects |
| `DiskState.PrepareOnProof` | crates/uste-graph/src/state_disk.rs:1068-1105 | preparing from disk accepts exactly what the reducer accepts on the whole state, with the same result; a refusal carries the reducer's own error, or the limit, scope or first stray name the loader stopped at |
| `DiskState.PreparedIsBuildable` | crates/uste-graph/src/state_disk.rs:3154-3290 | whatever the reducer accepts can be planned, and its target counts are the published state's own |
| `DiskState.MergePlan` | crates/uste-graph/src/state_disk.rs:2639-2717 | a sealed root is the base with the plan's deltas applied, every before-check passed and every family validated |
| `DiskState.TrueMergeIsAccepted` | crates/uste-graph/src/state_disk.rs:2639-2717 | the plan of a true commit always merges |
| `DiskState.GraphDiskLiveState.CurrentBase` | crates/uste-graph/src/state_disk.rs:382-388 | the base is exposed exactly when it stands for the committed state |
| `DiskState.GraphDiskLiveState.Submit` | crates/uste-graph/src/state_disk.rs:2139-2189 | a submission is accepted exactly when nothing is pending, the reducer accepts it and the counts stay in range; the base never changes and every refusal has its own error |
| `DiskState.GraphDiskLiveState.PublishPending` | crates/uste-graph/src/state_disk.rs:2592-2637 | publication succeeds exactly when a plan is pending and leaves the committed state as base |
| `DiskState.GraphDiskLiveState.Install` | crates/uste-graph/src/state_disk.rs:2318-2340 | only the pending plan's own target may replace the base |
| `DiskState.Drive` | crates/uste-graph/src/state_disk.rs:2139-2201 | over every sequence of submissions and publications at most one plan is pending and every exposed base is the committed state |
| `DiskState.CommitAll` | crates/uste-graph/src/state_disk.rs:2318-2340 | committing any transactions through disk ends with exactly the families, counts, policy and digest of the state accepted so far |
| `DiskState.RoomyIsAccepted` | crates/uste-graph/src/state_disk.rs:3441-3449 | below half the counters' range the disk accepts exactly what the reducer accepts |
| `DiskState.DiskRunIsRun` | crates/uste-graph/src/state_disk.rs:2139-2189 | so the disk's run is then the in-memory run |
| `DiskState.SeedAndCommitAll` | crates/uste-graph/src/state_disk.rs:3473-3523 | refinement: publishing a run from memory and committing more transactions on disk gives exactly the base that committing them in memory and then publishing gives |
| `Admission.HistoryGroupsAreCounted` | crates/uste-graph/src/state_disk.rs:2889-2940 | the streamed validator counts each record's history group once |
| `Admission.PredecessorIsRecordAt` | crates/uste-graph/src/state_disk.rs:4092-4130 | a predecessor lookup finds exactly the version that was current at the revision |
| `Admission.RecordsAndHistoriesCorrespond` | crates/uste-graph/src/state_disk.rs:4056-4089 | counted groups plus terminal equality force a bijection between current records and histories |
| `Admission.SecondarySame` | crates/uste-graph/src/state_disk.rs:4278-4382 | membership entry by entry plus matching counts force each secondary family to equal the rebuilt index |
| `Admission.AdmissionIsSound` | crates/uste-graph/src/state_disk.rs:3633-3938 | an admitted root is exactly the families of a consistent state, and the materialised reconstruction returns that state |
| `Admission.AdmissionIsComplete` | crates/uste-graph/src/state_disk.rs:3633-3938 | every root that holds a consistent state is admitted |
| `AdmissionGroup.HistoryAdmissionGroup.Observe` | crates/uste-graph/src/state_disk.rs:4017-4052 | a version is accepted exactly when the group with it is still versions 1..n of one record, each legal after the last |
| `AdmissionGroup.AdmitHistory` | crates/uste-graph/src/state_disk.rs:4000-4053 | streaming a history through a group decides exactly whether the whole history is good |
| `AdmissionGroup.GroupAdmittedMeaning` | crates/uste-graph/src/state_disk.rs:3755-3840 | a group is admitted exactly when the streamed decision, the requirements of each version and the finish all pass |
| `AdmissionGroup.AdmitGroup` | crates/uste-graph/src/state_disk.rs:3755-3840 | streaming the stored versions of a record, visiting each one's requirements and finishing the group decides exactly whether the group is admitted |
| `AdmissionGroup.GroupIsHistory` | crates/uste-graph/src/state.rs:1201-1280 | and that is what a full restore would decide |
| `Reads.AllowedMeansMentionsReadable` | crates/uste-graph/src/query.rs:184-227 | a record's references are authorized if and only if every record it mentions, in any role and at any depth, may be read |
| `Reads.AdjacentAnswerMeaning` | crates/uste-graph/src/query.rs:95-149 | an adjacency answer lists once each, by relationship identity, exactly the readable accepted relationships with the readable entity at the other end |
| `Reads.BucketsAreLinks` | crates/uste-graph/src/state.rs:164-203 | the two index buckets of an entity are exactly the accepted relationships that leave and reach it |
| `Reads.AdjacentCandidates` | crates/uste-graph/src/state.rs:164-203 | candidates are all linking relationships in order, unless the visits of both directions together exceed the limit |
| `Reads.ReadAdjacent` | crates/uste-graph/src/query.rs:95-149 | the in-memory loop returns that answer, or the result limit exactly when one more would be shown |
| `Reads.SupportedCandidates` | crates/uste-graph/src/state.rs:205-221 | candidates are all claims citing the evidence, in order |
| `Reads.ReadSupported` | crates/uste-graph/src/query.rs:150-170 | the in-memory provenance read returns exactly the readable citing claims, or the result limit |
| `IndexReads.DiskRecordIsCurrent` | crates/uste-graph/src/disk.rs:393-431 | an exact get returns the snapshot's current record |
| `IndexReads.ScannedLinks` | crates/uste-graph/src/disk.rs:433-492 | a link family's prefix scan finds exactly the linking relationships |
| `IndexReads.SortedPairs` | crates/uste-graph/src/disk.rs:433-492 | ordering (relationship, neighbour) pairs orders the relationships, self-loops once |
| `IndexReads.DiskAdjacentIds` | crates/uste-graph/src/disk.rs:433-492 | the combined scan yields every link with its true neighbour, unless the shared visit budget runs out |
| `IndexReads.ReadIndexAdjacent` | crates/uste-graph/src/disk.rs:671-762 | for every root of a snapshot and every authorization predicate the index read gives the in-memory answer or the same result-limit refusal |
| `IndexReads.DiskSupportedIds` | crates/uste-graph/src/disk.rs:494-539 | the provenance scan finds exactly the citing claims |
| `IndexReads.ReadIndexSupported` | crates/uste-graph/src/disk.rs:763-800 | the same agreement for provenance reads |
| `Ledger.ViewIsPublished` | crates/uste-graph/src/state.rs:593-602 | the prepared view shows each record as it will be once published |
| `Ledger.GraphKeepsReferences` | crates/uste-ingest/src/state.rs:694-723 | no transaction changes evidence, and one without deletions leaves every active entity active |
| `Ledger.ImportKeepsBound` | crates/uste-ingest/src/state.rs:223-393 | an import step keeps every job bound although it checks only its own |
| `Ledger.JobsStayBound` | crates/uste-ingest/src/state.rs:873-883 | after any accepted request every job's entity is active and both bindings valid |
| `Ledger.JobGrows` | crates/uste-ingest/src/model.rs:265-313 | an advanced checkpoint with its receipt continues the chain of batches 1..n with exact sums and rising revisions |
| `Ledger.MutationFits` | crates/uste-ingest/src/state.rs:510-553 | a prepared request always passes every check publication makes |
| `Ledger.StepKeepsLedger` | crates/uste-ingest/src/state.rs:153-221 | one request, accepted or refused, keeps the whole ledger invariant |
| `Ledger.EveryRunIsLedgered` | crates/uste-ingest/src/state.rs:153-393 | in every run batches are 1..n, revisions distinct, counts exact, the event index the disjoint union over jobs, and jobs bound now and when they started |
| `Replay.RowsAreCounted` | crates/uste-ingest/src/state.rs:510-586 | in every run accepted rows equal the cursor, the sum of receipt rows and the number of the job's source events |
| `Replay.ExactlyOnce` | crates/uste-ingest/src/state.rs:744-770 | over any run at most one accepted request imports a given source event |
| `Replay.PastStays` | crates/uste-ingest/src/state.rs:283-393 | no accepted request moves a checkpoint back or rebinds a job |
| `Replay.ReplayIsConflict` | crates/uste-ingest/src/state.rs:274-318 | over every run, an accepted batch offered again at any later point is a batch conflict, unless revisions have run out or it brings blobs |
| `ImportImage.ReadableIsLedgered` | crates/uste-ingest/src/state.rs:1371-1523 | whatever the checkpoint's job checks accept has every ledger property |
| `ImportImage.LedgerReadsBack` | crates/uste-ingest/src/state.rs:1297-1337 | every ledger's checkpoint image is accepted and reads back as the same jobs, index and count |
| `ImportImage.EveryRunReadsBack` | crates/uste-ingest/src/state.rs:1383-1523 | so the job checks of the decoder pass for every run |
| `IngestObject.ValidateRows` | crates/uste-ingest/src/state.rs:744-770 | the loop accepts exactly rows that are in scope, distinct and never imported, within the row limit |
| `IngestObject.IngestState.Publish` | crates/uste-ingest/src/state.rs:510-586 | the object afterwards is the published engine of the functional model |
| `IngestObject.ReadReceipts` | crates/uste-ingest/src/state.rs:1421-1473 | the receipt loop accepts exactly the good chains that share no revision with earlier jobs |
| `IngestObject.ReadEvents` | crates/uste-ingest/src/state.rs:1496-1511 | the event loop accepts exactly strictly ascending events of the scope that no earlier job owns |
| `IngestObject.ReadJobs` | crates/uste-ingest/src/state.rs:1371-1523 | the whole reader accepts exactly the readable images and builds the engine they describe |
| `MemoryRuns.SourcesGrow` | crates/uste-memory/src/state.rs:243-296 | accepting a source version keeps versions contiguous and supersedes exactly the one before |
| `MemoryRuns.FactsGrow` | crates/uste-memory/src/state.rs:297-334 | inserting or correcting a fact keeps every link, source and correction in place |
| `MemoryRuns.CommitKeepsGood` | crates/uste-memory/src/state.rs:212-366 | every accepted commit keeps the invariant, byte counters included |
| `MemoryRuns.EveryRunIsGood` | crates/uste-memory/src/state.rs:212-438 | in every ordered run sources and facts are well formed and the byte counters equal the sums they stand for |
| `MemoryAsOf.CommitMoves` | crates/uste-memory/src/state.rs:212-366 | within a generation a commit only adds records of its own revision and ends, supersedes or revokes open ones |
| `MemoryAsOf.AsOfQueriesArePast` | crates/uste-memory/src/query.rs:276-305 | within one generation the facts eligible at a revision in any later state are exactly those eligible when it was current, minus facts whose source was since revoked |
| `MemoryAsOf.EarlierStatesAreReadable` | crates/uste-memory/src/query.rs:261-305 | the revision of any earlier state of the generation resolves, and shows that state's current facts |
| `MemoryAsOf.CorrectionsAreLinear` | crates/uste-memory/src/state.rs:302-334 | no two facts correct the same fact |
| `MemoryAsOf.ChainsAreAcyclic` | crates/uste-memory/src/state.rs:302-334 | following corrections never returns to a fact already passed |
| `MemoryAsOf.SourceVersionsAreContiguous` | crates/uste-memory/src/state.rs:243-296 | stored versions are exactly 1 to the latest, and each but the latest is superseded at its successor's revision |
| `MemoryObject.FindLatest` | crates/uste-memory/src/state.rs:255-263 | one walk over the keys finds the highest stored version |
| `MemoryObject.ValidateLinks` | crates/uste-memory/src/state.rs:413-420 | the loop reports the first link that is out of scope, out of order or unknown |
| `MemoryObject.MemoryState.PutSource` | crates/uste-memory/src/state.rs:243-296 | the fields afterwards, or the error, are those of the functional model |
| `MemoryObject.MemoryState.InsertFact` | crates/uste-memory/src/state.rs:376-400 | the same for inserting a fact |
| `MemoryObject.MemoryState.CorrectFact` | crates/uste-memory/src/state.rs:302-334 | the same for a correction |
| `MemoryObject.MemoryState.Apply` | crates/uste-memory/src/state.rs:212-366 | the same for every mutation |
| `MemoryObject.MemoryState.Prepare` | crates/uste-memory/src/state.rs:511-524 | preparation works on a copy: this state and the shared epoch are untouched |
| `MemoryObject.MemoryState.Publish` | crates/uste-memory/src/state.rs:530-536 | after publication any state sharing the epoch is current exactly when it holds the published revision |
| `MemoryPast.SearchesArePast` | crates/uste-memory/src/query.rs:308-371 | over every run, all that a search at an earlier revision of the generation finds later is what it found when that revision was current, in the same order, less facts whose source was since revoked |
| `MemoryPast.HopsArePast` | crates/uste-memory/src/query.rs:374-427 | the same for the facts one hop away |
| `MemoryQueries.MatchingMeaning` | crates/uste-memory/src/query.rs:332-364 | the list of matches holds exactly the eligible matching facts |
| `MemoryQueries.Collect` | crates/uste-memory/src/query.rs:332-371 | a bounded walk returns an initial part of all matches, whole unless the next match would break a limit, with exact byte and visit counts |
| `MemoryQueries.Search` | crates/uste-memory/src/query.rs:308-371 | search answers so over all facts in identifier order |
| `MemoryQueries.OneHop` | crates/uste-memory/src/query.rs:374-427 | one hop answers so over an eligible fact's links |
| `MemoryQueries.ReadAuthorized` | crates/uste-memory/src/query.rs:151-259 | only a state at the published revision, of the requested generation and not being rebuilt, answers; each other state has its own refusal |
| `ResearchFields.SourceLawful` | crates/uste-memory/src/research.rs:563-606 | source records written are read back, and what is read is what writing it produces, within 4242 bytes |
| `ResearchFields.ArtifactLawful` | crates/uste-memory/src/research.rs:608-623 | the same for artifacts, within 2240 bytes |
| `ResearchFields.ClaimLawful` | crates/uste-memory/src/research.rs:625-659 | the same for claims with up to sixteen citations, within 79210 bytes |
| `ResearchFields.EdgeLawful` | crates/uste-memory/src/research.rs:661-677 | the same for edges, within 91 bytes |
| `ResearchCodec.ValidFits` | crates/uste-memory/src/research.rs:355-485 | every valid record whose fields have their types fits its byte form |
| `ResearchCodec.ValidRecordsRoundTrip` | crates/uste-memory/src/research.rs:239-299 | every valid record encodes, is never refused for size, and decodes back to itself |
| `ResearchCodec.AcceptedBytesAreCanonical` | crates/uste-memory/src/research.rs:266-299 | every accepted byte string is exactly the encoding of the valid record it decodes to |
| `ResearchCodec.Cursor.NextText` | crates/uste-memory/src/research.rs:919-932 | the cursor reads a length-prefixed string as the format does, and moves past exactly it |
| `ResearchCodec.Cursor.NextInputs` | crates/uste-memory/src/research.rs:745-760 | the counted loop reads the list the format reads, or reports its first fault |
| `PublicationRecovery.ComputeDigest` | experiments/storage-publication.rs:13-17 | the fold computes the checksum |
| `PublicationRecovery.Unmix` | experiments/storage-publication.rs:13-17 | multiplying by the inverse of the prime modulo 2^64 undoes a checksum step |
| `PublicationRecovery.SingleByteChangesDigest` | experiments/storage-publication.rs:13-17 | changing any single byte of any string changes its checksum |
| `PublicationRecovery.EncodeGroup` | experiments/storage-publication.rs:19-27 | appending step by step builds the group record |
| `PublicationRecovery.EncodeCertificate` | experiments/storage-publication.rs:29-38 | and the certificate naming it |
| `PublicationRecovery.CutCertificateRecoversPrevious` | experiments/storage-publication.rs:44-48 | every strict prefix of the certificate recovers frontier 0 |
| `PublicationRecovery.CompletePairRecoversNext` | experiments/storage-publication.rs:44-79 | the complete pair recovers frontier 1 if and only if the payload is shorter than 2^32 bytes |
| `PublicationRecovery.TruncatedGroupFails` | experiments/storage-publication.rs:60-67 | any truncation of a certified group whose length fits a 64-bit word is an integrity failure |
| `PublicationRecovery.ChangedGroupFails` | experiments/storage-publication.rs:60-67 | so is any single changed byte of the group |
| `PublicationRecovery.ChangedCertificateFails` | experiments/storage-publication.rs:49-55 | and any single changed byte of the certificate |
| `OrderedCommitment.ComputeKeyBits` | scripts/check_ordered_commitment_vectors.py:15-20 | growing the bit list byte by byte builds the encoding |
| `OrderedCommitment.EncodingIsPrefixFree` | scripts/check_ordered_commitment_vectors.py:15-20 | no key's encoding is a prefix of another's |
| `OrderedCommitment.OrderIsBitOrder` | scripts/check_ordered_commitment_vectors.py:15-20 | keys are ordered as their encodings are |
| `OrderedCommitment.SplitIsExact` | scripts/check_ordered_commitment_vectors.py:36-41 | for every sorted list the branch bit exists in every key, is zero exactly below the split, and the split is strictly inside |
| `OrderedCommitment.SummaryTotals` | scripts/check_ordered_commitment_vectors.py:28-44 | count and size are the totals over the items |
| `OrderedCommitment.SummaryExists` | scripts/check_ordered_commitment_vectors.py:28-44 | keys short enough for the 32-bit branch field, with 64-bit totals, always have a summary |
| `OrderedCommitment.RootBindsItems` | scripts/check_ordered_commitment_vectors.py:28-44 | under a one-to-one hash equal roots come from equal item lists |

## Left out

- Journal, filesystem, page cache, index run format and commit coordinator: storage is an exact sorted map and commits are an ordered sequence.
- Byte-level record, policy and transaction codecs of the graph and the import ledger: frames are tokens that carry the value.
- Resource budgets and page, byte and operation statistics (`LoadBudget`, the admission and preparation limits, the byte half of `AggregateScanBudget`): only the limits that change an answer are kept (operation and reference counts, checkpoint size, traversal results and visits, import and memory quotas).
- Cold admission's cursors: admission is stated as the conjunction of the checks its cursors make, and only the history group is an object; the order in which independent families are read is not modelled.
- Checkpoint reading and writing of the graph pass the unread tokens along as a value instead of updating a cursor object.
- The research encoders and the record-level decoders are two-way formats on values; the cursor object is modelled for its primitives and the counted loop.
- Authorization requirements, the record and record-at reads of both graph paths, the single-fact read and citation resolution of the memory pilot, and memory transaction bytes.
- Spatial component: kept as one accept-or-refuse answer per import request, so catalog closure is not modelled.
- `uste-crypto`, time normalisation, the memory adapter, research state and queries, and the generated, packed and documentation scripts.
- The 32-bit line counter overflow of memory locators, which the text limit keeps out of reach.
- Publication.PublishChangesExact: speaks of change lists with one change per record, the form every prepared delta has.
- DiskState.MergePlan: does not model 64-bit overflow of the policy family's two counts together, which needs a policy change at every one of 2^64 - 1 revisions.
- Ledger.EveryRunIsLedgered: request and chain digests are parameters, so the chain of digests is carried but not interpreted.
