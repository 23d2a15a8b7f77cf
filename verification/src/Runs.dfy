/** What the invariant means for whole runs: no dangling reference, rebuild-equal indexes, exact time travel
    (crates/uste-graph/src/state.rs:94-123, 223-236, 359-394, 2457-2684, 3098-3108). */
module Runs {
  import opened Base
  import opened Records
  import opened Index
  import opened References
  import opened Reducer
  import opened Operations
  import opened Integrity
  import opened Publication
  import opened Invariant

  /** In every reachable state full validation accepts every record, though commits validate only what they change. */
  lemma {:induction false} EveryRecordValidates(scope: nat, txs: seq<Transaction>, id: RecordRef)
    requires id in Run(scope, txs).records
    ensures ValidateRecord(scope, id, Run(scope, txs).records[id], Run(scope, txs).records).Ok?
  {
    hide Run, Indexed, IndexesMatch, HistoriesKept, HistoricallyClosed, PoliciesKept, ValidateRecord, WellShaped,
         ReferencesHold;
    var s := Run(scope, txs);
    EveryRunIsConsistent(scope, txs);
    assert ValidIn(scope, id, s.records);
    ValidateRecordMeaning(scope, id, s.records[id], s.records);
  }

  /** No active entity and no proposed or accepted claim ever points at a deleted entity, or at nothing. */
  lemma {:induction false} NothingDependsOnDeleted(scope: nat, txs: seq<Transaction>, owner: RecordRef, e: RecordRef)
    requires owner in Run(scope, txs).records && Depends(Run(scope, txs).records[owner], e)
    ensures e in Run(scope, txs).records && Run(scope, txs).records[e].IsVisible()
  {
    EveryRunIsConsistent(scope, txs);
    assert ValidIn(scope, owner, Run(scope, txs).records);
  }

  /** `validate_derived_indexes` succeeds in every reachable state: the
      incrementally adjusted indexes are the rebuilt ones. */
  lemma {:induction false} IncrementalIsRebuild(scope: nat, txs: seq<Transaction>)
    ensures var s := Run(scope, txs);
      var ids := Sorted(s.records.Keys);
      && s.outgoing == Rebuild(s.records, ids, OutgoingOf)
      && s.incoming == Rebuild(s.records, ids, IncomingOf)
      && s.provenance == Rebuild(s.records, ids, ProvenanceOf)
      && s.reverse == Rebuild(s.records, ids, ReverseOf)
  {
    hide Run, Matches, AllValid, HistoriesKept, HistoricallyClosed, PoliciesKept;
    var s := Run(scope, txs);
    EveryRunIsConsistent(scope, txs);
    RebuildUnique(s.outgoing, s.records, OutgoingOf);
    RebuildUnique(s.incoming, s.records, IncomingOf);
    RebuildUnique(s.provenance, s.records, ProvenanceOf);
    RebuildUnique(s.reverse, s.records, ReverseOf);
  }

  lemma RebuildUnique<V(!new)>(index: Index<V>, records: map<RecordRef, Record>,
      contribution: Record -> map<RecordRef, V>)
    requires Matches(index, records, contribution)
    ensures index == Rebuild(records, Sorted(records.Keys), contribution)
  {
    RebuildMatches(records, contribution);
    MatchesUnique(index, Rebuild(records, Sorted(records.Keys), contribution), records, contribution);
  }

  lemma {:induction false} AcceptedKeepsPast(s: Snapshot, tx: Transaction, p: PreparedGraph, id: RecordRef,
      revision: nat)
    requires Consistent(s) && revision <= s.revision
    requires Prepare(s, tx, s.revision + 1) == Ok(p)
    ensures Publish(s, p).revision >= s.revision
    ensures RecordAt(Publish(s, p).history, id, revision) == RecordAt(s.history, id, revision)
    ensures PolicyAt(Publish(s, p).policyHistory, revision) == PolicyAt(s.policyHistory, revision)
  {
    hide Publish, Prepare, RunOperations, IndexesMatch, AllValid, HistoriesKept, HistoricallyClosed, PoliciesKept,
         RecordAt, ValidateChanged;
    hide NoDangling, CorrectsAccepted, AppendVersions, PolicyAt, Indexed, ChangesOf;
    assert PolicyAt(Publish(s, p).policyHistory, revision) == PolicyAt(s.policyHistory, revision) by {
      PublishedPolicy(s, tx, p);
      if p.policyChange.Some? {
        PolicyAtStable(s.policyHistory, s.revision + 1, p.policyChange.value, revision);
      }
    }
    var progress := CommitPublishesOverlay(s, tx, p);
    RecordAtStable(s.history, progress.overlay.changed, id, revision);
  }

  lemma {:induction false} CommitKeepsPast(s: Snapshot, tx: Transaction, id: RecordRef, revision: nat)
    requires Consistent(s) && revision <= s.revision
    ensures Commit(s, tx).revision >= s.revision
    ensures RecordAt(Commit(s, tx).history, id, revision) == RecordAt(s.history, id, revision)
    ensures PolicyAt(Commit(s, tx).policyHistory, revision) == PolicyAt(s.policyHistory, revision)
  {
    hide Publish, Prepare, Consistent, RecordAt, PolicyAt;
    match Prepare(s, tx, s.revision + 1)
    case Ok(p) => AcceptedKeepsPast(s, tx, p, id, revision);
    case Err(_) =>
  }

  /** Time travel: looking up any record, or the policy, at the revision of an earlier snapshot of the run gives
      exactly what that snapshot held. */
  lemma {:induction false} TimeTravel(scope: nat, txs: seq<Transaction>, n: nat, id: RecordRef)
    requires n <= |txs|
    ensures var early, late := Run(scope, txs[..n]), Run(scope, txs);
      && early.revision <= late.revision
      && RecordAt(late.history, id, early.revision) == Lookup(early.records, id)
      && PolicyAt(late.policyHistory, early.revision) == early.policy
    decreases |txs|
  {
    hide RecordAt, HistoriesKept, IndexesMatch, AllValid, HistoricallyClosed, Commit, Indexed;
    var early := Run(scope, txs[..n]);
    if n == |txs| {
      assert txs[..n] == txs;
      EveryRunIsConsistent(scope, txs);
      RecordAtNow(early, id);
    } else {
      var front := txs[..|txs| - 1];
      assert front[..n] == txs[..n];
      TimeTravel(scope, front, n, id);
      EveryRunIsConsistent(scope, front);
      CommitKeepsPast(Run(scope, front), txs[|txs| - 1], id, early.revision);
    }
  }

  ghost predicate HasVersionAt(history: map<RecordRef, seq<Record>>, id: RecordRef, revision: nat) {
    id in history && exists k :: 0 <= k < |history[id]| && history[id][k].ModifiedRevision() == revision
  }

  /** One version per commit that changed the record: an accepted commit adds a
      version of `id` exactly when it changes `id`. */
  lemma {:induction false} OneVersionPerChange(s: Snapshot, tx: Transaction, p: PreparedGraph, id: RecordRef)
    requires Consistent(s) && Prepare(s, tx, s.revision + 1) == Ok(p)
    ensures HasVersionAt(Publish(s, p).history, id, s.revision + 1)
      <==> Lookup(Publish(s, p).records, id) != Lookup(s.records, id)
    ensures Lookup(Publish(s, p).records, id) == Lookup(s.records, id) ==>
      Lookup(Publish(s, p).history, id) == Lookup(s.history, id)
  {
    hide Publish, Prepare, RunOperations, Indexed, IndexesMatch, AllValid, HistoricallyClosed, PoliciesKept,
         ValidateChanged, NoDangling, CorrectsAccepted;
    var progress := CommitPublishesOverlay(s, tx, p);
    var t := Publish(s, p);
    if id in progress.overlay.changed {
      var versions := VersionsOf(s.history, id);
      assert t.history[id][|versions|] == progress.overlay.changed[id];
      assert LegalChange(Lookup(s.records, id), progress.overlay.changed[id], id, s.revision + 1);
    } else if id in s.history {
      assert GoodHistory(s.scope, id, s.history[id], s.revision);
    }
  }

  /** `GraphSnapshot::record_at`. */
  function ReadRecordAt(s: Snapshot, revision: nat, id: RecordRef): Result<Option<Record>, GraphError> {
    var _ :- CheckScope(s.scope, id);
    if revision > s.revision then Err(UnknownReadView(revision)) else Ok(RecordAt(s.history, id, revision))
  }
}
