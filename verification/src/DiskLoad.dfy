/** Loading a transaction's bounded proof from the families of an admitted root
    (crates/uste-graph/src/state_disk.rs:1290-1434, 1469-1563, 1718-1867). */
module DiskLoad {
  import opened Base
  import opened Records
  import opened Index
  import opened References
  import opened Reducer
  import opened Integrity
  import opened Publication
  import opened Invariant
  import opened Restore
  import Checkpoint
  import opened Families
  import opened Counting
  import opened Deltas
  import opened DeltaBuilder
  import opened Proofs
  import opened OverlayObject

  /** An authenticated root: a revision's eight families, read as one sorted map. */
  datatype Root = Root(scope: nat, revision: nat, entries: Entries)

  /** The root holds exactly the families of the committed state `s`. */
  ghost predicate Represents(root: Root, s: Snapshot) {
    root == Root(s.scope, s.revision, EntriesOf(s)) && Consistent(s) && s.revision >= 1
  }

  lemma RepresentedEntry(root: Root, s: Snapshot, key: Key)
    requires Represents(root, s)
    ensures Lookup(root.entries, key) == EntryAt(s, key)
  {
    hide Consistent, EntriesOf;
    EntriesLookup(s, key);
  }

  // Exact gets

  /** An exact get of the current-record family, with the checks made of what it returns. */
  function StoredRecord(root: Root, id: RecordRef): Result<Option<Record>, DiskError> {
    match Lookup<Key, Content>(root.entries, RecordKey(id.record))
    case None => Ok(None)
    case Some(RecordContent(r)) =>
      if r.id != id || r.ModifiedRevision() > root.revision then Err(CorruptIndex) else Ok(Some(r))
    case _ => Err(CorruptIndex)
  }

  lemma {:induction false} StoredRecordIsTrue(root: Root, s: Snapshot, id: RecordRef)
    requires Represents(root, s) && id.scope == s.scope
    ensures StoredRecord(root, id) == Ok(Lookup(s.records, id))
  {
    hide Consistent, EntriesOf;
    RepresentedEntry(root, s, RecordKey(id.record));
    if id in s.records {
      ConsistentIsIndexed(s);
      CurrentIsDated(s, id);
    }
  }

  lemma CurrentIsDated(s: Snapshot, id: RecordRef)
    requires HistoriesKept(s) && id in s.records
    ensures s.records[id].id == id && 1 <= s.records[id].ModifiedRevision() <= s.revision
  {
    assert GoodHistory(s.scope, id, s.history[id], s.revision);
  }

  function StoredPolicy(root: Root): Result<Option<NamespacePolicy>, DiskError> {
    match Lookup<Key, Content>(root.entries, CurrentPolicyKey)
    case None => Ok(None)
    case Some(PolicyContent(p)) => if p.scope != root.scope then Err(CorruptIndex) else Ok(Some(p))
    case _ => Err(CorruptIndex)
  }

  function StoredCounts(root: Root): Result<Counts, DiskError> {
    match Lookup<Key, Content>(root.entries, MetadataKey)
    case Some(MetadataContent(revision, counts)) => if revision == root.revision then Ok(counts) else Err(CorruptIndex)
    case _ => Err(CorruptIndex)
  }

  lemma {:induction false} StoredHeadIsTrue(root: Root, s: Snapshot)
    requires Represents(root, s)
    ensures StoredPolicy(root) == Ok(s.policy) && StoredCounts(root) == Ok(MetadataCounts(s))
  {
    hide Consistent, EntriesOf, MetadataCounts;
    RepresentedEntry(root, s, CurrentPolicyKey);
    RepresentedEntry(root, s, MetadataKey);
    ConsistentIsIndexed(s);
    Checkpoint.CurrentPolicyHasScope(s);
  }

  // The worklist of current records

  /** Every id a worklist over `s` can ever hold. */
  ghost function Reach(tx: Transaction, s: Snapshot): set<RecordRef> {
    TransactionIds(tx) + set id, t | id in s.records && t in MentionedBy(s.records[id]) :: t
  }

  lemma RequiredGrows(tx: Transaction, current: map<RecordRef, Option<Record>>, id: RecordRef, proof: Option<Record>)
    requires id !in current
    ensures RequiredIds(tx, current[id := proof]) ==
      RequiredIds(tx, current) + (if proof.Some? && NeedsRetained(tx, id) then MentionedBy(proof.value) else {})
  {
    hide TransactionIds, NeedsRetained, MentionedBy;
    var next := current[id := proof];
    forall t ensures t in RequiredIds(tx, next) <==>
      t in RequiredIds(tx, current) || (proof.Some? && NeedsRetained(tx, id) && t in MentionedBy(proof.value))
    {
      if k :| k in current && current[k].Some? && NeedsRetained(tx, k) && t in MentionedBy(current[k].value) {
        assert k in next && next[k].Some? && NeedsRetained(tx, k) && t in MentionedBy(next[k].value);
      }
      if proof.Some? && NeedsRetained(tx, id) && t in MentionedBy(proof.value) {
        assert id in next && next[id].Some? && t in MentionedBy(next[id].value);
      }
    }
  }

  lemma MentionReached(tx: Transaction, s: Snapshot, id: RecordRef)
    requires id in s.records
    ensures MentionedBy(s.records[id]) <= Reach(tx, s)
  {
    hide MentionedBy, TransactionIds;
    forall t | t in MentionedBy(s.records[id]) ensures t in Reach(tx, s) {}
  }

  lemma {:induction false} MentionScoped(s: Snapshot, id: RecordRef)
    requires Consistent(s) && id in s.records
    ensures forall t :: t in MentionedBy(s.records[id]) ==> t.scope == s.scope
  {
    hide Consistent;
    ConsistentIsIndexed(s);
    CurrentShape(s, id);
    forall t | t in MentionedBy(s.records[id]) ensures t.scope == s.scope {
      assert t in ReverseOf(s.records[id]);
      MentionsInScope(s.scope, s.records[id], t);
    }
  }

  method AddPending(pending: set<RecordRef>, current: map<RecordRef, Option<Record>>, r: Record)
      returns (more: set<RecordRef>)
    ensures more == pending + (MentionedBy(r) - current.Keys)
  {
    more := pending;
    var mentions := RecordMentions(r);
    for k := 0 to |mentions|
      invariant more == pending + ((set m | m in mentions[..k] :: m.target) - current.Keys)
    {
      assert mentions[..k + 1] == mentions[..k] + [mentions[k]];
      if mentions[k].target !in current { more := more + {mentions[k].target}; }
    }
    assert mentions[..|mentions|] == mentions;
  }

  ghost predicate Worklist(tx: Transaction, s: Snapshot, current: map<RecordRef, Option<Record>>,
      pending: set<RecordRef>) {
    && (forall id :: id in current ==> current[id] == Lookup(s.records, id))
    && RequiredIds(tx, current) <= current.Keys + pending
    && current.Keys + pending <= Reach(tx, s)
    && (forall id :: id in pending ==> id.scope == s.scope)
  }

  lemma {:induction false} ProveOne(tx: Transaction, s: Snapshot, current: map<RecordRef, Option<Record>>,
      pending: set<RecordRef>, id: RecordRef, next: set<RecordRef>)
    requires Consistent(s) && Worklist(tx, s, current, pending) && id in pending && id !in current
    requires var proof := Lookup(s.records, id);
      next == if proof.Some? && NeedsRetained(tx, id)
        then (pending - {id}) + (MentionedBy(proof.value) - current[id := proof].Keys) else pending - {id}
    ensures Worklist(tx, s, current[id := Lookup(s.records, id)], next)
  {
    hide Consistent, RequiredIds, Reach, MentionedBy, NeedsRetained;
    var proof := Lookup(s.records, id);
    RequiredGrows(tx, current, id, proof);
    if proof.Some? {
      MentionReached(tx, s, id);
      MentionScoped(s, id);
    }
  }

  /** Pops the least pending id until none is left; terminates because every id is reachable and proved once. */
  method LoadCurrent(root: Root, tx: Transaction, ghost s: Snapshot)
      returns (r: Result<map<RecordRef, Option<Record>>, DiskError>)
    requires Represents(root, s) && forall id :: id in TransactionIds(tx) ==> id.scope == s.scope
    ensures r.Ok? && (forall id :: id in r.value ==> r.value[id] == Lookup(s.records, id))
      && RequiredIds(tx, r.value) <= r.value.Keys
  {
    hide Represents, RequiredIds, NeedsRetained, MentionedBy, Consistent, Reach;
    var current: map<RecordRef, Option<Record>>, pending := map[], TransactionIds(tx);
    WorklistStart(tx, s);
    LessIsStrictOrder();
    while pending != {}
      invariant Worklist(tx, s, current, pending)
      decreases Reach(tx, s) - current.Keys, pending
    {
      var id := LeastOf(pending, Less);
      assert id in Reach(tx, s);
      if id in current {
        pending := pending - {id};
      } else {
        StoredRecordIsTrue(root, s, id);
        var proof := StoredRecord(root, id);
        if proof.Err? { return Err(CorruptIndex); }
        var rest := pending - {id};
        var proved := current[id := proof.value];
        if proof.value.Some? && NeedsRetained(tx, id) {
          rest := AddPending(rest, proved, proof.value.value);
        }
        assert Consistent(s) by { RepresentsConsistent(root, s); }
        ProveOne(tx, s, current, pending, id, rest);
        current, pending := proved, rest;
      }
    }
    r := Ok(current);
  }

  lemma WorklistStart(tx: Transaction, s: Snapshot)
    requires forall id :: id in TransactionIds(tx) ==> id.scope == s.scope
    ensures Worklist(tx, s, map[], TransactionIds(tx))
  {
    hide TransactionIds;
  }

  lemma RepresentsConsistent(root: Root, s: Snapshot)
    requires Represents(root, s)
    ensures Consistent(s) && root.scope == s.scope && root.revision == s.revision >= 1
  {
  }

  // Prefix scans

  function ModifiedRevisions(versions: seq<Record>): seq<nat> {
    seq(|versions|, i requires 0 <= i < |versions| => versions[i].ModifiedRevision())
  }

  /** The revisions found under one record's prefix of the history family. */
  function ScannedRevisions(entries: Entries, record: nat): set<nat> {
    set key | key in entries && key.VersionKey? && key.record == record :: key.revision
  }

  lemma {:induction false} ScannedAreListed(root: Root, s: Snapshot, target: RecordRef, found: seq<nat>)
    requires Represents(root, s) && target.scope == s.scope
    requires Enumerates(found, ScannedRevisions(root.entries, target.record), Earlier)
    ensures found == ModifiedRevisions(VersionsOf(s.history, target))
  {
    hide Represents, Consistent, EntryAt, EntriesOf;
    var versions := VersionsOf(s.history, target);
    var listed := ModifiedRevisions(versions);
    assert Chronological(versions) by { RepresentsConsistent(root, s); ConsistentChronology(s, target); }
    forall r ensures r in ScannedRevisions(root.entries, target.record) <==> r in listed {
      ScannedRevision(root, s, target, r);
      if r in Revisions(versions) {
        var k :| 0 <= k < |versions| && versions[k].ModifiedRevision() == r;
        assert listed[k] == r;
      }
      if r in listed {
        var k :| 0 <= k < |listed| && listed[k] == r;
        assert versions[k].ModifiedRevision() == r;
      }
    }
    assert StrictOrder(Earlier);
    EnumerationUnique(found, listed, ScannedRevisions(root.entries, target.record), Earlier);
  }

  lemma ConsistentChronology(s: Snapshot, id: RecordRef)
    requires Consistent(s)
    ensures Chronological(VersionsOf(s.history, id))
  {
    hide Consistent;
    ConsistentIsIndexed(s);
    KeptAscend(s);
  }

  lemma ScannedRevision(root: Root, s: Snapshot, target: RecordRef, r: nat)
    requires Represents(root, s) && target.scope == s.scope
    ensures r in ScannedRevisions(root.entries, target.record) <==> r in Revisions(VersionsOf(s.history, target))
  {
    hide Represents, Consistent, Revisions, VersionAt;
    var key := VersionKey(target.record, r);
    RepresentedEntry(root, s, key);
    assert root.scope == s.scope by { RepresentsConsistent(root, s); }
    VersionServed(VersionsOf(s.history, target), r);
    assert r in ScannedRevisions(root.entries, target.record) <==> key in root.entries;
  }

  /** `load_history_proofs` for one target. */
  method ScanVersions(root: Root, target: RecordRef, ghost s: Snapshot) returns (r: Result<seq<Record>, DiskError>)
    requires Represents(root, s) && target.scope == s.scope
    ensures r == Ok(VersionsOf(s.history, target))
  {
    hide Represents, Consistent, VersionAt, VersionsOf, Increasing, EntriesOf;
    ghost var all := VersionsOf(s.history, target);
    assert StrictOrder(Earlier);
    var found := InOrder(ScannedRevisions(root.entries, target.record), Earlier);
    ScannedAreListed(root, s, target, found);
    assert Chronological(all) by { RepresentsConsistent(root, s); ConsistentChronology(s, target); }
    var versions := [];
    for k := 0 to |found|
      invariant versions == all[..k]
    {
      assert found[k] == all[k].ModifiedRevision();
      StoredVersion(root, s, target, k);
      var content := Lookup(root.entries, VersionKey(target.record, found[k]));
      if !(content.Some? && content.value.RecordContent?) { return Err(CorruptIndex); }
      var v := content.value.value;
      if v.id != target || v.ModifiedRevision() != found[k] || found[k] > root.revision
        || (versions != [] && versions[|versions| - 1].ModifiedRevision() >= found[k]) { return Err(CorruptIndex); }
      versions := versions + [v];
    }
    assert all[..|all|] == all;
    r := Ok(versions);
  }

  lemma {:induction false} StoredVersion(root: Root, s: Snapshot, target: RecordRef, k: nat)
    requires Represents(root, s) && target.scope == s.scope && k < |VersionsOf(s.history, target)|
    ensures var v := VersionsOf(s.history, target)[k];
      && Lookup(root.entries, VersionKey(target.record, v.ModifiedRevision())) == Some(RecordContent(v))
      && v.id == target && v.ModifiedRevision() <= root.revision
  {
    hide Represents, Consistent, VersionAt, EntriesOf;
    var v := VersionsOf(s.history, target)[k];
    RepresentsConsistent(root, s);
    ConsistentChronology(s, target);
    ConsistentIsIndexed(s);
    VersionIsAt(VersionsOf(s.history, target), k);
    RepresentedEntry(root, s, VersionKey(target.record, v.ModifiedRevision()));
    VersionOwner(s, target, k);
  }

  lemma VersionOwner(s: Snapshot, target: RecordRef, k: nat)
    requires HistoriesKept(s) && k < |VersionsOf(s.history, target)|
    ensures var v := VersionsOf(s.history, target)[k]; v.id == target && v.ModifiedRevision() <= s.revision
  {
    assert GoodHistory(s.scope, target, s.history[target], s.revision);
  }

  /** The owners found under one target's prefix of the reverse family. */
  function ScannedOwners(entries: Entries, scope: nat, record: nat): set<RecordRef> {
    set key | key in entries && key.PairKey? && key.family == Reverse && key.left == record ::
      RecordRef(scope, key.right)
  }

  lemma {:induction false} ScannedOwner(root: Root, s: Snapshot, target: RecordRef, w: RecordRef)
    requires Represents(root, s) && target.scope == s.scope
    ensures w in ScannedOwners(root.entries, s.scope, target.record) <==> w in Bucket(s.reverse, target)
    ensures w in Bucket(s.reverse, target) ==>
      Lookup(root.entries, PairKey(Reverse, target.record, w.record))
        == Some(ReverseContent(Bucket(s.reverse, target)[w]))
  {
    hide Represents, Consistent, EntriesOf, IndexesMatch, HistoriesKept, PoliciesKept, Indexed, ScannedOwners;
    var key := PairKey(Reverse, target.record, w.record);
    RepresentedEntry(root, s, key);
    RepresentsConsistent(root, s);
    ConsistentIsIndexed(s);
    ConsistentInScope(s);
    OwnerListed(root.entries, s.scope, target.record, w);
    assert Has(s.reverse, target, w) <==> w in Bucket(s.reverse, target);
  }

  lemma OwnerListed(entries: Entries, scope: nat, record: nat, w: RecordRef)
    ensures w in ScannedOwners(entries, scope, record)
      <==> w.scope == scope && PairKey(Reverse, record, w.record) in entries
  {
    if w.scope == scope && PairKey(Reverse, record, w.record) in entries {
      assert RecordRef(scope, PairKey(Reverse, record, w.record).right) == w;
    }
  }

  /** `load_reverse_proofs` for one target. */
  method ScanOwners(root: Root, target: RecordRef, ghost s: Snapshot)
      returns (r: Result<map<RecordRef, ReverseReference>, DiskError>)
    requires Represents(root, s) && target.scope == s.scope
    ensures r == Ok(Bucket(s.reverse, target))
  {
    hide Represents, Consistent, EntriesOf, Increasing, Bucket, ScannedOwners, Checkpoint.Listed;
    ghost var bucket := Bucket(s.reverse, target);
    assert root.scope == s.scope by { RepresentsConsistent(root, s); }
    var ids := ScannedOwners(root.entries, root.scope, target.record);
    var found := Ascending(ids);
    var owners: map<RecordRef, ReverseReference> := map[];
    Checkpoint.NothingListed(bucket, found);
    for k := 0 to |found|
      invariant owners == Checkpoint.Listed(bucket, found[..k])
    {
      var w := found[k];
      assert w in ids;
      ScannedOwner(root, s, target, w);
      StillUnlisted(bucket, ids, k);
      Checkpoint.ListedStep(bucket, found, k);
      var content := Lookup(root.entries, PairKey(Reverse, target.record, w.record));
      if !(content.Some? && content.value.ReverseContent?) || w in owners { return Err(CorruptIndex); }
      owners := owners[w := content.value.reference];
    }
    assert found[..|found|] == found;
    forall w ensures w in ids <==> w in bucket { ScannedOwner(root, s, target, w); }
    AllListed(bucket, ids);
    r := Ok(owners);
  }

  lemma StillUnlisted<V>(m: map<RecordRef, V>, ids: set<RecordRef>, k: nat)
    requires k < |ids|
    ensures Sorted(ids)[k] !in Checkpoint.Listed(m, Sorted(ids)[..k])
  {
    NotRepeated(ids, k);
  }

  lemma AllListed<V>(m: map<RecordRef, V>, ids: set<RecordRef>)
    requires forall w :: w in ids <==> w in m
    ensures Checkpoint.Listed(m, Sorted(ids)) == m
  {
    assert forall w :: w in Sorted(ids) <==> w in ids;
  }

  lemma NotRepeated(ids: set<RecordRef>, k: nat)
    requires k < |ids|
    ensures Sorted(ids)[k] !in Sorted(ids)[..k]
  {
    var s := Sorted(ids);
    assert forall i :: 0 <= i < k ==> Less(s[i], s[k]);
  }

  // The whole proof

  method LoadHistories(root: Root, targets: set<RecordRef>, ghost s: Snapshot)
      returns (r: Result<map<RecordRef, seq<Record>>, DiskError>)
    requires Represents(root, s) && forall t :: t in targets ==> t.scope == s.scope
    ensures r.Ok? && r.value.Keys == targets && forall t :: t in targets ==> r.value[t] == VersionsOf(s.history, t)
  {
    hide Represents, VersionsOf;
    var left, out: map<RecordRef, seq<Record>> := targets, map[];
    while left != {}
      invariant left <= targets && out.Keys == targets - left
      invariant forall t :: t in out ==> out[t] == VersionsOf(s.history, t)
      decreases left
    {
      var t :| t in left;
      var versions := ScanVersions(root, t, s);
      if versions.Err? { return Err(CorruptIndex); }
      out, left := out[t := versions.value], left - {t};
    }
    r := Ok(out);
  }

  method LoadReverse(root: Root, targets: set<RecordRef>, ghost s: Snapshot)
      returns (r: Result<Index<ReverseReference>, DiskError>)
    requires Represents(root, s) && forall t :: t in targets ==> t.scope == s.scope
    ensures r.Ok? && r.value.Keys == targets && forall t :: t in targets ==> r.value[t] == Bucket(s.reverse, t)
  {
    hide Represents, Bucket;
    var left, out: Index<ReverseReference> := targets, map[];
    while left != {}
      invariant left <= targets && out.Keys == targets - left
      invariant forall t :: t in out ==> out[t] == Bucket(s.reverse, t)
      decreases left
    {
      var t :| t in left;
      var owners := ScanOwners(root, t, s);
      if owners.Err? { return Err(CorruptIndex); }
      out, left := out[t := owners.value], left - {t};
    }
    r := Ok(out);
  }

  datatype LoadedView = LoadedView(proof: Proof, counts: Counts)

  ghost predicate NamesInScope(tx: Transaction) {
    forall id :: id in TransactionIds(tx) ==> id.scope == tx.scope
  }

  /** `id` is the first named id outside the transaction's namespace, in the order the ids are required. */
  ghost predicate FirstStray(tx: Transaction, id: RecordRef) {
    exists i, j :: StrayAt(tx, i, j, id)
  }

  ghost predicate StrayAt(tx: Transaction, i: nat, j: nat, id: RecordRef) {
    && i < |tx.operations| && j < |OperationIds(tx.operations[i])| && OperationIds(tx.operations[i])[j] == id
    && id.scope != tx.scope
    && (forall k, x :: 0 <= k < i && x in OperationIds(tx.operations[k]) ==> x.scope == tx.scope)
    && (forall x :: x in OperationIds(tx.operations[i])[..j] ==> x.scope == tx.scope)
  }

  /** Why the loader refuses: a limit, the transaction's own scope, or the first id outside it. */
  ghost predicate LoadRefusal(s: Snapshot, tx: Transaction, reason: GraphError) {
    var limits := ValidateRequestLimits(tx);
    if limits.Err? then reason == limits.error
    else if tx.scope != s.scope then reason == TransactionScopeMismatch
    else exists id :: FirstStray(tx, id) && reason == ScopeMismatch(id)
  }

  method FirstOutOfScope(tx: Transaction) returns (found: Option<RecordRef>)
    ensures found.None? <==> NamesInScope(tx)
    ensures found.Some? ==> FirstStray(tx, found.value)
  {
    hide OperationIds;
    for i := 0 to |tx.operations|
      invariant forall k, id :: 0 <= k < i && id in OperationIds(tx.operations[k]) ==> id.scope == tx.scope
    {
      var ids := OperationIds(tx.operations[i]);
      for j := 0 to |ids|
        invariant forall id :: id in ids[..j] ==> id.scope == tx.scope
      {
        if ids[j].scope != tx.scope {
          assert ids[j] in OperationIds(tx.operations[i]);
          assert ids[j] in TransactionIds(tx);
          assert StrayAt(tx, i, j, ids[j]);
          return Some(ids[j]);
        }
        assert ids[..j + 1] == ids[..j] + [ids[j]];
      }
      assert ids[..|ids|] == ids;
    }
    found := None;
  }

  lemma TargetsAreNamed(tx: Transaction)
    ensures HistoryTargets(tx) <= TransactionIds(tx) && ReverseTargets(tx) <= TransactionIds(tx)
  {
    forall id | id in HistoryTargets(tx) ensures id in TransactionIds(tx) {
      var i :| 0 <= i < |tx.operations| && id in OperationHistoryIds(tx.operations[i]);
      HistoryIdsAreNamed(tx.operations[i], id);
    }
    forall id | id in ReverseTargets(tx) ensures id in TransactionIds(tx) {
      var i :| 0 <= i < |tx.operations| && tx.operations[i].DeleteEntity? && tx.operations[i].target == id;
      assert OperationIds(tx.operations[i])[0] == id;
      assert id in OperationIds(tx.operations[i]);
    }
  }

  lemma HistoryIdsAreNamed(op: Operation, id: RecordRef)
    requires id in OperationHistoryIds(op)
    ensures id in OperationIds(op)
  {
  }

  /** `load_graph_disk_preparation_view`: refuses requests out of bounds or
      out of scope, else proves everything needed. */
  method LoadProof(root: Root, tx: Transaction, ghost s: Snapshot) returns (r: Result<LoadedView, DiskError>)
    requires Represents(root, s)
    ensures r.Ok? ==> TrueOf(r.value.proof, s) && Complete(r.value.proof, tx) && r.value.counts == MetadataCounts(s)
    ensures r.Ok? <==> ValidateRequestLimits(tx).Ok? && tx.scope == s.scope && NamesInScope(tx)
    ensures r.Err? ==> r.error.Refused? && LoadRefusal(s, tx, r.error.reason)
  {
    hide FirstStray, Represents, ValidateRequestLimits, RequiredIds, TransactionIds, HistoryTargets, ReverseTargets,
         MetadataCounts, VersionsOf, Bucket;
    RepresentsConsistent(root, s);
    var limits := ValidateRequestLimits(tx);
    if limits.Err? { return Err(Refused(limits.error)); }
    if tx.scope != root.scope { return Err(Refused(TransactionScopeMismatch)); }
    var stray := FirstOutOfScope(tx);
    if stray.Some? { return Err(Refused(ScopeMismatch(stray.value))); }
    TargetsAreNamed(tx);
    StoredHeadIsTrue(root, s);
    var counts, policy := StoredCounts(root), StoredPolicy(root);
    if counts.Err? || policy.Err? { return Err(CorruptIndex); }
    var current := LoadCurrent(root, tx, s);
    if current.Err? { return Err(CorruptIndex); }
    var history := LoadHistories(root, HistoryTargets(tx), s);
    if history.Err? { return Err(CorruptIndex); }
    var reverse := LoadReverse(root, ReverseTargets(tx), s);
    if reverse.Err? { return Err(CorruptIndex); }
    r := Ok(LoadedView(Proof(tx.scope, root.revision, current.value, history.value, reverse.value, policy.value),
      counts.value));
  }
}
