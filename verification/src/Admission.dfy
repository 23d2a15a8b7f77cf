/** Cold admission of a stored root by streaming checks, against the state it must reconstruct
    (crates/uste-graph/src/state_disk.rs:3633-3938, 4000-4130, 4240-4382, 4553-4744, 4952-5013). */
module Admission {
  import opened Base
  import opened Records
  import opened Index
  import opened References
  import opened Reducer
  import opened Operations
  import opened Integrity
  import opened Publication
  import opened Invariant
  import opened Restore
  import opened Checkpoint
  import opened Families
  import opened Counting
  import opened Deltas
  import opened KeyOrder
  import opened DeltaBuilder
  import opened DiskLoad
  import opened Validator
  import opened Streaming
  import opened DiskState
  import opened GraphStateObject

  // What an accepted stream says about its entries

  lemma {:induction false} ObserveKeepsHead(v: State, key: Key, content: Content)
    requires WellSized(v) && Observe(v, key, content).Ok?
    ensures var w := Observe(v, key, content).value;
      w.scope == v.scope && w.revision == v.revision && w.counts == v.counts && w.nextFamily == v.nextFamily
  {
  }

  lemma {:induction false} ObservedAt(v: State, entries: Entries, keys: seq<Key>, k: nat) returns (w: State)
    requires ObserveAll(v, entries, keys).Ok? && k < |keys|
    ensures ObserveAll(v, entries, keys[..k]) == Ok(w) && keys[k] in entries && WellSized(w)
      && Observe(w, keys[k], entries[keys[k]]).Ok?
    ensures w.scope == v.scope && w.revision == v.revision && w.counts == v.counts && w.nextFamily == v.nextFamily
    decreases |keys|
  {
    hide Observe;
    var n := |keys| - 1;
    if k < n {
      assert keys[..n][..k] == keys[..k] && keys[..n][k] == keys[k];
      w := ObservedAt(v, entries, keys[..n], k);
    } else {
      assert keys[..k] == keys[..n];
      w := ObserveAll(v, entries, keys[..n]).value;
      ObservedHead(v, entries, keys[..n]);
    }
  }

  lemma {:induction false} ObservedHead(v: State, entries: Entries, keys: seq<Key>)
    requires ObserveAll(v, entries, keys).Ok?
    ensures var w := ObserveAll(v, entries, keys).value;
      w.scope == v.scope && w.revision == v.revision && w.counts == v.counts && w.nextFamily == v.nextFamily
    decreases |keys|
  {
    hide Observe;
    if keys != [] {
      var n := |keys| - 1;
      ObservedHead(v, entries, keys[..n]);
      ObserveKeepsHead(ObserveAll(v, entries, keys[..n]).value, keys[n], entries[keys[n]]);
    }
  }

  /** The shape the validator enforces on every entry it lets through. */
  predicate EntryShaped(scope: nat, revision: nat, key: Key, content: Content) {
    match key
    case MetadataKey => true
    case RecordKey(record) =>
      content.RecordContent? && content.value.id == RecordRef(scope, record)
        && content.value.ModifiedRevision() <= revision
    case VersionKey(record, at) =>
      content.RecordContent? && content.value.id == RecordRef(scope, record) && content.value.ModifiedRevision() == at
        && 1 <= at <= revision
    case PairKey(family, _, _) => family in {Outgoing, Incoming, Provenance, Reverse}
    case CurrentPolicyKey => content.PolicyContent? && content.policy.scope == scope
    case PolicyKey(at) => content.PolicyContent? && content.policy.scope == scope && 1 <= at <= revision
  }

  lemma ObservedIsShaped(v: State, key: Key, content: Content)
    requires WellSized(v) && Observe(v, key, content).Ok?
    ensures EntryShaped(v.scope, v.revision, key, content)
  {
  }

  ghost predicate AllShaped(root: Root) {
    forall key :: key in root.entries ==> EntryShaped(root.scope, root.revision, key, root.entries[key])
  }

  lemma ShapedPairs(root: Root)
    requires AllShaped(root)
    ensures PairsAreSecondary(root.entries)
  {
    forall key | key in root.entries && key.PairKey? ensures key.family in {Outgoing, Incoming, Provenance, Reverse} {
      assert EntryShaped(root.scope, root.revision, key, root.entries[key]);
    }
  }

  lemma {:induction false} FamilyShaped(v: State, entries: Entries, number: nat, key: Key)
    requires StreamFamily(v, entries, number).Ok? && key in FamilyKeys(entries, number)
    ensures EntryShaped(v.scope, v.revision, key, entries[key])
  {
    hide Observe, EntryShaped, KeyLess, FamilyKeys;
    var keys := SortedKeys(FamilyKeys(entries, number));
    assert key in keys;
    var k :| 0 <= k < |keys| && keys[k] == key;
    var w := ObservedAt(v, entries, keys, k);
    ObservedIsShaped(w, key, entries[key]);
  }

  lemma {:induction false} StreamKeepsHead(v: State, entries: Entries, number: nat)
    requires StreamFamily(v, entries, number).Ok?
    ensures var w := StreamFamily(v, entries, number).value;
      w.scope == v.scope && w.revision == v.revision && w.counts == v.counts
    ensures var w := StreamFamily(v, entries, number).value; w.nextFamily == v.nextFamily + 1 && v.nextFamily == number
  {
    hide Observe, ObserveAll, KeyLess, FamilyKeys;
    ObservedHead(v, entries, SortedKeys(FamilyKeys(entries, number)));
  }

  /** The validator's state at the start of family `number` of an accepted stream. */
  lemma {:induction false} StreamReaches(v: State, entries: Entries, from: nat, number: nat) returns (w: State)
    requires 1 <= from <= number <= FAMILY_COUNT && StreamFrom(v, entries, from).Ok?
    ensures StreamFamily(w, entries, number).Ok? && StreamFrom(w, entries, number) == StreamFrom(v, entries, from)
    ensures w.scope == v.scope && w.revision == v.revision && w.counts == v.counts
    decreases number - from
  {
    hide StreamFamily;
    if from == number {
      w := v;
    } else {
      var next := StreamFamily(v, entries, from).value;
      StreamKeepsHead(v, entries, from);
      w := StreamReaches(next, entries, from + 1, number);
    }
  }

  lemma {:induction false} StreamIsShaped(root: Root, counts: Counts)
    requires |counts| == SLOTS && StreamedDigest(root.scope, root.revision, counts, root.entries).Ok?
    ensures AllShaped(root)
  {
    hide StreamFrom, StreamFamily, EntryShaped;
    var v := New(root.scope, root.revision, counts).value;
    forall key | key in root.entries ensures EntryShaped(root.scope, root.revision, key, root.entries[key]) {
      var number := FamilyNumber(FamilyOf(key));
      var w := StreamReaches(v, root.entries, 1, number);
      FamilyShaped(w, root.entries, number, key);
    }
  }

  // History groups are counted once each

  function RecordsIn(keys: seq<Key>): set<nat> {
    set k | 0 <= k < |keys| && keys[k].VersionKey? :: keys[k].record
  }

  ghost predicate Grouped(keys: seq<Key>) {
    && (forall k :: 0 <= k < |keys| ==> keys[k].VersionKey?)
    && (forall i, j :: 0 <= i < j < |keys| ==> keys[i].record <= keys[j].record)
  }

  function Groups(v: State): nat {
    v.historyGroups + (if v.groupId.Some? then 1 else 0)
  }

  lemma RecordsSnoc(front: seq<Key>, last: Key)
    requires last.VersionKey?
    ensures RecordsIn(front + [last]) == RecordsIn(front) + {last.record}
  {
    var keys, n := front + [last], |front|;
    assert keys[n] == last && forall k :: 0 <= k < n ==> keys[k] == front[k];
    forall r | r in RecordsIn(front) ensures r in RecordsIn(keys) {
      var k :| 0 <= k < n && front[k].VersionKey? && front[k].record == r;
      assert keys[k].record == r;
    }
  }

  lemma {:induction false} RecordsStep(front: seq<Key>, last: Key)
    requires Grouped(front + [last]) && last.VersionKey?
    ensures Grouped(front)
    ensures |RecordsIn(front + [last])| == |RecordsIn(front)|
      + (if front != [] && front[|front| - 1].record == last.record then 0 else 1)
  {
    var keys, n := front + [last], |front|;
    assert forall k :: 0 <= k < n ==> keys[k] == front[k];
    assert keys[n] == last;
    RecordsSnoc(front, last);
    if n > 0 && front[n - 1].record == last.record {
      assert last.record in RecordsIn(front);
      assert RecordsIn(keys) == RecordsIn(front);
    } else {
      assert forall k :: 0 <= k < n ==> front[k].record < last.record;
      assert last.record !in RecordsIn(front);
    }
  }

  lemma {:induction false} GroupsCounted(v: State, entries: Entries, keys: seq<Key>)
    requires ObserveAll(v, entries, keys).Ok? && Grouped(keys) && v.groupId.None?
    ensures var w := ObserveAll(v, entries, keys).value;
      && Groups(w) == v.historyGroups + |RecordsIn(keys)|
      && (keys != [] ==> w.groupId == Some(keys[|keys| - 1].record))
      && (keys == [] ==> w == v)
    decreases |keys|
  {
    if keys == [] {
      assert RecordsIn(keys) == {};
    } else {
      hide Observe, RecordsIn;
      var n := |keys| - 1;
      var front, last := keys[..n], keys[n];
      assert keys == front + [last];
      RecordsStep(front, last);
      GroupsCounted(v, entries, front);
      GroupStep(ObserveAll(v, entries, front).value, last, entries[last]);
    }
  }

  lemma GroupStep(w: State, key: Key, content: Content)
    requires WellSized(w) && key.VersionKey? && Observe(w, key, content).Ok?
    ensures var u := Observe(w, key, content).value;
      u.groupId == Some(key.record) && Groups(u) == Groups(w) + (if w.groupId == Some(key.record) then 0 else 1)
  {
  }

  // The parts a root stores

  function StoredRecords(root: Root): map<RecordRef, Record> {
    map id | id in (set key | key in root.entries && key.RecordKey? :: RecordRef(root.scope, key.record))
             && root.entries[RecordKey(id.record)].RecordContent?
      :: root.entries[RecordKey(id.record)].value
  }

  function HistoryRecords(entries: Entries): set<nat> {
    set key | key in entries && key.VersionKey? :: key.record
  }

  /** The versions under one record's prefix, in key order. */
  ghost function StoredVersions(root: Root, record: nat): seq<Record> {
    var found := SortedRevisions(ScannedRevisions(root.entries, record));
    seq(|found|, i requires 0 <= i < |found| =>
      if VersionKey(record, found[i]) in root.entries && root.entries[VersionKey(record, found[i])].RecordContent?
      then root.entries[VersionKey(record, found[i])].value
      else Evidence(RecordRef(0, 0), 0, 0, "", 0))
  }

  ghost function StoredHistory(root: Root): map<RecordRef, seq<Record>> {
    map id | id in (set record | record in HistoryRecords(root.entries) :: RecordRef(root.scope, record)) ::
      StoredVersions(root, id.record)
  }

  function StoredPolicies(root: Root): map<nat, NamespacePolicy> {
    map at | at in (set key | key in root.entries && key.PolicyKey? :: key.revision)
      && root.entries[PolicyKey(at)].PolicyContent?
      :: root.entries[PolicyKey(at)].policy
  }

  function CurrentPolicy(root: Root): Option<NamespacePolicy> {
    if CurrentPolicyKey in root.entries && root.entries[CurrentPolicyKey].PolicyContent?
      then Some(root.entries[CurrentPolicyKey].policy) else None
  }

  ghost function PartsFrom(root: Root): Parts {
    Parts(root.scope, root.revision, StoredRecords(root), StoredHistory(root), CurrentPolicy(root),
      StoredPolicies(root))
  }

  lemma StoredRecordsLookup(root: Root, id: RecordRef)
    requires AllShaped(root)
    ensures Lookup(StoredRecords(root), id) ==
      if id.scope == root.scope && RecordKey(id.record) in root.entries
        then Some(root.entries[RecordKey(id.record)].value) else None
  {
    if RecordKey(id.record) in root.entries {
      assert EntryShaped(root.scope, root.revision, RecordKey(id.record), root.entries[RecordKey(id.record)]);
    }
  }

  lemma {:induction false} StoredVersionAt(root: Root, record: nat, i: nat)
    requires AllShaped(root) && i < |StoredVersions(root, record)|
    ensures var found := SortedRevisions(ScannedRevisions(root.entries, record));
      && |found| == |StoredVersions(root, record)| && VersionKey(record, found[i]) in root.entries
      && root.entries[VersionKey(record, found[i])] == RecordContent(StoredVersions(root, record)[i])
      && StoredVersions(root, record)[i].ModifiedRevision() == found[i]
      && StoredVersions(root, record)[i].id == RecordRef(root.scope, record)
      && 1 <= found[i] <= root.revision
  {
    var found := SortedRevisions(ScannedRevisions(root.entries, record));
    assert found[i] in ScannedRevisions(root.entries, record);
    var key :| key in root.entries && key.VersionKey? && key.record == record && key.revision == found[i];
    assert key == VersionKey(record, found[i]);
    assert EntryShaped(root.scope, root.revision, key, root.entries[key]);
  }

  lemma {:induction false} StoredVersionsChronological(root: Root, record: nat)
    requires AllShaped(root)
    ensures Chronological(StoredVersions(root, record))
  {
    var versions := StoredVersions(root, record);
    var found := SortedRevisions(ScannedRevisions(root.entries, record));
    forall i, j | 0 <= i < j < |versions| ensures versions[i].ModifiedRevision() < versions[j].ModifiedRevision() {
      StoredVersionAt(root, record, i);
      StoredVersionAt(root, record, j);
      assert Earlier(found[i], found[j]);
    }
  }

  lemma {:induction false} StoredVersionsLookup(root: Root, record: nat, at: nat)
    requires AllShaped(root)
    ensures RecordEntry(VersionAt(StoredVersions(root, record), at)) == Lookup(root.entries, VersionKey(record, at))
  {
    hide AllShaped, VersionAt;
    var versions := StoredVersions(root, record);
    var found := SortedRevisions(ScannedRevisions(root.entries, record));
    StoredVersionsChronological(root, record);
    if VersionKey(record, at) in root.entries {
      assert at in ScannedRevisions(root.entries, record);
      assert at in found;
      var i :| 0 <= i < |found| && found[i] == at;
      StoredVersionAt(root, record, i);
      VersionIsAt(versions, i);
    } else if VersionAt(versions, at).Some? {
      VersionAtIsListed(versions, at);
      var i :| 0 <= i < |versions| && versions[i].ModifiedRevision() == at;
      StoredVersionAt(root, record, i);
    }
  }

  // Lookups made while a root is admitted

  /** The predecessor scan under one record's prefix, up to `revision`. */
  function PredecessorRevision(entries: Entries, record: nat, revision: nat): (found: Option<nat>)
    ensures found.Some? ==> VersionKey(record, found.value) in entries && found.value <= revision
    ensures forall r: nat :: r <= revision && (found.Some? ==> found.value < r) ==> VersionKey(record, r) !in entries
  {
    if VersionKey(record, revision) in entries then Some(revision)
    else if revision == 0 then None
    else PredecessorRevision(entries, record, revision - 1)
  }

  /** `None` when a stored version does not belong to the requested record. */
  function HistoricalLookup(root: Root, target: RecordRef, revision: nat): Option<Option<Record>> {
    match PredecessorRevision(root.entries, target.record, revision)
    case None => Some(None)
    case Some(at) =>
      var content := root.entries[VersionKey(target.record, at)];
      if content.RecordContent? && content.value.id == target && content.value.ModifiedRevision() == at
        && 1 <= at <= root.revision
      then Some(Some(content.value)) else None
  }

  lemma StoredVersionsOf(root: Root, id: RecordRef)
    requires id.scope == root.scope
    ensures VersionsOf(StoredHistory(root), id) == StoredVersions(root, id.record)
  {
    if id.record !in HistoryRecords(root.entries) {
      assert ScannedRevisions(root.entries, id.record) == {};
      assert StoredVersions(root, id.record) == [];
    }
  }

  /** The versions no later than the predecessor are exactly those no later than the revision. */
  lemma {:induction false} PredecessorCuts(root: Root, record: nat, revision: nat) returns (cut: nat)
    requires AllShaped(root)
    ensures cut <= |StoredVersions(root, record)|
    ensures forall i :: 0 <= i < cut ==> StoredVersions(root, record)[i].ModifiedRevision() <= revision
    ensures forall i :: cut <= i < |StoredVersions(root, record)| ==>
      StoredVersions(root, record)[i].ModifiedRevision() > revision
    ensures cut == 0 <==> PredecessorRevision(root.entries, record, revision).None?
    ensures cut > 0 ==>
      PredecessorRevision(root.entries, record, revision)
      == Some(StoredVersions(root, record)[cut - 1].ModifiedRevision())
  {
    hide AllShaped, StoredVersions, PredecessorRevision;
    var versions := StoredVersions(root, record);
    var found := SortedRevisions(ScannedRevisions(root.entries, record));
    StoredCount(root, record);
    StoredVersionsChronological(root, record);
    var at := PredecessorRevision(root.entries, record, revision);
    forall i | 0 <= i < |versions|
      ensures VersionKey(record, versions[i].ModifiedRevision()) in root.entries
        && versions[i].ModifiedRevision() == found[i]
    {
      StoredVersionAt(root, record, i);
    }
    cut := 0;
    if at.Some? {
      assert at.value in ScannedRevisions(root.entries, record);
      assert at.value in found;
      var i :| 0 <= i < |found| && found[i] == at.value;
      cut := i + 1;
    }
  }

  /** A predecessor scan finds exactly the version that was current at the revision. */
  lemma {:induction false} PredecessorIsRecordAt(root: Root, target: RecordRef, revision: nat)
    requires AllShaped(root) && target.scope == root.scope
    ensures HistoricalLookup(root, target, revision) == Some(RecordAt(StoredHistory(root), target, revision))
  {
    hide AllShaped, LastAt, StoredVersions, StoredHistory, PredecessorRevision, Chronological;
    StoredVersionsOf(root, target);
    NothingAt(revision);
    var cut := PredecessorCuts(root, target.record, revision);
    LastAtCut(StoredVersions(root, target.record), revision, cut);
    if cut > 0 {
      StoredVersionAt(root, target.record, cut - 1);
    }
  }

  lemma StoredCount(root: Root, record: nat)
    ensures |StoredVersions(root, record)| == |SortedRevisions(ScannedRevisions(root.entries, record))|
  {
  }

  lemma NothingAt(revision: nat)
    ensures LastAt([], revision) == None
  {
  }

  // The checks of one history group

  predicate FoundAt(root: Root, q: Requirement) {
    var found := HistoricalLookup(root, q.target, q.revision);
    found.Some? && RequirementMatches(q.kind, found.value)
  }

  predicate FoundNow(root: Root, q: Requirement) {
    var found := StoredRecord(root, q.target);
    found.Ok? && RequirementMatches(q.kind, found.value)
  }

  /** `visit_current_reference_requirements`. */
  function CurrentRequirements(r: Record, revision: nat): seq<Requirement> {
    match r
    case Entity(_, _, active, _, _, properties, _, _) =>
      if active then Require(ValueReferences(properties), revision, AnyVisible) else []
    case Evidence(_, _, _, _, _) => []
    case Claim(_, _, body, evidence, _, _, correctionOf, _, _) =>
      Require(evidence, revision, EvidenceOnly)
      + (if r.IsLiveClaim()
        then Require(body.Endpoints(), revision, ActiveEntity)
        + Require(ValueReferences(body.Payload()), revision, AnyVisible) else [])
      + (if correctionOf.Some? then [Requirement(correctionOf.value, revision, AnyClaim(body.Kind()))] else [])
  }

  predicate AllFoundAt(root: Root, qs: seq<Requirement>) {
    forall i :: 0 <= i < |qs| ==> FoundAt(root, qs[i])
  }

  predicate AllFoundNow(root: Root, qs: seq<Requirement>) {
    forall i :: 0 <= i < |qs| ==> FoundNow(root, qs[i])
  }

  /** What `HistoryAdmissionGroup` and its finish demand of one record's versions. */
  ghost predicate GroupAdmitted(root: Root, record: nat) {
    var versions := StoredVersions(root, record);
    && (forall k :: 0 <= k < |versions| ==>
       versions[k].id == RecordRef(root.scope, record) && versions[k].version == k + 1)
    && RecordHistoryAccepted(root.scope, versions)
    && FirstRequirements(versions[0]).Some? && AllFoundAt(root, FirstRequirements(versions[0]).value)
    && (forall k :: 0 < k < |versions| ==> AllFoundAt(root, SuccessorRequirements(versions[k])))
    && StoredRecord(root, RecordRef(root.scope, record)) == Ok(Some(versions[|versions| - 1]))
    && AllFoundNow(root, CurrentRequirements(versions[|versions| - 1], root.revision))
  }

  lemma {:induction false} FoundIsSatisfied(root: Root, q: Requirement)
    requires AllShaped(root)
    ensures FoundAt(root, q) <==> Satisfied(StoredHistory(root), q)
  {
    hide StoredVersions, LastAt;
    if q.target.scope == root.scope {
      hide AllShaped;
      PredecessorIsRecordAt(root, q.target, q.revision);
    }
  }

  lemma FoundNowIsCurrent(root: Root, q: Requirement)
    requires AllShaped(root)
    ensures FoundNow(root, q) <==> RequirementMatches(q.kind, Lookup(StoredRecords(root), q.target))
  {
    hide StoredRecords;
    StoredRecordsLookup(root, q.target);
    if RecordKey(q.target.record) in root.entries {
      assert EntryShaped(root.scope, root.revision, RecordKey(q.target.record),
        root.entries[RecordKey(q.target.record)]);
    }
  }

  lemma AllFoundIsSatisfied(root: Root, qs: seq<Requirement>)
    requires AllShaped(root)
    ensures AllFoundAt(root, qs) <==> AllSatisfied(StoredHistory(root), qs)
  {
    hide AllShaped, FoundAt, Satisfied, StoredHistory;
    forall i | 0 <= i < |qs|
      ensures FoundAt(root, qs[i]) <==> Satisfied(StoredHistory(root), qs[i])
    {
      FoundIsSatisfied(root, qs[i]);
    }
  }

  // Current requirements are exactly referential integrity

  ghost predicate Holds(records: map<RecordRef, Record>, qs: seq<Requirement>) {
    forall i :: 0 <= i < |qs| ==> RequirementMatches(qs[i].kind, Lookup(records, qs[i].target))
  }

  lemma HoldsConcat(records: map<RecordRef, Record>, a: seq<Requirement>, b: seq<Requirement>)
    ensures Holds(records, a + b) <==> Holds(records, a) && Holds(records, b)
  {
    hide RequirementMatches;
    forall i | 0 <= i < |a| ensures (a + b)[i] == a[i] {}
    forall i | 0 <= i < |b| ensures (a + b)[|a| + i] == b[i] {}
  }

  lemma {:induction false} RequireHolds(records: map<RecordRef, Record>, ids: seq<RecordRef>, revision: nat)
    ensures Holds(records, Require(ids, revision, AnyVisible)) <==> AllVisible(records, ids)
    ensures Holds(records, Require(ids, revision, ActiveEntity)) <==> AllActive(records, ids)
    ensures Holds(records, Require(ids, revision, EvidenceOnly)) <==> AllEvidence(records, ids)
  {
    RequireKind(records, ids, revision, AnyVisible);
    RequireKind(records, ids, revision, ActiveEntity);
    RequireKind(records, ids, revision, EvidenceOnly);
    hide Holds;
  }

  lemma {:induction false} RequireKind(records: map<RecordRef, Record>, ids: seq<RecordRef>, revision: nat,
      kind: RequiredKind)
    ensures Holds(records, Require(ids, revision, kind))
      <==> forall id :: id in ids ==> RequirementMatches(kind, Lookup(records, id))
  {
    hide RequirementMatches;
    var qs := Require(ids, revision, kind);
    if Holds(records, qs) {
      forall id | id in ids ensures RequirementMatches(kind, Lookup(records, id)) {
        var i :| 0 <= i < |ids| && ids[i] == id;
        assert qs[i] == Requirement(id, revision, kind);
      }
    }
    if forall id :: id in ids ==> RequirementMatches(kind, Lookup(records, id)) {
      forall i | 0 <= i < |qs|
        ensures RequirementMatches(qs[i].kind, Lookup(records, qs[i].target))
      {
        assert ids[i] in ids;
      }
    }
  }

  lemma {:induction false} CurrentRequirementsMeaning(records: map<RecordRef, Record>, r: Record, revision: nat)
    ensures Holds(records, CurrentRequirements(r, revision)) <==> ReferencesHold(r, records)
  {
    hide Holds, AllVisible, AllActive, AllEvidence, RequirementMatches;
    NothingHolds(records);
    match r
    case Entity(_, _, _, _, _, properties, _, _) => RequireHolds(records, ValueReferences(properties), revision);
    case Evidence(_, _, _, _, _) =>
    case Claim(_, _, body, evidence, _, _, correctionOf, _, _) =>
      RequireHolds(records, evidence, revision);
      RequireHolds(records, body.Endpoints(), revision);
      RequireHolds(records, ValueReferences(body.Payload()), revision);
      var support, endpoints, payload := Require(evidence, revision, EvidenceOnly),
        Require(body.Endpoints(), revision, ActiveEntity),
        Require(ValueReferences(body.Payload()), revision, AnyVisible);
      var live := if r.IsLiveClaim() then endpoints + payload else [];
      var correction := if correctionOf.Some? then [Requirement(correctionOf.value, revision, AnyClaim(body.Kind()))]
        else [];
      HoldsConcat(records, endpoints, payload);
      HoldsConcat(records, support, live);
      HoldsConcat(records, support + live, correction);
      if correctionOf.Some? { OneHolds(records, correction[0]); }
  }

  lemma NothingHolds(records: map<RecordRef, Record>)
    ensures Holds(records, [])
  {
  }

  lemma OneHolds(records: map<RecordRef, Record>, q: Requirement)
    ensures Holds(records, [q]) <==> RequirementMatches(q.kind, Lookup(records, q.target))
    ensures q.kind.AnyClaim? ==>
      (Holds(records, [q]) <==> q.target in records && records[q.target].IsClaim(q.kind.kind))
  {
    assert [q][0] == q;
  }

  lemma AllFoundNowHolds(root: Root, qs: seq<Requirement>)
    requires AllShaped(root)
    ensures AllFoundNow(root, qs) <==> Holds(StoredRecords(root), qs)
  {
    hide AllShaped, FoundNow, RequirementMatches, StoredRecords;
    forall i | 0 <= i < |qs|
      ensures FoundNow(root, qs[i]) <==> RequirementMatches(qs[i].kind, Lookup(StoredRecords(root), qs[i].target))
    {
      FoundNowIsCurrent(root, qs[i]);
    }
  }

  // Secondary entries

  /** `validate_secondary_entry`: the owner's current version contributes exactly this entry. */
  predicate Contributes(root: Root, key: Key)
    requires key in root.entries && key.PairKey?
  {
    var owner := StoredRecord(root, RecordRef(root.scope, key.right));
    owner.Ok? && owner.value.Some? && OwnedAt(owner.value.value, key) == Some(root.entries[key])
  }

  /** `record_secondary_counts`: links, evidence as listed, and distinct targets. */
  function SecondaryCount(r: Record, slot: nat): nat {
    if slot == 2 || slot == 3 then if r.IsClaim(RelationshipKind) && r.status == Accepted then 1 else 0
    else if slot == 4 then if r.Claim? then |r.evidence| else 0
    else if slot == 5 then |set m | m in RecordMentions(r) :: m.target|
    else 0
  }

  function DerivedCount(records: map<RecordRef, Record>, ids: seq<RecordRef>, slot: nat): nat
    requires forall id :: id in ids ==> id in records
  {
    if ids == [] then 0
      else DerivedCount(records, ids[..|ids| - 1], slot) + SecondaryCount(records[ids[|ids| - 1]], slot)
  }

  function OwnSlot(r: Record, slot: nat): set<Key> {
    set key | key in OwnKeys(r) && SlotOf(key) == slot
  }

  lemma LinkKey(r: Record, key: Key)
    ensures key in OwnSlot(r, 2)
      <==> r.IsClaim(RelationshipKind) && r.status == Accepted
           && key == PairKey(Outgoing, r.body.from.record, r.id.record)
    ensures key in OwnSlot(r, 3)
      <==> r.IsClaim(RelationshipKind) && r.status == Accepted
           && key == PairKey(Incoming, r.body.to.record, r.id.record)
  {
    hide ReverseOf, ProvenanceOf;
    if r.IsClaim(RelationshipKind) && r.status == Accepted {
      assert r.body.from in OutgoingOf(r) && r.body.to in IncomingOf(r);
    }
  }

  lemma {:induction false} LinkSlots(r: Record)
    ensures |OwnSlot(r, 2)| == SecondaryCount(r, 2) && |OwnSlot(r, 3)| == SecondaryCount(r, 3)
  {
    hide OwnSlot;
    forall key ensures key in OwnSlot(r, 2)
      <==> r.IsClaim(RelationshipKind) && r.status == Accepted
           && key == PairKey(Outgoing, r.body.from.record, r.id.record)
      ensures key in OwnSlot(r, 3)
        <==> r.IsClaim(RelationshipKind) && r.status == Accepted
             && key == PairKey(Incoming, r.body.to.record, r.id.record)
    {
      LinkKey(r, key);
    }
    if r.IsClaim(RelationshipKind) && r.status == Accepted {
      assert OwnSlot(r, 2) == {PairKey(Outgoing, r.body.from.record, r.id.record)};
      assert OwnSlot(r, 3) == {PairKey(Incoming, r.body.to.record, r.id.record)};
    } else {
      assert OwnSlot(r, 2) == {} && OwnSlot(r, 3) == {};
    }
  }

  lemma {:induction false} EvidenceSlot(scope: nat, r: Record)
    requires HistoricalShape(scope, r)
    ensures |OwnSlot(r, 4)| == SecondaryCount(r, 4)
  {
    hide ReverseOf, OutgoingOf, IncomingOf;
    var f := (e: RecordRef) => PairKey(Provenance, e.record, r.id.record);
    var g := (k: Key) => if k.PairKey? then RecordRef(scope, k.left) else RecordRef(0, 0);
    var source := ProvenanceOf(r).Keys;
    forall e | e in source ensures f(e) in OwnSlot(r, 4) && g(f(e)) == e {}
    forall k | k in OwnSlot(r, 4) ensures g(k) in source && f(g(k)) == k {}
    BijectionSize(source, OwnSlot(r, 4), f, g);
    if r.Claim? {
      assert source == set e | e in r.evidence;
      DistinctSize(r.evidence);
    }
  }

  lemma {:induction false} DistinctSize(ids: seq<RecordRef>)
    requires Distinct(ids)
    ensures |set id | id in ids| == |ids|
  {
    if ids == [] {
      assert (set id | id in ids) == {};
    } else {
      var front, last := ids[..|ids| - 1], ids[|ids| - 1];
      DistinctSize(front);
      assert last !in front;
      assert (set id | id in ids) == (set id | id in front) + {last};
    }
  }

  lemma {:induction false} TargetKey(scope: nat, r: Record, key: Key)
    requires HistoricalShape(scope, r)
    ensures key in OwnSlot(r, 5)
      <==> key.PairKey? && key.family == Reverse && key.right == r.id.record
           && RecordRef(scope, key.left) in ReverseOf(r)
  {
    hide OutgoingOf, IncomingOf, ProvenanceOf, HistoricalShape, ReverseOf;
    if key in OwnSlot(r, 5) {
      var t :| t in ReverseOf(r) && key == PairKey(Reverse, t.record, r.id.record);
      MentionsInScope(scope, r, t);
    }
  }

  lemma {:induction false} TargetSlot(scope: nat, r: Record)
    requires HistoricalShape(scope, r)
    ensures |OwnSlot(r, 5)| == SecondaryCount(r, 5)
  {
    hide HistoricalShape, OwnSlot;
    var f := (t: RecordRef) => PairKey(Reverse, t.record, r.id.record);
    var g := (k: Key) => if k.PairKey? then RecordRef(scope, k.left) else RecordRef(0, 0);
    var source := ReverseOf(r).Keys;
    assert source == set m | m in RecordMentions(r) :: m.target;
    hide ReverseOf, RecordMentions;
    forall t | t in source
      ensures f(t) in OwnSlot(r, 5) && g(f(t)) == t
    {
      MentionsInScope(scope, r, t);
      TargetKey(scope, r, f(t));
    }
    forall k | k in OwnSlot(r, 5) ensures g(k) in source && f(g(k)) == k { TargetKey(scope, r, k); }
    BijectionSize(source, OwnSlot(r, 5), f, g);
  }

  lemma {:induction false} SlotCount(scope: nat, r: Record, slot: nat)
    requires HistoricalShape(scope, r) && 2 <= slot <= 5
    ensures |OwnSlot(r, slot)| == SecondaryCount(r, slot)
  {
    hide OwnSlot, SecondaryCount, HistoricalShape;
    if slot <= 3 { LinkSlots(r); } else if slot == 4 { EvidenceSlot(scope, r); } else { TargetSlot(scope, r); }
  }

  /** All keys of one slot that the listed records own. */
  function OwnedIn(records: map<RecordRef, Record>, ids: seq<RecordRef>, slot: nat): set<Key> {
    set id, key | id in ids && id in records && key in OwnSlot(records[id], slot) :: key
  }

  lemma {:induction false} OwnedSize(scope: nat, records: map<RecordRef, Record>, ids: seq<RecordRef>, slot: nat)
    requires (forall id :: id in ids ==>
      id in records && id.scope == scope && records[id].id == id && HistoricalShape(scope, records[id]))
    requires Distinct(ids) && 2 <= slot <= 5
    ensures |OwnedIn(records, ids, slot)| == DerivedCount(records, ids, slot)
  {
    hide OwnSlot, SecondaryCount, HistoricalShape;
    if ids == [] {
      assert OwnedIn(records, ids, slot) == {};
    } else {
      var front, last := ids[..|ids| - 1], ids[|ids| - 1];
      OwnedSize(scope, records, front, slot);
      SlotCount(scope, records[last], slot);
      assert last !in front;
      forall key
        ensures key in OwnedIn(records, ids, slot)
          <==> key in OwnedIn(records, front, slot) || key in OwnSlot(records[last], slot)
      {
        assert ids == front + [last];
      }
      forall key | key in OwnSlot(records[last], slot) ensures key !in OwnedIn(records, front, slot) {
        SlotOwner(records[last], slot, key);
        if id :| id in front && key in OwnSlot(records[id], slot) { SlotOwner(records[id], slot, key); }
      }
      assert OwnedIn(records, ids, slot) == OwnedIn(records, front, slot) + OwnSlot(records[last], slot);
    }
  }

  lemma SlotOwner(r: Record, slot: nat, key: Key)
    requires key in OwnSlot(r, slot) && 2 <= slot <= 5
    ensures key.PairKey? && key.right == r.id.record
  {
    hide OutgoingOf, IncomingOf, ProvenanceOf, ReverseOf;
  }

  // Admission and reconstruction

  /** The count relations a candidate's metadata must satisfy. */
  predicate CountsShaped(counts: Counts) {
    && |counts| == SLOTS
    && counts[7] <= 1 && (counts[6] != 0 ==> counts[7] == 1) && counts[1] >= counts[0]
    && (counts[0] == 0 ==> counts[1] == counts[2] == counts[3] == counts[4] == counts[5] == 0)
  }

  /** Every family holds exactly as many entries as the metadata says. */
  predicate FamiliesSized(root: Root, counts: Counts)
    requires |counts| == SLOTS
  {
    forall number :: 1 <= number <= 8 ==>
      TargetFamilyEntries(counts, number) == Some(|FamilyKeys(root.entries, number)|)
  }

  ghost predicate DerivedMatch(records: map<RecordRef, Record>, counts: Counts)
    requires |counts| == SLOTS
  {
    forall slot :: 2 <= slot <= 5 ==> DerivedCount(records, Sorted(records.Keys), slot) == counts[slot]
  }

  ghost predicate PoliciesOrdered(root: Root) {
    var policies := StoredPolicies(root);
    var revisions := SortedRevisions(policies.Keys);
    PoliciesAccepted(root.scope, root.revision, revisions, policies, None)
      && LastPolicy(revisions, policies) == CurrentPolicy(root)
  }

  /** Everything `admit_graph_disk_base` checks before it trusts a root. */
  ghost predicate Admitted(root: Root, digest: seq<Token>) {
    && StoredCounts(root).Ok? && CountsShaped(StoredCounts(root).value) && FamiliesSized(root, StoredCounts(root).value)
    && StreamedDigest(root.scope, root.revision, StoredCounts(root).value, root.entries) == Ok(digest)
    && DerivedMatch(StoredRecords(root), StoredCounts(root).value)
    && (forall record :: record in HistoryRecords(root.entries) ==> GroupAdmitted(root, record))
    && (forall key :: key in root.entries && key.PairKey? ==> Contributes(root, key))
    && PoliciesOrdered(root)
  }

  ghost predicate SameEntryAt(root: Root, s: Snapshot, key: Key) {
    Lookup(root.entries, key) == EntryAt(s, key)
  }

  /** `reconstruct_with_reader`: materialise the parts, restore the state,
      and compare it with the root entry by entry. */
  ghost function Reconstruct(root: Root, digest: seq<Token>): Result<Snapshot, DiskError> {
    if !(StoredCounts(root).Ok? && CountsShaped(StoredCounts(root).value)
      && FamiliesSized(root, StoredCounts(root).value) && AllShaped(root))
    then Err(CorruptIndex)
    else if FromPersistedParts(PartsFrom(root)).Err? || !DerivedMatch(StoredRecords(root), StoredCounts(root).value)
      then Err(CorruptIndex)
    else
      var s := FromPersistedParts(PartsFrom(root)).value;
      if !(forall key: Key :: key.PairKey? ==> SameEntryAt(root, s, key)) then Err(CorruptIndex)
      else if digest != DigestTokens(s) || root.entries != EntriesOf(s) then Err(RootStateMismatch)
      else Ok(s)
  }

  // Current records and histories correspond one to one

  lemma {:induction false} HistoryGroupsAreCounted(root: Root, counts: Counts)
    requires |counts| == SLOTS && StreamedDigest(root.scope, root.revision, counts, root.entries).Ok?
    ensures |HistoryRecords(root.entries)| == counts[0]
  {
    hide StreamFrom, AllShaped, KeyLess, FamilyKeys, Observe, ObserveAll, PairsAreSecondary;
    StreamIsShaped(root, counts);
    ShapedPairs(root);
    var start := New(root.scope, root.revision, counts).value;
    var v := StreamFrom3(root, start);
    var keys := SortedKeys(FamilyKeys(root.entries, 3));
    VersionKeysGrouped(root.entries);
    GroupsCounted(v, root.entries, keys);
    ObservedHead(v, root.entries, keys);
    HistoryRecordsAreKeys(root.entries);
  }

  lemma {:induction false} StreamFrom3(root: Root, start: State) returns (v: State)
    requires StreamFrom(start, root.entries, 1).Ok? && start.groupId.None? && start.historyGroups == 0
    ensures StreamFamily(v, root.entries, 3).Ok? && v.groupId.None? && v.historyGroups == 0 && v.counts == start.counts
  {
    hide FamilyKeys, KeyLess;
    var one := StreamFamily(start, root.entries, 1).value;
    StreamKeepsHead(start, root.entries, 1);
    v := StreamFamily(one, root.entries, 2).value;
    StreamKeepsHead(one, root.entries, 2);
    assert StreamFrom(v, root.entries, 3).Ok?;
    EarlyKeepsGroups(start, root.entries, 1);
    EarlyKeepsGroups(one, root.entries, 2);
  }

  lemma {:induction false} EarlyKeepsGroups(v: State, entries: Entries, number: nat)
    requires StreamFamily(v, entries, number).Ok? && number <= 2
    ensures var w := StreamFamily(v, entries, number).value;
      w.groupId == v.groupId && w.historyGroups == v.historyGroups
  {
    hide FamilyKeys, KeyLess, Observe;
    StreamKeepsHead(v, entries, number);
    EarlyObserve(v, entries, SortedKeys(FamilyKeys(entries, number)));
  }

  lemma {:induction false} EarlyObserve(v: State, entries: Entries, keys: seq<Key>)
    requires ObserveAll(v, entries, keys).Ok? && v.nextFamily <= 2
    ensures var w := ObserveAll(v, entries, keys).value; w.groupId == v.groupId && w.historyGroups == v.historyGroups
    decreases |keys|
  {
    if keys != [] {
      var n := |keys| - 1;
      EarlyObserve(v, entries, keys[..n]);
      ObservedHead(v, entries, keys[..n]);
    }
  }

  lemma {:induction false} VersionKeysGrouped(entries: Entries)
    requires PairsAreSecondary(entries)
    ensures Grouped(SortedKeys(FamilyKeys(entries, 3)))
  {
    var keys := SortedKeys(FamilyKeys(entries, 3));
    forall k | 0 <= k < |keys| ensures keys[k].VersionKey? { assert keys[k] in FamilyKeys(entries, 3); }
    forall i, j | 0 <= i < j < |keys| ensures keys[i].record <= keys[j].record { assert KeyLess(keys[i], keys[j]); }
  }

  lemma {:induction false} HistoryRecordsAreKeys(entries: Entries)
    requires PairsAreSecondary(entries)
    ensures HistoryRecords(entries) == RecordsIn(SortedKeys(FamilyKeys(entries, 3)))
  {
    hide KeyLess, Increasing;
    var keys := SortedKeys(FamilyKeys(entries, 3));
    forall r | r in HistoryRecords(entries) ensures r in RecordsIn(keys) {
      var key :| key in entries && key.VersionKey? && key.record == r;
      assert key in FamilyKeys(entries, 3);
      assert key in keys;
      var k :| 0 <= k < |keys| && keys[k] == key;
    }
    forall r | r in RecordsIn(keys) ensures r in HistoryRecords(entries) {
      var k :| 0 <= k < |keys| && keys[k].VersionKey? && keys[k].record == r;
      assert keys[k] in FamilyKeys(entries, 3);
    }
  }

  /** One admitted group is an accepted, closed history ending in a current record whose references hold. */
  lemma {:induction false} GroupIsAccepted(root: Root, record: nat)
    requires AllShaped(root) && GroupAdmitted(root, record)
    ensures var id, versions := RecordRef(root.scope, record), StoredVersions(root, record);
      && versions != [] && HistoryAccepted(root.scope, root.revision, id, versions) && Dated(versions)
      && Lookup(StoredRecords(root), id) == Some(versions[|versions| - 1])
      && VersionsClosed(StoredHistory(root), versions)
      && ReferencesHold(versions[|versions| - 1], StoredRecords(root))
  {
    hide FirstAccepted, SuccessorAccepted, AllFoundAt, AllFoundNow, FirstRequirements, SuccessorRequirements,
         CurrentRequirements, AllSatisfied;
    hide StoredVersions, StoredHistory, StoredRecords, ReferencesHold, Holds;
    var id, versions := RecordRef(root.scope, record), StoredVersions(root, record);
    forall k | 0 <= k < |versions|
      ensures VersionAccepted(id, versions, k, root.revision) && versions[k].ModifiedRevision() >= 1
    {
      StoredVersionAt(root, record, k);
      StoredVersionsChronological(root, record);
    }
    AllFoundIsSatisfied(root, FirstRequirements(versions[0]).value);
    forall k | 0 < k < |versions| ensures AllSatisfied(StoredHistory(root), SuccessorRequirements(versions[k])) {
      AllFoundIsSatisfied(root, SuccessorRequirements(versions[k]));
    }
    StoredRecordsLookup(root, id);
    AllFoundNowHolds(root, CurrentRequirements(versions[|versions| - 1], root.revision));
    CurrentRequirementsMeaning(StoredRecords(root), versions[|versions| - 1], root.revision);
  }

  lemma {:induction false} AdmittedIsShaped(root: Root, digest: seq<Token>)
    requires Admitted(root, digest)
    ensures AllShaped(root)
  {
    hide StreamedDigest, GroupAdmitted, Contributes, AllShaped, DerivedMatch, PoliciesOrdered, FamiliesSized;
    StreamIsShaped(root, StoredCounts(root).value);
  }

  lemma {:induction false} CurrentRecordCount(root: Root, counts: Counts)
    requires AllShaped(root) && |counts| == SLOTS && FamiliesSized(root, counts)
    ensures |StoredRecords(root)| == counts[0]
  {
    hide AllShaped, StoredRecords;
    ShapedPairs(root);
    var f := (id: RecordRef) => RecordKey(id.record);
    var g := (k: Key) => if k.RecordKey? then RecordRef(root.scope, k.record) else RecordRef(0, 0);
    var keys := FamilyKeys(root.entries, 2);
    forall id | id in StoredRecords(root).Keys
      ensures f(id) in keys && g(f(id)) == id
    {
      StoredRecordsLookup(root, id);
    }
    forall k | k in keys ensures g(k) in StoredRecords(root).Keys && f(g(k)) == k { StoredRecordsLookup(root, g(k)); }
    BijectionSize(StoredRecords(root).Keys, keys, f, g);
    assert TargetFamilyEntries(counts, 2) == Some(|keys|);
  }

  /** Counted groups plus terminal equality force a bijection between current records and histories. */
  lemma {:induction false} RecordsAndHistoriesCorrespond(root: Root, digest: seq<Token>)
    requires AllShaped(root) && Admitted(root, digest)
    ensures StoredRecords(root).Keys == StoredHistory(root).Keys
  {
    hide StreamedDigest, GroupAdmitted, Contributes, AllShaped, DerivedMatch, PoliciesOrdered, FamiliesSized,
         StoredRecords, StoredVersions, HistoryAccepted, VersionsClosed, ReferencesHold;
    var counts := StoredCounts(root).value;
    HistoryGroupsAreCounted(root, counts);
    CurrentRecordCount(root, counts);
    var ids := StoredHistory(root).Keys;
    forall id | id in ids ensures id in StoredRecords(root).Keys {
      assert id.record in HistoryRecords(root.entries) && id.scope == root.scope;
      GroupIsAccepted(root, id.record);
    }
    HistoryKeyCount(root);
    assert |StoredRecords(root).Keys| == |StoredRecords(root)|;
    SubsetOfSameSize(ids, StoredRecords(root).Keys);
  }

  lemma {:induction false} HistoryKeyCount(root: Root)
    ensures |StoredHistory(root).Keys| == |HistoryRecords(root.entries)|
  {
    hide StoredVersions;
    var f := (r: nat) => RecordRef(root.scope, r);
    var g := (id: RecordRef) => id.record;
    BijectionSize<nat, RecordRef>(HistoryRecords(root.entries), StoredHistory(root).Keys, f, g);
  }

  /** What is known of one stored history of an admitted root. */
  ghost predicate SoundHistory(root: Root, id: RecordRef)
    requires id in StoredHistory(root)
  {
    var versions := StoredHistory(root)[id];
    && versions != [] && HistoryAccepted(root.scope, root.revision, id, versions) && Dated(versions)
    && Lookup(StoredRecords(root), id) == Some(versions[|versions| - 1])
    && VersionsClosed(StoredHistory(root), versions)
    && ReferencesHold(versions[|versions| - 1], StoredRecords(root))
  }

  lemma {:induction false} AdmittedHistory(root: Root, digest: seq<Token>, id: RecordRef)
    requires AllShaped(root) && Admitted(root, digest) && id in StoredHistory(root)
    ensures SoundHistory(root, id)
  {
    hide StreamedDigest, GroupAdmitted, Contributes, AllShaped, DerivedMatch, PoliciesOrdered, FamiliesSized,
         StoredRecords, StoredVersions, HistoryAccepted, VersionsClosed, ReferencesHold;
    assert id.record in HistoryRecords(root.entries) && id.scope == root.scope;
    GroupIsAccepted(root, id.record);
  }

  ghost predicate RecordShaped(p: Parts, id: RecordRef)
    requires id in p.records
  {
    p.records[id].id == id && p.records[id].ModifiedRevision() <= p.revision
  }

  lemma AcceptParts(p: Parts)
    requires p.records.Keys == p.history.Keys
    requires forall id :: id in p.records ==> RecordShaped(p, id)
    requires forall id :: id in p.history ==> PartAccepted(p, id)
    ensures RecordPartsAccepted(p)
  {
    hide HistoryAccepted, VersionsClosed;
    SameSorted(p.records.Keys, p.history.Keys);
    assert forall id :: id in p.records ==> RecordShaped(p, id);
    assert forall id :: id in p.history ==> PartAccepted(p, id);
  }

  /** What restore demands of the record families holds of every admitted root. */
  lemma {:induction false} AdmittedRecordParts(root: Root, digest: seq<Token>)
    requires AllShaped(root) && Admitted(root, digest)
    ensures RecordPartsAccepted(PartsFrom(root)) && WellDatedHistory(PartsFrom(root))
  {
    hide Admitted, AllShaped, StoredRecords, StoredHistory, HistoryAccepted, VersionsClosed, ReferencesHold,
         StoredPolicies, CurrentPolicy, RecordPartsAccepted;
    var p := PartsFrom(root);
    RecordsAndHistoriesCorrespond(root, digest);
    forall id | id in p.history
      ensures PartAccepted(p, id) && Dated(p.history[id])
    {
      AdmittedHistory(root, digest, id);
    }
    forall id | id in p.records ensures RecordShaped(p, id) { StoredShape(root, id); }
    AcceptParts(p);
  }

  lemma {:induction false} AdmittedReferences(root: Root, digest: seq<Token>)
    requires AllShaped(root) && Admitted(root, digest)
    ensures AllReferencesHold(StoredRecords(root))
  {
    hide Admitted, AllShaped, StoredRecords, StoredHistory, HistoryAccepted, VersionsClosed, ReferencesHold;
    RecordsAndHistoriesCorrespond(root, digest);
    forall id | id in StoredRecords(root) ensures ReferencesHold(StoredRecords(root)[id], StoredRecords(root)) {
      AdmittedHistory(root, digest, id);
    }
  }

  ghost predicate WellDatedHistory(p: Parts) {
    forall id :: id in p.history ==> Dated(p.history[id])
  }

  ghost predicate AllReferencesHold(records: map<RecordRef, Record>) {
    forall id :: id in records ==> ReferencesHold(records[id], records)
  }

  lemma StoredShape(root: Root, id: RecordRef)
    requires AllShaped(root) && id in StoredRecords(root)
    ensures StoredRecords(root)[id].id == id && StoredRecords(root)[id].ModifiedRevision() <= root.revision
      && id.scope == root.scope
  {
    hide StoredRecords;
    StoredRecordsLookup(root, id);
    assert EntryShaped(root.scope, root.revision, RecordKey(id.record), root.entries[RecordKey(id.record)]);
  }

  // The reconstructed state

  lemma StoredPoliciesLookup(root: Root, at: nat)
    requires AllShaped(root)
    ensures PolicyEntry(Lookup(StoredPolicies(root), at)) == Lookup(root.entries, PolicyKey(at))
    ensures at in StoredPolicies(root) ==> 1 <= at <= root.revision && StoredPolicies(root)[at].scope == root.scope
  {
    if PolicyKey(at) in root.entries {
      assert EntryShaped(root.scope, root.revision, PolicyKey(at), root.entries[PolicyKey(at)]);
    }
  }

  lemma CurrentPolicyLookup(root: Root)
    requires AllShaped(root)
    ensures PolicyEntry(CurrentPolicy(root)) == Lookup(root.entries, CurrentPolicyKey)
    ensures CurrentPolicy(root).Some? ==> CurrentPolicy(root).value.scope == root.scope
  {
    if CurrentPolicyKey in root.entries {
      assert EntryShaped(root.scope, root.revision, CurrentPolicyKey, root.entries[CurrentPolicyKey]);
    }
  }

  lemma {:induction false} AdmittedRestores(root: Root, digest: seq<Token>)
    requires root.revision >= 1 && AllShaped(root) && Admitted(root, digest)
    ensures FromPersistedParts(PartsFrom(root)) == Ok(Assemble(PartsFrom(root)))
      && Consistent(Assemble(PartsFrom(root)))
  {
    hide AllShaped, StoredRecords, StoredHistory, StoredPolicies, CurrentPolicy, Assemble, RecordPartsAccepted,
         Consistent, HistoriesKept, HistoricallyClosed, AllValid, Admitted;
    var p := PartsFrom(root);
    AdmittedRecordParts(root, digest);
    AdmittedReferences(root, digest);
    AdmittedPolicies(root, digest);
    AcceptedPartsAreKept(p);
    AssembleKeepsParts(p);
    ShapedAndHeldIsValid(Assemble(p));
    ValidateStateMeaning(p.scope, p.records);
    RestoreExact(p);
  }

  lemma {:induction false} AdmittedPolicies(root: Root, digest: seq<Token>)
    requires root.revision >= 1 && AllShaped(root) && Admitted(root, digest) && WellDatedHistory(PartsFrom(root))
    ensures WellDated(PartsFrom(root)) && PolicyPartsAccepted(PartsFrom(root))
  {
    hide AllShaped, StoredRecords, StoredHistory, StoredPolicies, CurrentPolicy, StreamedDigest, GroupAdmitted,
         Contributes, DerivedMatch, FamiliesSized, PoliciesAccepted, LastPolicy;
    StoredPoliciesLookup(root, 0);
    CurrentPolicyLookup(root);
  }

  lemma {:induction false} ShapedAndHeldIsValid(s: Snapshot)
    requires HistoriesKept(s) && AllReferencesHold(s.records)
    ensures AllValid(s.scope, s.records)
  {
    hide HistoriesKept, ReferencesHold, WellShaped;
    forall id | id in s.records ensures ValidIn(s.scope, id, s.records) { CurrentShape(s, id); }
  }

  // Every entry of the root is an entry of the reconstructed state, and no others exist

  lemma {:induction false} PrimarySame(root: Root, s: Snapshot, key: Key)
    requires AllShaped(root) && PartsFrom(root) == PartsOf(s) && !key.PairKey? && key != MetadataKey
    ensures SameEntryAt(root, s, key)
  {
    hide AllShaped, StoredRecords, StoredHistory, StoredPolicies, CurrentPolicy, VersionAt, StoredVersions;
    match key
    case RecordKey(record) =>
      StoredRecordsLookup(root, RecordRef(s.scope, record));
      if key in root.entries { StoredContent(root, record); }
    case VersionKey(record, at) =>
      StoredVersionsLookup(root, record, at);
      StoredVersionsOf(root, RecordRef(s.scope, record));
    case CurrentPolicyKey => CurrentPolicyLookup(root);
    case PolicyKey(at) => StoredPoliciesLookup(root, at);
  }

  lemma StoredContent(root: Root, record: nat)
    requires AllShaped(root) && RecordKey(record) in root.entries
    ensures root.entries[RecordKey(record)].RecordContent?
  {
    assert EntryShaped(root.scope, root.revision, RecordKey(record), root.entries[RecordKey(record)]);
  }

  lemma {:induction false} ContributedSame(root: Root, s: Snapshot, key: Key)
    requires AllShaped(root) && PartsFrom(root) == PartsOf(s) && WellKeyed(s.records) && IndexesMatch(s)
    requires key in root.entries && key.PairKey? && IsOwned(key) && Contributes(root, key)
    ensures SameEntryAt(root, s, key)
  {
    hide AllShaped, StoredRecords, StoredHistory, StoredPolicies, CurrentPolicy, EntryAt, WellKeyed, IndexesMatch,
         OwnedAt;
    var owner := RecordRef(root.scope, key.right);
    EntryIsOwned(s, key);
    StoredRecordsLookup(root, owner);
  }

  lemma OwnKeyIsOwned(scope: nat, r: Record, slot: nat, key: Key)
    requires InNamespace(r) && r.id.scope == scope && 2 <= slot <= 5 && SlotOf(key) == slot
    ensures key in OwnSlot(r, slot) <==> OwnedAt(r, key).Some?
  {
    hide OutgoingOf, IncomingOf, ProvenanceOf, ReverseOf;
    if OwnedAt(r, key).Some? { OwnKeysComplete(r, key); }
  }

  lemma {:induction false} StateSlotIsOwned(s: Snapshot, slot: nat)
    requires HistoriesKept(s) && WellKeyed(s.records) && IndexesMatch(s) && 2 <= slot <= 5
    ensures KeysIn(EntriesOf(s), slot) == OwnedIn(s.records, Sorted(s.records.Keys), slot)
  {
    hide EntriesOf, HistoriesKept, IndexesMatch, OwnSlot, OwnedAt, EntryAt;
    var ids := Sorted(s.records.Keys);
    forall key ensures key in KeysIn(EntriesOf(s), slot) <==> key in OwnedIn(s.records, ids, slot) {
      EntriesLookup(s, key);
      if SlotOf(key) == slot {
        EntryIsOwned(s, key);
        var id := Owner(s.scope, key);
        if id in s.records {
          assert id in ids;
          KeptIsBuildable(s, id);
          OwnKeyIsOwned(s.scope, s.records[id], slot, key);
        }
      }
      if w :| w in ids && w in s.records && key in OwnSlot(s.records[w], slot) {
        CurrentShape(s, w);
        SlotOwner(s.records[w], slot, key);
        OwnSlotSlot(s.records[w], slot, key);
      }
    }
  }

  lemma OwnSlotSlot(r: Record, slot: nat, key: Key)
    requires key in OwnSlot(r, slot)
    ensures SlotOf(key) == slot
  {
  }

  lemma {:induction false} StateSlotCount(s: Snapshot, slot: nat)
    requires HistoriesKept(s) && WellKeyed(s.records) && IndexesMatch(s) && 2 <= slot <= 5
    ensures |KeysIn(EntriesOf(s), slot)| == DerivedCount(s.records, Sorted(s.records.Keys), slot)
  {
    hide EntriesOf, HistoriesKept, IndexesMatch, OwnedIn, KeysIn, DerivedCount, HistoricalShape, WellKeyed;
    var ids := Sorted(s.records.Keys);
    StateSlotIsOwned(s, slot);
    forall id | id in ids
      ensures id in s.records && id.scope == s.scope && s.records[id].id == id
        && HistoricalShape(s.scope, s.records[id])
    {
      assert id in s.records.Keys;
      CurrentShape(s, id);
    }
    SortedDistinct(s.records.Keys);
    OwnedSize(s.scope, s.records, ids, slot);
  }

  /** Membership entry by entry plus matching counts force each secondary family to equal the rebuilt index. */
  lemma {:induction false} SecondarySame(root: Root, s: Snapshot, digest: seq<Token>, slot: nat)
    requires AllShaped(root) && Admitted(root, digest) && 2 <= slot <= 5
    requires PartsFrom(root) == PartsOf(s) && HistoriesKept(s) && WellKeyed(s.records) && IndexesMatch(s)
    ensures KeysIn(root.entries, slot) == KeysIn(EntriesOf(s), slot)
  {
    hide AllShaped, StoredRecords, StoredHistory, StoredPolicies, CurrentPolicy, EntryAt, WellKeyed, IndexesMatch,
         HistoriesKept, EntriesOf, StreamedDigest, GroupAdmitted, PoliciesOrdered, Contributes, DerivedCount;
    var mine, theirs := KeysIn(root.entries, slot), KeysIn(EntriesOf(s), slot);
    forall key | key in mine ensures key in theirs {
      EntriesLookup(s, key);
      ContributedSame(root, s, key);
    }
    StateSlotCount(s, slot);
    assert TargetFamilyEntries(StoredCounts(root).value, slot + 2) == Some(|FamilyKeys(root.entries, slot + 2)|);
    ShapedPairs(root);
    FamilyIsOneSlot(root.entries, slot + 2);
    SubsetOfSameSize(mine, theirs);
  }

  lemma {:induction false} PairSame(root: Root, s: Snapshot, digest: seq<Token>, key: Key)
    requires AllShaped(root) && Admitted(root, digest) && key.PairKey?
    requires PartsFrom(root) == PartsOf(s) && HistoriesKept(s) && WellKeyed(s.records) && IndexesMatch(s)
    ensures SameEntryAt(root, s, key)
  {
    hide AllShaped, StoredRecords, StoredHistory, StoredPolicies, CurrentPolicy, EntryAt, WellKeyed, IndexesMatch,
         HistoriesKept, EntriesOf, StreamedDigest, GroupAdmitted, PoliciesOrdered, Contributes, DerivedCount,
         DerivedMatch, FamiliesSized;
    EntriesLookup(s, key);
    if IsOwned(key) {
      SecondarySame(root, s, digest, SlotOf(key));
      assert key in KeysIn(root.entries, SlotOf(key)) <==> key in root.entries;
      assert key in KeysIn(EntriesOf(s), SlotOf(key)) <==> key in EntriesOf(s);
      if key in root.entries { ContributedSame(root, s, key); }
    } else {
      ShapedPairs(root);
      StrayEntry(s, key);
    }
  }

  lemma StrayEntry(s: Snapshot, key: Key)
    requires key.PairKey? && !IsOwned(key)
    ensures EntryAt(s, key) == None
  {
  }

  lemma {:induction false} SlotsSame(root: Root, s: Snapshot, slot: nat)
    requires (forall key: Key :: key != MetadataKey ==> SameEntryAt(root, s, key)) && slot < SLOTS
    ensures KeysIn(root.entries, slot) == KeysIn(EntriesOf(s), slot)
  {
    hide EntriesOf, EntryAt;
    forall key ensures key in KeysIn(root.entries, slot) <==> key in KeysIn(EntriesOf(s), slot) {
      EntriesLookup(s, key);
      if key != MetadataKey { assert SameEntryAt(root, s, key); }
    }
  }

  lemma {:induction false} PolicySlotCounts(root: Root, counts: Counts)
    requires AllShaped(root) && CountsShaped(counts) && FamiliesSized(root, counts) && PoliciesOrdered(root)
    ensures counts[6] == |KeysIn(root.entries, 6)| && counts[7] == |KeysIn(root.entries, 7)|
  {
    hide AllShaped, PoliciesAccepted, StoredPolicies, CurrentPolicy, PairsAreSecondary;
    ShapedPairs(root);
    PolicyFamilyIsSlots(root.entries);
    assert TargetFamilyEntries(counts, 8) == Some(|FamilyKeys(root.entries, 8)|);
    CurrentPolicyLookup(root);
    assert KeysIn(root.entries, 7) == if CurrentPolicyKey in root.entries then {CurrentPolicyKey} else {};
    if CurrentPolicyKey !in root.entries {
      assert StoredPolicies(root).Keys == {};
      forall key | key in KeysIn(root.entries, 6) ensures false { StoredPoliciesLookup(root, key.revision); }
      assert KeysIn(root.entries, 6) == {};
    }
  }

  lemma {:induction false} CountsSame(root: Root, s: Snapshot, counts: Counts)
    requires AllShaped(root) && CountsShaped(counts) && FamiliesSized(root, counts) && PoliciesOrdered(root)
    requires HistoriesKept(s) && WellKeyed(s.records) && IndexesMatch(s)
    requires forall key: Key :: key != MetadataKey ==> SameEntryAt(root, s, key)
    ensures counts == MetadataCounts(s)
  {
    hide AllShaped, PairsAreSecondary, PoliciesOrdered, HistoriesKept, WellKeyed, IndexesMatch, SameEntryAt, EntriesOf,
         KeysIn, FamilyKeys, MetadataCounts;
    ShapedPairs(root);
    CountsAreSizes(s);
    PolicySlotCounts(root, counts);
    forall slot | 0 <= slot < SLOTS ensures counts[slot] == SizesOf(EntriesOf(s))[slot] {
      SlotsSame(root, s, slot);
      SizesAt(EntriesOf(s), slot);
      if slot < 6 {
        FamilyIsOneSlot(root.entries, slot + 2);
        assert TargetFamilyEntries(counts, slot + 2) == Some(|FamilyKeys(root.entries, slot + 2)|);
      }
    }
  }

  /** Streaming admission is sound: an admitted root is exactly the families of a consistent state, and the
      materialised reconstruction succeeds with that state. */
  lemma {:induction false} AdmissionIsSound(root: Root, digest: seq<Token>)
    requires root.revision >= 1 && Admitted(root, digest)
    ensures Represents(root, Assemble(PartsFrom(root))) && digest == DigestTokens(Assemble(PartsFrom(root)))
    ensures Reconstruct(root, digest) == Ok(Assemble(PartsFrom(root)))
  {
    hide Consistent, StoredRecords, StoredHistory, StoredPolicies, CurrentPolicy, AllShaped, Assemble, EntriesOf,
         DigestTokens, StreamedDigest, FromPersistedParts;
    hide CountsShaped, FamiliesSized, DerivedMatch, PoliciesOrdered, GroupAdmitted, Contributes, HistoriesKept,
         IndexesMatch, WellKeyed, EntryAt, MetadataCounts, PoliciesKept;
    var s, counts := Assemble(PartsFrom(root)), StoredCounts(root).value;
    AdmittedIsShaped(root, digest);
    AdmittedRestores(root, digest);
    AssembleKeepsParts(PartsFrom(root));
    ConsistentIsIndexed(s);
    forall key: Key | key != MetadataKey ensures SameEntryAt(root, s, key) {
      if key.PairKey? { PairSame(root, s, digest, key); } else { PrimarySame(root, s, key); }
    }
    CountsSame(root, s, counts);
    EntriesSame(root, s);
    StreamedDigestIsSnapshotDigest(s);
  }

  lemma {:induction false} EntriesSame(root: Root, s: Snapshot)
    requires root.revision == s.revision && StoredCounts(root) == Ok(MetadataCounts(s))
    requires forall key: Key :: key != MetadataKey ==> SameEntryAt(root, s, key)
    ensures root.entries == EntriesOf(s)
  {
    hide EntriesOf, MetadataCounts;
    forall key ensures Lookup(root.entries, key) == Lookup(EntriesOf(s), key) {
      EntriesLookup(s, key);
      if key != MetadataKey { assert SameEntryAt(root, s, key); }
    }
    SameEntries(root.entries, EntriesOf(s));
  }

  // Completeness: a root that holds a consistent state is admitted

  lemma {:induction false} NonemptyTotal(history: map<RecordRef, seq<Record>>, ids: seq<RecordRef>)
    requires forall id :: id in ids ==> id in history && history[id] != []
    ensures TotalVersions(history, ids) >= |ids|
  {
    if ids != [] { NonemptyTotal(history, ids[1..]); }
  }

  lemma {:induction false} TrueCountsShaped(s: Snapshot)
    requires Consistent(s)
    ensures CountsShaped(MetadataCounts(s))
  {
    hide Consistent, MetadataCounts, EntriesOf, KeysIn, TotalVersions;
    ConsistentIsIndexed(s);
    CountsHead(s);
    CountsAreSizes(s);
    if s.policy.None? { NoPolicyNoHistory(s); }
    HistoriesNonempty(s);
    if |s.records| == 0 {
      assert s.records == map[];
      forall slot | 1 <= slot <= 5 ensures KeysIn(EntriesOf(s), slot) == {} { EmptySlot(s, slot); }
    }
  }

  lemma HistoriesNonempty(s: Snapshot)
    requires HistoriesKept(s)
    ensures TotalVersions(s.history, Sorted(s.history.Keys)) >= |s.records|
  {
    var ids := Sorted(s.history.Keys);
    forall id | id in ids ensures id in s.history && s.history[id] != [] {
      assert id in s.history.Keys;
      assert GoodHistory(s.scope, id, s.history[id], s.revision);
    }
    NonemptyTotal(s.history, ids);
    assert |s.history.Keys| == |s.records.Keys|;
  }

  lemma {:induction false} EmptySlot(s: Snapshot, slot: nat)
    requires HistoriesKept(s) && WellKeyed(s.records) && IndexesMatch(s) && s.records == map[] && 1 <= slot <= 5
    ensures KeysIn(EntriesOf(s), slot) == {}
  {
    hide EntriesOf, IndexesMatch, WellKeyed, HistoriesKept, OwnedAt;
    SameKeys(s);
    forall key ensures key !in KeysIn(EntriesOf(s), slot) {
      EntriesLookup(s, key);
      if IsOwned(key) { EntryIsOwned(s, key); }
    }
  }

  lemma {:induction false} TrueParts(root: Root, s: Snapshot)
    requires Represents(root, s) && AllShaped(root)
    ensures PartsFrom(root) == PartsOf(s)
  {
    hide Consistent, AllShaped, StoredRecords, StoredHistory, StoredPolicies, CurrentPolicy, EntriesOf, HistoriesKept;
    ConsistentIsIndexed(s);
    forall id ensures Lookup(StoredRecords(root), id) == Lookup(s.records, id) { TrueRecord(root, s, id); }
    SameLookups(StoredRecords(root), s.records);
    forall id ensures Lookup(StoredHistory(root), id) == Lookup(s.history, id) { TrueHistory(root, s, id); }
    SameLookups(StoredHistory(root), s.history);
    TruePolicies(root, s);
  }

  lemma {:induction false} TrueRecord(root: Root, s: Snapshot, id: RecordRef)
    requires Represents(root, s) && AllShaped(root)
    ensures Lookup(StoredRecords(root), id) == Lookup(s.records, id)
  {
    hide Consistent, AllShaped, StoredRecords, EntriesOf, HistoriesKept;
    ConsistentIsIndexed(s);
    StoredRecordsLookup(root, id);
    RepresentedEntry(root, s, RecordKey(id.record));
    if id in s.records { CurrentShape(s, id); }
  }

  lemma {:induction false} TrueHistory(root: Root, s: Snapshot, id: RecordRef)
    requires Represents(root, s) && AllShaped(root)
    ensures Lookup(StoredHistory(root), id) == Lookup(s.history, id)
  {
    hide Represents, Consistent, AllShaped, EntriesOf, HistoriesKept, StoredVersions, VersionAt;
    RepresentsConsistent(root, s);
    ConsistentIsIndexed(s);
    SameKeys(s);
    if id.scope == s.scope {
      TrueVersions(root, s, id);
      StoredVersionsOf(root, id);
      HistoryFamilyHas(root, s, id);
    } else if id in s.history {
      CurrentShape(s, id);
    }
  }

  lemma {:induction false} HistoryFamilyHas(root: Root, s: Snapshot, id: RecordRef)
    requires Represents(root, s) && id.scope == s.scope
    ensures id.record in HistoryRecords(root.entries) <==> id in s.history
  {
    hide Represents, Consistent, EntriesOf, VersionAt, Revisions;
    RepresentsConsistent(root, s);
    ConsistentIsIndexed(s);
    if id in s.history {
      assert s.history[id] != [] by { assert GoodHistory(s.scope, id, s.history[id], s.revision); }
      StoredVersion(root, s, id, 0);
      assert VersionKey(id.record, s.history[id][0].ModifiedRevision()) in root.entries;
    } else if id.record in HistoryRecords(root.entries) {
      var key :| key in root.entries && key.VersionKey? && key.record == id.record;
      ScannedRevision(root, s, id, key.revision);
      assert key.revision in ScannedRevisions(root.entries, id.record);
      NoRevisions();
    }
  }

  lemma {:induction false} TrueVersions(root: Root, s: Snapshot, id: RecordRef)
    requires Represents(root, s) && AllShaped(root) && id.scope == s.scope
    ensures StoredVersions(root, id.record) == VersionsOf(s.history, id)
  {
    hide Represents, Consistent, AllShaped, EntriesOf, StoredVersions;
    var versions, stored := VersionsOf(s.history, id), StoredVersions(root, id.record);
    ScannedAreListed(root, s, id, SortedRevisions(ScannedRevisions(root.entries, id.record)));
    StoredCount(root, id.record);
    forall k | 0 <= k < |versions| ensures stored[k] == versions[k] {
      StoredVersion(root, s, id, k);
      StoredVersionAt(root, id.record, k);
    }
  }

  lemma {:induction false} TruePolicies(root: Root, s: Snapshot)
    requires Represents(root, s) && AllShaped(root)
    ensures StoredPolicies(root) == s.policyHistory && CurrentPolicy(root) == s.policy
  {
    hide Represents, Consistent, AllShaped, EntriesOf, StoredPolicies, CurrentPolicy;
    CurrentPolicyLookup(root);
    RepresentedEntry(root, s, CurrentPolicyKey);
    forall at ensures Lookup(StoredPolicies(root), at) == Lookup(s.policyHistory, at) {
      StoredPoliciesLookup(root, at);
      RepresentedEntry(root, s, PolicyKey(at));
    }
    assert forall at :: at in StoredPolicies(root) <==> Lookup(StoredPolicies(root), at).Some?;
    assert forall at :: at in s.policyHistory <==> Lookup(s.policyHistory, at).Some?;
  }

  lemma {:induction false} TrueGroup(root: Root, s: Snapshot, record: nat)
    requires Represents(root, s) && AllShaped(root) && record in HistoryRecords(root.entries)
    ensures GroupAdmitted(root, record)
  {
    hide Represents, Consistent, AllShaped, EntriesOf, StoredRecords, StoredHistory, StoredVersions, FirstRequirements,
         SuccessorRequirements, CurrentRequirements;
    hide AllFoundAt, AllFoundNow, AllSatisfied, RecordHistoryAccepted, StoredRecord, Holds, ReferencesHold, WellShaped,
         HistoriesKept, HistoricallyClosed, GoodHistory;
    var id := RecordRef(root.scope, record);
    RepresentsConsistent(root, s);
    ConsistentIsIndexed(s);
    HistoryFamilyHas(root, s, id);
    TrueVersions(root, s, id);
    TrueParts(root, s);
    var versions := s.history[id];
    KeptGroup(s, id);
    AllFoundIsSatisfied(root, FirstRequirements(versions[0]).value);
    forall k | 0 < k < |versions|
      ensures AllFoundAt(root, SuccessorRequirements(versions[k]))
    {
      AllFoundIsSatisfied(root, SuccessorRequirements(versions[k]));
    }
    StoredRecordIsTrue(root, s, id);
    AllFoundNowHolds(root, CurrentRequirements(s.records[id], root.revision));
    CurrentRequirementsMeaning(s.records, s.records[id], root.revision);
  }

  /** A consistent state's history of `id`, in the terms admission checks. */
  lemma {:induction false} KeptGroup(s: Snapshot, id: RecordRef)
    requires Consistent(s) && id in s.history
    ensures var versions := s.history[id];
      && versions != [] && RecordHistoryAccepted(s.scope, versions)
      && (forall k :: 0 <= k < |versions| ==> versions[k].id == id && versions[k].version == k + 1)
      && FirstRequirements(versions[0]).Some? && AllSatisfied(s.history, FirstRequirements(versions[0]).value)
      && (forall k :: 0 < k < |versions| ==> AllSatisfied(s.history, SuccessorRequirements(versions[k])))
      && id in s.records && s.records[id] == versions[|versions| - 1] && ReferencesHold(s.records[id], s.records)
  {
    hide Indexed, IndexesMatch, PoliciesKept, FirstRequirements, SuccessorRequirements, AllSatisfied, ReferencesHold,
         WellShaped, FirstAccepted, SuccessorAccepted, VersionsHeld, HistoricalShape, NextVersion, FirstVersion;
    var versions := s.history[id];
    assert GoodHistory(s.scope, id, versions, s.revision);
    GoodHistoryIsAccepted(s.scope, s.revision, id, versions);
    ClosedMeaning(s.history, versions);
    assert ValidIn(s.scope, id, s.records);
  }

  lemma {:induction false} TrueContribution(root: Root, s: Snapshot, key: Key)
    requires Represents(root, s) && key in root.entries && key.PairKey?
    ensures Contributes(root, key)
  {
    hide Represents, Consistent, EntriesOf, OwnedAt, StoredRecord, EntryAt;
    RepresentsConsistent(root, s);
    ConsistentIsIndexed(s);
    RepresentedEntry(root, s, key);
    if !IsOwned(key) { StrayEntry(s, key); }
    EntryIsOwned(s, key);
    StoredRecordIsTrue(root, s, Owner(s.scope, key));
  }

  lemma {:induction false} TrueDerived(s: Snapshot)
    requires Consistent(s)
    ensures |MetadataCounts(s)| == SLOTS && DerivedMatch(s.records, MetadataCounts(s))
  {
    hide Consistent, MetadataCounts, EntriesOf, KeysIn, DerivedCount;
    CountsHead(s);
    ConsistentIsIndexed(s);
    CountsAreSizes(s);
    forall slot | 2 <= slot <= 5
      ensures DerivedCount(s.records, Sorted(s.records.Keys), slot) == MetadataCounts(s)[slot]
    {
      SizesAt(EntriesOf(s), slot);
      StateSlotCount(s, slot);
    }
  }

  lemma {:induction false} TruePolicyOrder(root: Root, s: Snapshot)
    requires Represents(root, s) && AllShaped(root)
    ensures PoliciesOrdered(root)
  {
    hide Represents, Consistent, AllShaped, StoredRecords, StoredHistory, StoredPolicies, CurrentPolicy,
         PoliciesAccepted, LastPolicy, Assemble, PoliciesKept;
    RepresentsConsistent(root, s);
    ConsistentIsIndexed(s);
    TrueParts(root, s);
    AssembleUndoesPartsOf(s);
    ConsistentIsDated(s);
    PolicyPartsMeaning(PartsOf(s));
  }

  lemma {:induction false} TrueFamiliesSized(root: Root, s: Snapshot)
    requires Represents(root, s)
    ensures |MetadataCounts(s)| == SLOTS && FamiliesSized(root, MetadataCounts(s))
  {
    hide Consistent, EntriesOf, MetadataCounts, FamilyKeys, TargetFamilyEntries;
    CountsHead(s);
    forall number | 1 <= number <= 8
      ensures TargetFamilyEntries(MetadataCounts(s), number) == Some(|FamilyKeys(root.entries, number)|)
    {
      FamilyEntryCount(s, number);
    }
  }

  /** Every root that holds a consistent state is admitted, so admission accepts exactly those roots. */
  lemma {:induction false} AdmissionIsComplete(root: Root, s: Snapshot)
    requires Represents(root, s)
    ensures Admitted(root, DigestTokens(s)) && Assemble(PartsFrom(root)) == s
  {
    hide Consistent, EntriesOf, MetadataCounts, StreamedDigest, DigestTokens, AllShaped, GroupAdmitted, Contributes,
         DerivedMatch, PoliciesOrdered, FamiliesSized, CountsShaped, Assemble, StoredRecords, StoredHistory,
         StoredPolicies, CurrentPolicy;
    StoredHeadIsTrue(root, s);
    TrueCountsShaped(s);
    TrueFamiliesSized(root, s);
    StreamedDigestIsSnapshotDigest(s);
    StreamIsShaped(root, MetadataCounts(s));
    TrueParts(root, s);
    TrueDerived(s);
    forall record | record in HistoryRecords(root.entries)
      ensures GroupAdmitted(root, record)
    {
      TrueGroup(root, s, record);
    }
    forall key | key in root.entries && key.PairKey? ensures Contributes(root, key) { TrueContribution(root, s, key); }
    TruePolicyOrder(root, s);
    ConsistentIsIndexed(s);
    AssembleUndoesPartsOf(s);
  }
}
