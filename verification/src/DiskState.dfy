/** The disk-backed live state: one admitted base, at most one pending plan, and the commit cycle that refines the
    in-memory reducer (crates/uste-graph/src/state_disk.rs:258-410, 1068-1105, 2117-2201, 2318-2340, 2592-2735). */
module DiskState {
  import opened Base
  import opened Records
  import opened Reducer
  import opened Invariant
  import opened Checkpoint
  import opened Families
  import opened Counting
  import opened Deltas
  import opened KeyOrder
  import opened DeltaBuilder
  import opened Proofs
  import opened Refusals
  import opened DiskLoad
  import opened Validator
  import opened Streaming
  import opened GraphStateObject

  /** An admitted base: an authenticated root, its digest, its counts and the policy in force. */
  datatype DiskBase = DiskBase(root: Root, digest: seq<Token>, counts: Counts, policy: Option<NamespacePolicy>)

  /** A reducer result bound to the base it was proved against. */
  datatype DiskPrepared = DiskPrepared(prepared: PreparedGraph, anchor: Root, counts: Counts,
      policy: Option<NamespacePolicy>)

  datatype DiskCommit = DiskCommit(prepared: DiskPrepared, plan: Plan)

  datatype Pending = Pending(plan: Plan, targetPolicy: Option<NamespacePolicy>)

  /** The base is the committed state `s`, exactly. */
  ghost predicate Stands(base: DiskBase, s: Snapshot) {
    && Represents(base.root, s) && base.digest == DigestTokens(s)
    && base.counts == MetadataCounts(s) && base.policy == s.policy && WordCounts(base.counts)
  }

  /** The pending plan carries the base `s` to the committed state `t`. */
  ghost predicate Leads(base: DiskBase, pending: Pending, s: Snapshot, t: Snapshot) {
    && Stands(base, s) && Consistent(t) && t.scope == s.scope && t.revision == s.revision + 1
    && pending.plan.scope == t.scope && pending.plan.baseRevision == s.revision && pending.plan.revision == t.revision
    && pending.plan.targetCounts == MetadataCounts(t) && pending.targetPolicy == t.policy
    && WordCounts(pending.plan.targetCounts)
    && DeltasApply(EntriesOf(s), pending.plan.deltas) && ApplyDeltas(EntriesOf(s), pending.plan.deltas) == EntriesOf(t)
  }

  /** Whatever the reducer accepts can be planned; only a count that leaves its 64-bit range stops the builder. */
  lemma {:induction false} PreparedIsBuildable(s: Snapshot, tx: Transaction, p: PreparedGraph)
    requires Consistent(s) && Prepare(s, tx, s.revision + 1) == Ok(p)
    ensures AllBuildable(p) && CountsCover(MetadataCounts(s), EntryDeltas(p, s.policy))
    ensures TargetCounts(MetadataCounts(s), EntryDeltas(p, s.policy)) == Some(MetadataCounts(Publish(s, p)))
    ensures p.baseRevision == s.revision && Consistent(Publish(s, p)) && Advances(s, p, Publish(s, p))
  {
    hide *;
    CommitAdvancesTo(s, tx, p);
    var t := Publish(s, p);
    ConsistentIsIndexed(s);
    ConsistentIsIndexed(t);
    PreparedScope(s, tx, p);
    TargetCountsExact(s, p, t);
    AdvanceIsBuildable(s, p, t);
    AdvanceIsCovered(s, p, t);
  }

  lemma StandsHead(base: DiskBase, s: Snapshot)
    requires Stands(base, s)
    ensures Represents(base.root, s) && Consistent(s) && s.revision >= 1 && base.counts == MetadataCounts(s)
      && base.policy == s.policy && WordCounts(MetadataCounts(s))
    ensures base.root.scope == s.scope && base.root.revision == s.revision
  {
    hide MetadataCounts, DigestTokens, EntriesOf, Consistent, WordCounts;
  }

  /** An accepted transaction's plan leads from the base to the published state. */
  lemma {:induction false} PlanLeads(base: DiskBase, s: Snapshot, tx: Transaction, p: PreparedGraph)
    requires Stands(base, s) && Prepare(s, tx, s.revision + 1) == Ok(p)
    requires CountsStayInRange(MetadataCounts(s), EntryDeltas(p, s.policy))
    ensures Leads(base, Pending(PlanOf(p, s.policy, MetadataCounts(s), MetadataCounts(Publish(s, p))),
      NextPolicy(p.policyChange, s.policy)), s, Publish(s, p))
  {
    hide Prepare, Publish, Consistent, Represents, EntriesOf, MetadataCounts, DigestTokens, FamilyDeltas, EntryDeltas,
         WellFormedChanges, AllBuildable, TargetCounts, CountsCover, ApplyDeltas, DeltasApply, CountsStayInRange,
         InRange, WordCounts;
    RepresentsConsistent(base.root, s);
    PreparedIsBuildable(s, tx, p);
    var t := Publish(s, p);
    CommitAdvancesTo(s, tx, p);
    PreparedScope(s, tx, p);
    DeltaExact(s, p, t);
    InRangeAtEnd(MetadataCounts(s), EntryDeltas(p, s.policy));
    TargetsAreWords(MetadataCounts(s), EntryDeltas(p, s.policy), MetadataCounts(t));
  }

  lemma TargetsAreWords(base: Counts, deltas: DeltaMap, counts: Counts)
    requires InRange(base, deltas) && TargetCounts(base, deltas) == Some(counts)
    ensures WordCounts(counts)
  {
    hide Adjusted;
  }

  lemma PreparedScope(s: Snapshot, tx: Transaction, p: PreparedGraph)
    requires Prepare(s, tx, s.revision + 1) == Ok(p)
    ensures p.scope == s.scope && p.baseRevision == s.revision && p.basePolicyVersion == PolicyVersion(s.policy)
  {
    hide RunOperations, ValidateChanged, ChangesOf, CheckPreconditions, ValidateRequestLimits;
  }

  // Preparing on a proof loaded from the base

  /** Load the proof, check that it is complete, and run the ordinary reducer on the partial state it describes. */
  method PrepareOnProof(base: DiskBase, tx: Transaction, ghost s: Snapshot) returns (r: Result<DiskPrepared, DiskError>)
    requires Stands(base, s)
    ensures r.Ok? <==> Prepare(s, tx, s.revision + 1).Ok?
    ensures r.Ok? ==>
      r.value == DiskPrepared(Prepare(s, tx, s.revision + 1).value, base.root, MetadataCounts(s), s.policy)
    ensures r.Err? ==> r.error.Refused?
    ensures r.Err? && ValidateRequestLimits(tx).Ok? && tx.scope == s.scope && NamesInScope(tx) ==>
      Prepare(s, tx, s.revision + 1) == Err(r.error.reason)
    ensures r.Err? && !(ValidateRequestLimits(tx).Ok? && tx.scope == s.scope && NamesInScope(tx)) ==>
      LoadRefusal(s, tx, r.error.reason)
  {
    hide LoadRefusal, ValidateRequestLimits, Prepare, TrueOf, Complete, MetadataCounts, DigestTokens, NamesInScope,
         Consistent;
    RepresentsConsistent(base.root, s);
    var view := LoadProof(base.root, tx, s);
    if view.Err? {
      RefusalIsRejection(s, tx);
      return Err(Refused(view.error.reason));
    }
    var proof := view.value.proof;
    if !Complete(proof, tx) { return Err(CorruptIndex); }
    ProofSuffices(proof, s, tx, s.revision + 1);
    TrueProofHead(proof, s);
    var partial := new GraphState.Holding(PartialState(proof));
    var prepared := partial.PrepareTransaction(tx, base.root.revision + 1);
    if prepared.Err? { return Err(Refused(prepared.error)); }
    r := Ok(DiskPrepared(prepared.value, base.root, view.value.counts, proof.policy));
  }

  lemma TrueProofHead(p: Proof, s: Snapshot)
    requires TrueOf(p, s)
    ensures p.policy == s.policy && p.revision == s.revision
  {
  }

  /** Whatever the loader refuses, the reducer rejects. */
  lemma {:induction false} RefusalIsRejection(s: Snapshot, tx: Transaction)
    requires Consistent(s) && !(ValidateRequestLimits(tx).Ok? && tx.scope == s.scope && NamesInScope(tx))
    ensures Prepare(s, tx, s.revision + 1).Err?
  {
    hide Consistent, ValidateRequestLimits, RunOperations, ValidateChanged, ChangesOf, CheckPreconditions;
    if ValidateRequestLimits(tx).Ok? && tx.scope == s.scope {
      hide Prepare;
      var id :| id in TransactionIds(tx) && id.scope != tx.scope;
      StrayNamesAreRejected(s, tx, id);
    }
  }

  // Merging the plan's deltas family by family, under the streaming validator

  function TargetFamilyEntries(counts: Counts, number: nat): Option<nat>
    requires |counts| == SLOTS
  {
    if number == 1 then Some(1)
    else if 2 <= number <= 7 then Some(counts[number - 2])
    else if number == 8 then Some(counts[6] + counts[7])
    else None
  }

  /** Feeds one merged family to the validator in key order, then closes it. */
  method FeedFamily(validator: MergedGraphStateValidator, entries: Entries, number: nat) returns (ok: bool, count: nat)
    requires WellSized(validator.View())
    modifies validator
    ensures ok <==> StreamFamily(old(validator.View()), entries, number).Ok?
    ensures ok ==>
      StreamFamily(old(validator.View()), entries, number) == Ok(validator.View()) && WellSized(validator.View())
    ensures ok ==> count == |FamilyKeys(entries, number)|
  {
    hide Observe, ObserveAll, FinishFamily, KeyLess, FamilyKeys, Increasing;
    ghost var v := validator.View();
    assert StrictOrder(KeyLess) by { KeyLessIsStrictOrder(); }
    var keys := InOrder(FamilyKeys(entries, number), KeyLess);
    SortedKeysUnique(keys, FamilyKeys(entries, number));
    ObserveNone(v, entries);
    for k := 0 to |keys|
      invariant WellSized(validator.View()) && ObserveAll(v, entries, keys[..k]) == Ok(validator.View())
    {
      KeyIsEntry(entries, number, keys[k]);
      ghost var w := validator.View();
      ObserveLast(v, entries, keys[..k], keys[k], w, entries[keys[k]]);
      assert keys[..k + 1] == keys[..k] + [keys[k]];
      var observed := validator.ObserveEntry(keys[k], entries[keys[k]]);
      if !observed {
        ObserveFails(v, entries, keys, k + 1);
        return false, 0;
      }
      ObserveKeepsSizes(w, keys[k], entries[keys[k]]);
    }
    assert keys[..|keys|] == keys;
    ghost var u := validator.View();
    ok := validator.Close(number);
    if ok { FinishKeepsSizes(u, number); }
    count := |keys|;
  }

  lemma KeyIsEntry(entries: Entries, number: nat, key: Key)
    requires key in FamilyKeys(entries, number)
    ensures key in entries
  {
  }

  lemma {:induction false} ObserveFails(v: State, entries: Entries, keys: seq<Key>, k: nat)
    requires k <= |keys| && ObserveAll(v, entries, keys[..k]).Err?
    ensures ObserveAll(v, entries, keys).Err?
    decreases |keys|
  {
    hide Observe;
    if k == |keys| {
      assert keys[..k] == keys;
    } else {
      assert keys[..|keys| - 1][..k] == keys[..k];
      ObserveFails(v, entries, keys[..|keys| - 1], k);
    }
  }

  lemma {:induction false} SizedFamilies(entries: Entries, number: nat)
    requires PairsAreSecondary(entries) && 1 <= number <= 8 && |FamilyKeys(entries, 1)| == 1
    ensures TargetFamilyEntries(SizesOf(entries), number) == Some(|FamilyKeys(entries, number)|)
  {
    hide KeysIn, FamilyKeys, PairsAreSecondary;
    if number == 8 {
      PolicyFamilyIsSlots(entries);
    } else if number > 1 {
      SizesAt(entries, number - 2);
      FamilyIsOneSlot(entries, number);
    }
  }

  lemma OneMetadata(s: Snapshot)
    ensures |FamilyKeys(EntriesOf(s), 1)| == 1
  {
    hide EntriesOf, FamilyKeys;
    MetadataKeysSorted(s);
    assert |SortedKeys(FamilyKeys(EntriesOf(s), 1))| == |FamilyKeys(EntriesOf(s), 1)|;
  }

  /** All eight families of a true merge hold the entry counts the plan announced. */
  lemma {:induction false} FamilyEntryCount(s: Snapshot, number: nat)
    requires Consistent(s) && 1 <= number <= 8
    ensures |MetadataCounts(s)| == SLOTS && TargetFamilyEntries(MetadataCounts(s), number)
      == Some(|FamilyKeys(EntriesOf(s), number)|)
  {
    hide Consistent, EntriesOf, MetadataCounts, FamilyKeys, PairsAreSecondary, SizesOf, TargetFamilyEntries;
    CountsHead(s);
    ConsistentIsIndexed(s);
    CountsAreSizes(s);
    NoStrayPairs(s);
    OneMetadata(s);
    SizedFamilies(EntriesOf(s), number);
  }

  ghost predicate PairsAreSecondary(entries: Entries) {
    forall key :: key in entries && key.PairKey? ==> key.family in {Outgoing, Incoming, Provenance, Reverse}
  }

  lemma NoStrayPairs(s: Snapshot)
    ensures PairsAreSecondary(EntriesOf(s))
  {
    hide EntriesOf;
    forall key | key in EntriesOf(s) && key.PairKey?
      ensures key.family in {Outgoing, Incoming, Provenance, Reverse}
    {
      EntriesLookup(s, key);
    }
  }

  lemma FamilyIsOneSlot(entries: Entries, number: nat)
    requires PairsAreSecondary(entries) && 2 <= number <= 7
    ensures FamilyKeys(entries, number) == KeysIn(entries, number - 2)
  {
  }

  lemma PolicyFamilyIsSlots(entries: Entries)
    requires PairsAreSecondary(entries)
    ensures |FamilyKeys(entries, 8)| == |KeysIn(entries, 6)| + |KeysIn(entries, 7)|
  {
    assert FamilyKeys(entries, 8) == KeysIn(entries, 6) + KeysIn(entries, 7);
    assert KeysIn(entries, 6) !! KeysIn(entries, 7);
  }

  /** `publish_graph_state_root_delta`: merge with before-checks, validate while merging, and seal the new root. */
  method MergePlan(base: DiskBase, plan: Plan) returns (r: Result<(Root, seq<Token>), DiskError>)
    requires |plan.targetCounts| == SLOTS
    ensures r.Ok? ==>
      && DeltasApply(base.root.entries, plan.deltas)
      && r.value.0 == Root(plan.scope, plan.revision, ApplyDeltas(base.root.entries, plan.deltas))
      && StreamedDigest(plan.scope, plan.revision, plan.targetCounts, r.value.0.entries) == Ok(r.value.1)
    ensures r.Err? ==> !MergeAccepted(base, plan)
  {
    hide StreamFamily, FamilyKeys, New, ApplyDeltas, DeltasApply;
    if base.root.revision != plan.baseRevision || !DeltasApply(base.root.entries, plan.deltas) {
      return Err(CorruptIndex);
    }
    var merged := ApplyDeltas(base.root.entries, plan.deltas);
    var start := New(plan.scope, plan.revision, plan.targetCounts);
    if start.Err? { return Err(CorruptIndex); }
    var validator := new MergedGraphStateValidator(plan.scope, plan.revision, plan.targetCounts);
    ghost var v := validator.View();
    NewIsSized(plan.scope, plan.revision, plan.targetCounts);
    for number := 1 to FAMILY_COUNT + 1
      invariant fresh(validator) && WellSized(validator.View())
      invariant StreamFrom(v, merged, 1) == StreamFrom(validator.View(), merged, number)
    {
      var ok, count := FeedFamily(validator, merged, number);
      if !ok { return Err(CorruptIndex); }
      var expected := TargetFamilyEntries(plan.targetCounts, number);
      if expected != Some(count) {
        return Err(CorruptIndex);
      }
    }
    if validator.nextFamily != FAMILY_COUNT + 1 { return Err(CorruptIndex); }
    r := Ok((Root(plan.scope, plan.revision, merged), validator.digest));
  }

  lemma NewIsSized(scope: nat, revision: nat, counts: Counts)
    requires |counts| == SLOTS && New(scope, revision, counts).Ok?
    ensures WellSized(New(scope, revision, counts).value)
  {
  }

  /** The conditions under which a merge is sealed. */
  ghost predicate MergeAccepted(base: DiskBase, plan: Plan)
    requires |plan.targetCounts| == SLOTS
  {
    var merged := ApplyDeltas(base.root.entries, plan.deltas);
    && base.root.revision == plan.baseRevision && DeltasApply(base.root.entries, plan.deltas)
    && (forall number :: 1 <= number <= 8 ==>
       TargetFamilyEntries(plan.targetCounts, number) == Some(|FamilyKeys(merged, number)|))
    && StreamedDigest(plan.scope, plan.revision, plan.targetCounts, merged).Ok?
  }

  lemma {:induction false} TrueMergeIsAccepted(base: DiskBase, pending: Pending, s: Snapshot, t: Snapshot)
    requires Leads(base, pending, s, t)
    ensures |pending.plan.targetCounts| == SLOTS && MergeAccepted(base, pending.plan)
    ensures Stands(DiskBase(Root(t.scope, t.revision, EntriesOf(t)), DigestTokens(t), MetadataCounts(t), t.policy), t)
    ensures base.root.entries == EntriesOf(s) && StreamedDigest(t.scope, t.revision, MetadataCounts(t), EntriesOf(t))
      == Ok(DigestTokens(t))
  {
    hide Consistent, EntriesOf, MetadataCounts, FamilyKeys, StreamedDigest, DigestTokens, ApplyDeltas, DeltasApply,
         TargetFamilyEntries;
    StreamedDigestIsSnapshotDigest(t);
    forall number | 1 <= number <= 8
      ensures TargetFamilyEntries(MetadataCounts(t), number) == Some(|FamilyKeys(EntriesOf(t), number)|)
    {
      FamilyEntryCount(t, number);
    }
  }

  // The live state

  class GraphDiskLiveState {
    var base: DiskBase
    var pending: Option<Pending>

    constructor (base: DiskBase)
      ensures this.base == base && pending == None
    {
      this.base, pending := base, None;
    }

    /** A base is exposed exactly when it is the committed state: a pending commit has made it stale. */
    function CurrentBase(): (current: Option<DiskBase>)
      reads this
      ensures forall s, t :: Tracks(s, t) ==> (current == Some(base) <==> Stands(base, t))
      ensures forall s, t :: Tracks(s, t) && current.Some? ==> Stands(current.value, t)
    {
      assert forall s, t :: Tracks(s, t) && pending.Some? ==> !Stands(base, t) by {
        forall s, t | Tracks(s, t) && pending.Some? ensures !Stands(base, t) { LeadsAway(base, pending.value, s, t); }
      }
      if pending.None? then Some(base) else None
    }

    predicate CanPublish(c: DiskCommit)
      reads this
    {
      && pending.None?
      && c.prepared.anchor == base.root && c.prepared.counts == base.counts && c.prepared.policy == base.policy
      && c.prepared.prepared.scope == base.root.scope && c.prepared.prepared.baseRevision == base.root.revision
      && c.prepared.prepared.basePolicyVersion == PolicyVersion(base.policy)
      && c.plan.scope == base.root.scope && c.plan.baseRevision == base.root.revision
      && c.plan.revision == c.prepared.prepared.revision && c.plan.resultContent == c.prepared.prepared.resultContent
    }

    /** The committed states this object stands for: `s` is what the base holds, `t` what has been committed. */
    ghost predicate Tracks(s: Snapshot, t: Snapshot)
      reads this
    {
      if pending.None? then s == t && Stands(base, t) else Leads(base, pending.value, s, t)
    }

    method Publish(c: DiskCommit)
      requires CanPublish(c)
      modifies this
      ensures base == old(base) && pending == Some(Pending(c.plan,
        NextPolicy(c.prepared.prepared.policyChange, c.prepared.policy)))
    {
      pending := Some(Pending(c.plan, NextPolicy(c.prepared.prepared.policyChange, c.prepared.policy)));
    }

    /** Accepts exactly what the reducer accepts within the counters' range; a
        second commit is refused while one is pending. */
    method Submit(tx: Transaction, ghost s: Snapshot, ghost t: Snapshot) returns (r: Result<(), DiskError>)
      requires Tracks(s, t)
      modifies this
      ensures base == old(base)
      ensures old(pending).Some? ==> r == Err(Conflict) && pending == old(pending)
      ensures old(pending).None? ==> (r.Ok? <==> Accepts(t, tx)) && (pending.Some? <==> r.Ok?)
      ensures old(pending).None? && Prepare(t, tx, t.revision + 1).Ok? && r.Err? ==> r.error == CorruptIndex
      ensures old(pending).None? && Prepare(t, tx, t.revision + 1).Err? ==> r.Err? && r.error.Refused?
      ensures old(pending).None? ==> Tracks(t, DiskStep(t, tx))
    {
      hide Prepare, Leads, Stands, AllBuildable, CountsCover, EntryDeltas, PlanOf, MetadataCounts, CountsStayInRange,
           WordCounts, Advances, TargetCounts;
      if pending.Some? { return Err(Conflict); }
      var prepared := PrepareOnProof(base, tx, t);
      if prepared.Err? { return Err(prepared.error); }
      ghost var p := Prepare(t, tx, t.revision + 1).value;
      StandsHead(base, t);
      PreparedIsBuildable(t, tx, p);
      var plan := BuildPlan(prepared.value.prepared, prepared.value.policy, prepared.value.counts);
      if plan.Err? { return Err(plan.error); }
      PlanLeads(base, t, tx, p);
      var c := DiskCommit(prepared.value, plan.value);
      PlanIsPublishable(base, t, tx, p, plan.value);
      if !CanPublish(c) { return Err(Conflict); }
      Publish(c);
      r := Ok(());
    }

    /** Publishes the pending plan's merged root and makes it the base. */
    method PublishPending(ghost s: Snapshot, ghost t: Snapshot) returns (r: Result<(), DiskError>)
      requires Tracks(s, t)
      modifies this
      ensures r.Ok? <==> old(pending).Some?
      ensures Tracks(t, t) && pending.None?
    {
      hide Leads, Stands, MergeAccepted, StreamedDigest, EntriesOf, MetadataCounts, DigestTokens, ApplyDeltas,
           DeltasApply;
      if pending.None? { return Err(RootStateMismatch); }
      TrueMergeIsAccepted(base, pending.value, s, t);
      var plan := pending.value.plan;
      var merged := MergePlan(base, plan);
      if merged.Err? { return Err(CorruptIndex); }
      LeadsHead(base, pending.value, s, t);
      var installed := DiskBase(merged.value.0, merged.value.1, plan.targetCounts, pending.value.targetPolicy);
      var ok := Install(installed);
      r := if ok then Ok(()) else Err(Conflict);
    }

    /** `install_publication`: only the pending plan's own target may replace the base. */
    method Install(publication: DiskBase) returns (ok: bool)
      modifies this
      ensures ok <==> old(pending).Some? && IsTargetOf(publication, old(pending).value)
      ensures ok ==> base == publication && pending.None?
      ensures !ok ==> base == old(base) && pending == old(pending)
    {
      if pending.None? || !IsTargetOf(publication, pending.value) { return false; }
      base, pending := publication, None;
      ok := true;
    }
  }

  predicate IsTargetOf(publication: DiskBase, pending: Pending) {
    && publication.root.revision == pending.plan.revision && publication.root.scope == pending.plan.scope
    && publication.counts == pending.plan.targetCounts && publication.policy == pending.targetPolicy
  }

  lemma LeadsHead(base: DiskBase, pending: Pending, s: Snapshot, t: Snapshot)
    requires Leads(base, pending, s, t)
    ensures pending.plan.scope == t.scope && pending.plan.revision == t.revision
      && pending.plan.targetCounts == MetadataCounts(t)
    ensures pending.targetPolicy == t.policy && ApplyDeltas(EntriesOf(s), pending.plan.deltas) == EntriesOf(t)
  {
    hide Stands, Consistent;
  }

  lemma PlanIsPublishable(base: DiskBase, s: Snapshot, tx: Transaction, p: PreparedGraph, plan: Plan)
    requires Stands(base, s) && Prepare(s, tx, s.revision + 1) == Ok(p)
    requires plan == PlanOf(p, s.policy, MetadataCounts(s), plan.targetCounts)
    ensures base.counts == MetadataCounts(s) && base.policy == s.policy && base.root.scope == s.scope
      && base.root.revision == s.revision
    ensures p.scope == s.scope && p.baseRevision == s.revision && p.basePolicyVersion == PolicyVersion(s.policy)
    ensures plan.scope == p.scope && plan.baseRevision == p.baseRevision && plan.revision == p.revision
      && plan.resultContent == p.resultContent
  {
    hide Prepare, MetadataCounts, DigestTokens, EntriesOf, Consistent;
    PreparedScope(s, tx, p);
  }

  /** A base behind a pending plan is not the committed state. */
  lemma LeadsAway(base: DiskBase, pending: Pending, s: Snapshot, t: Snapshot)
    requires Leads(base, pending, s, t)
    ensures !Stands(base, t)
  {
    hide MetadataCounts, DigestTokens, EntriesOf, Consistent, WordCounts, DeltasApply, ApplyDeltas;
  }

  // What the disk accepts

  /** The reducer accepts the transaction, and no entry count leaves its 64-bit range. */
  ghost predicate Accepts(s: Snapshot, tx: Transaction) {
    var prepared := Prepare(s, tx, s.revision + 1);
    prepared.Ok? && CountsStayInRange(MetadataCounts(s), EntryDeltas(prepared.value, s.policy))
  }

  ghost function DiskStep(s: Snapshot, tx: Transaction): Snapshot {
    if Accepts(s, tx) then Commit(s, tx) else s
  }

  /** No entry count of the two states together exceeds a 64-bit word. */
  ghost predicate Roomy(s: Snapshot, t: Snapshot) {
    |MetadataCounts(s)| == |MetadataCounts(t)| == SLOTS
    && forall slot :: 0 <= slot < SLOTS ==> MetadataCounts(s)[slot] + MetadataCounts(t)[slot] <= MAX_U64
  }

  /** Below half the range of the counters, the disk accepts whatever the reducer accepts. */
  lemma {:induction false} RoomyIsAccepted(s: Snapshot, tx: Transaction)
    requires Consistent(s) && Roomy(s, Commit(s, tx))
    ensures DiskStep(s, tx) == Commit(s, tx) && (Accepts(s, tx) <==> Prepare(s, tx, s.revision + 1).Ok?)
  {
    hide Prepare, Publish, MetadataCounts, EntryDeltas, CountsStayInRange, CountsCover, CountsHaveRoom, Advances,
         Consistent, TargetCounts, AllBuildable;
    match Prepare(s, tx, s.revision + 1)
    case Err(_) =>
    case Ok(p) =>
      PreparedIsBuildable(s, tx, p);
      CommitHasRoom(s, p, Publish(s, p));
      RoomStaysInRange(MetadataCounts(s), EntryDeltas(p, s.policy));
  }

  lemma {:induction false} CommitHasRoom(s: Snapshot, p: PreparedGraph, t: Snapshot)
    requires Advances(s, p, t) && Consistent(s) && Consistent(t) && Roomy(s, t)
    ensures CountsHaveRoom(MetadataCounts(s), EntryDeltas(p, s.policy))
  {
    hide Advances, Consistent, EntriesOf, EntryDeltas, KeysIn, MetadataCounts, Inserted;
    ConsistentIsIndexed(t);
    CountsAreSizes(t);
    forall slot | 0 <= slot < SLOTS ensures |Inserted(EntryDeltas(p, s.policy), slot)| <= MetadataCounts(t)[slot] {
      SizesAt(EntriesOf(t), slot);
      InsertedExists(s, p, t, slot);
    }
  }

  // Whole runs

  /** A state published once from memory. */
  ghost function SeedBase(s: Snapshot): DiskBase {
    DiskBase(Root(s.scope, s.revision, EntriesOf(s)), DigestTokens(s), MetadataCounts(s), s.policy)
  }

  /** The only base that stands for a state is the one published from it. */
  lemma StandsIsSeed(base: DiskBase, s: Snapshot)
    ensures Stands(base, s)
      <==> base == SeedBase(s) && Consistent(s) && s.revision >= 1 && WordCounts(MetadataCounts(s))
  {
    hide EntriesOf, DigestTokens, MetadataCounts, Consistent, WordCounts;
  }

  datatype Event = Submission(tx: Transaction) | Publication

  /** What the machine should be standing for: the committed state, the
      state its base holds, and whether they differ. */
  datatype Logical = Logical(committed: Snapshot, held: Snapshot, pending: bool)

  ghost function LogicalStep(l: Logical, e: Event): Logical {
    match e
    case Submission(tx) =>
      if !l.pending && Accepts(l.committed, tx) then Logical(Commit(l.committed, tx), l.committed, true) else l
    case Publication => Logical(l.committed, l.committed, false)
  }

  ghost function LogicalRun(l: Logical, events: seq<Event>): Logical
    decreases |events|
  {
    if events == [] then l else LogicalStep(LogicalRun(l, events[..|events| - 1]), events[|events| - 1])
  }

  /** For every sequence of submissions and publications: at most one plan is pending, a base is exposed only when it
      is the committed state, and the committed state is always the in-memory reducer's. */
  method Drive(live: GraphDiskLiveState, events: seq<Event>, ghost start: Logical)
    requires live.Tracks(start.held, start.committed) && (live.pending.Some? <==> start.pending)
    modifies live
    ensures live.Tracks(LogicalRun(start, events).held, LogicalRun(start, events).committed)
    ensures live.pending.Some? <==> LogicalRun(start, events).pending
    ensures live.CurrentBase().Some? ==> Stands(live.CurrentBase().value, LogicalRun(start, events).committed)
  {
    hide Accepts, Commit, Stands, Leads;
    for k := 0 to |events|
      invariant live.Tracks(LogicalRun(start, events[..k]).held, LogicalRun(start, events[..k]).committed)
      invariant live.pending.Some? <==> LogicalRun(start, events[..k]).pending
    {
      ghost var l := LogicalRun(start, events[..k]);
      assert events[..k + 1][..k] == events[..k];
      match events[k] {
        case Submission(tx) =>
          var _ := live.Submit(tx, l.held, l.committed);
        case Publication =>
          var _ := live.PublishPending(l.held, l.committed);
      }
    }
    assert events[..|events|] == events;
  }

  lemma RunSnoc(scope: nat, front: seq<Transaction>, tx: Transaction)
    ensures Run(scope, front + [tx]) == Commit(Run(scope, front), tx)
  {
    hide Commit;
    assert (front + [tx])[..|front|] == front;
  }

  ghost function DiskRun(s: Snapshot, txs: seq<Transaction>): Snapshot
    decreases |txs|
  {
    if txs == [] then s else DiskStep(DiskRun(s, txs[..|txs| - 1]), txs[|txs| - 1])
  }

  /** Along the run no two neighbouring states hold more than a 64-bit word of entries in one family. */
  ghost predicate RunIsRoomy(scope: nat, seed: seq<Transaction>, txs: seq<Transaction>) {
    forall k :: 0 <= k < |txs| ==> Roomy(Run(scope, seed + txs[..k]), Run(scope, seed + txs[..k + 1]))
  }

  /** Commits every transaction in turn: load the proof, prepare, plan, merge, install. The base is then the state the
      disk has accepted, with exactly its families, counts, policy and digest. */
  method CommitAll(live: GraphDiskLiveState, txs: seq<Transaction>, ghost s: Snapshot)
    requires live.pending.None? && Stands(live.base, s)
    modifies live
    ensures live.pending.None? && Stands(live.base, DiskRun(s, txs))
  {
    hide Accepts, Commit, Stands, Leads;
    for k := 0 to |txs|
      invariant live.pending.None? && Stands(live.base, DiskRun(s, txs[..k]))
    {
      ghost var t := DiskRun(s, txs[..k]);
      assert txs[..k + 1][..k] == txs[..k];
      var accepted := live.Submit(txs[k], t, t);
      if accepted.Ok? {
        var _ := live.PublishPending(t, DiskStep(t, txs[k]));
      }
    }
    assert txs[..|txs|] == txs;
  }

  /** Below half the range of the counters, the disk's run is the in-memory run. */
  lemma {:induction false} DiskRunIsRun(scope: nat, seed: seq<Transaction>, txs: seq<Transaction>)
    requires RunIsRoomy(scope, seed, txs)
    ensures DiskRun(Run(scope, seed), txs) == Run(scope, seed + txs)
    decreases |txs|
  {
    hide Run, DiskStep, Commit, Roomy, Consistent;
    if txs == [] {
      assert seed + txs == seed;
    } else {
      var n := |txs| - 1;
      var front := txs[..n];
      assert forall k :: 0 <= k <= n ==> front[..k] == txs[..k];
      DiskRunIsRun(scope, seed, front);
      assert txs[..n + 1] == txs && seed + txs == (seed + front) + [txs[n]];
      RunSnoc(scope, seed + front, txs[n]);
      EveryRunIsConsistent(scope, seed + front);
      RoomyIsAccepted(Run(scope, seed + front), txs[n]);
    }
  }

  /** Refinement over whole runs: publishing a run from memory and committing more transactions on disk gives exactly
      the base that committing them in memory and then publishing would have given. */
  method SeedAndCommitAll(base: DiskBase, txs: seq<Transaction>, ghost scope: nat, ghost seed: seq<Transaction>)
      returns (live: GraphDiskLiveState)
    requires base == SeedBase(Run(scope, seed)) && Run(scope, seed).revision >= 1
      && WordCounts(MetadataCounts(Run(scope, seed)))
    ensures fresh(live) && live.pending.None?
    ensures live.base == SeedBase(DiskRun(Run(scope, seed), txs))
    ensures RunIsRoomy(scope, seed, txs) ==> live.base == SeedBase(Run(scope, seed + txs))
  {
    hide Run, DiskRun, Stands, SeedBase, RunIsRoomy, WordCounts, MetadataCounts, Consistent;
    EveryRunIsConsistent(scope, seed);
    StandsIsSeed(base, Run(scope, seed));
    live := new GraphDiskLiveState(base);
    CommitAll(live, txs, Run(scope, seed));
    StandsIsSeed(live.base, DiskRun(Run(scope, seed), txs));
    if RunIsRoomy(scope, seed, txs) { DiskRunIsRun(scope, seed, txs); }
  }
}
