/** The invariant of every reachable graph state: valid records, exact indexes, well-formed histories whose
    references held when they were recorded, and a monotone policy history. */
module Invariant {
  import opened Base
  import opened Records
  import opened References
  import opened Reducer
  import opened Operations
  import opened Integrity
  import opened Publication

  // Current records

  ghost predicate ValidIn(scope: nat, id: RecordRef, records: map<RecordRef, Record>)
    requires id in records
  {
    id.scope == scope && WellShaped(scope, records[id]) && ReferencesHold(records[id], records)
  }

  ghost predicate AllValid(scope: nat, records: map<RecordRef, Record>) {
    forall id :: id in records ==> ValidIn(scope, id, records)
  }

  lemma {:induction false} ChangedAreValid(scope: nat, records: map<RecordRef, Record>, affected: set<RecordRef>,
      id: RecordRef)
    requires ValidateChanged(scope, records, affected).Ok? && id in affected
    ensures id in records && ValidIn(scope, id, records)
  {
    assert id in Sorted(affected);
    if id in records {
      ValidateRecordMeaning(scope, id, records[id], records);
    }
  }

  lemma ReferenceSurvives(base: map<RecordRef, Record>, changed: map<RecordRef, Record>, revision: nat, id: RecordRef)
    requires AllLegal(base, changed, revision) && id in base
    ensures var view := base + changed;
      && (base[id].Evidence? ==> view[id].Evidence?)
      && (base[id].Entity? ==> view[id].Entity?)
      && (base[id].Claim? ==> view[id].Claim? && view[id].body == base[id].body)
  {
  }

  /** A record the commit did not touch still refers only to records that are there, visible and of the right kind. */
  lemma {:induction false} UnchangedStaysValid(base: map<RecordRef, Record>, changed: map<RecordRef, Record>,
      revision: nat, w: RecordRef)
    requires AllLegal(base, changed, revision) && NoDangling(base, changed)
    requires w in base && w !in changed && ReferencesHold(base[w], base)
    ensures ReferencesHold(base[w], base + changed)
  {
    forall id | id in base ensures var view := base + changed;
      && (base[id].Evidence? ==> view[id].Evidence?)
      && (base[id].Entity? ==> view[id].Entity?)
      && (base[id].Claim? ==> view[id].Claim? && view[id].body == base[id].body)
    {
      ReferenceSurvives(base, changed, revision, id);
    }
  }

  lemma {:induction false} OverlayKeepsValid(s: Snapshot, p: Progress, revision: nat)
    requires LoopInvariant(s, p, revision) && AllValid(s.scope, s.records)
    requires ValidateChanged(s.scope, p.overlay.View(), p.affected).Ok?
    ensures AllValid(s.scope, s.records + p.overlay.changed)
  {
    var view := s.records + p.overlay.changed;
    forall id | id in view ensures ValidIn(s.scope, id, view) {
      if id in p.affected {
        ChangedAreValid(s.scope, view, p.affected, id);
      } else {
        UnchangedStaysValid(s.records, p.overlay.changed, revision, id);
      }
    }
  }

  // Histories

  function RecordedRevision(r: Record): nat {
    if r.Claim? then r.recorded else r.created
  }

  ghost predicate HistoricalShape(scope: nat, r: Record) {
    && r.id.scope == scope
    && WellShaped(scope, r)
    && RecordedRevision(r) <= r.ModifiedRevision()
    && (r.Claim? && r.correctionOf.Some? ==> r.correctionOf.value.scope == scope)
  }

  /** Versions 1..n of one record, each a legal successor of the one before, at strictly increasing revisions. */
  ghost predicate GoodHistory(scope: nat, id: RecordRef, versions: seq<Record>, revision: nat) {
    && versions != []
    && FirstVersion(versions[0])
    && (forall k :: 0 <= k < |versions| ==>
          && versions[k].id == id && versions[k].version == k + 1
          && 1 <= versions[k].ModifiedRevision() <= revision
          && HistoricalShape(scope, versions[k]))
    && (forall k :: 0 < k < |versions| ==>
          NextVersion(versions[k - 1], versions[k])
            && versions[k - 1].ModifiedRevision() < versions[k].ModifiedRevision())
  }

  ghost predicate HistoriesKept(s: Snapshot) {
    && s.history.Keys == s.records.Keys
    && forall id :: id in s.history ==>
         && GoodHistory(s.scope, id, s.history[id], s.revision)
         && s.history[id][|s.history[id]| - 1] == s.records[id]
  }

  lemma ChangeShape(scope: nat, before: Option<Record>, after: Record, id: RecordRef, revision: nat,
      records: map<RecordRef, Record>)
    requires LegalChange(before, after, id, revision)
    requires before.Some? ==> HistoricalShape(scope, before.value) && before.value.ModifiedRevision() <= revision
    requires id in records && records[id] == after && ValidIn(scope, id, records) && AllValid(scope, records)
    ensures HistoricalShape(scope, after)
  {
  }

  lemma {:induction false} ExtendHistory(scope: nat, id: RecordRef, versions: seq<Record>, revision: nat, after: Record)
    requires versions == [] || GoodHistory(scope, id, versions, revision)
    requires LegalChange(if versions == [] then None else Some(versions[|versions| - 1]), after, id, revision + 1)
    requires HistoricalShape(scope, after)
    ensures GoodHistory(scope, id, versions + [after], revision + 1)
  {
  }

  lemma {:induction false} HistoriesStayKept(s: Snapshot, changed: map<RecordRef, Record>, t: Snapshot)
    requires HistoriesKept(s) && AllLegal(s.records, changed, s.revision + 1)
    requires PublishedOverlay(s, changed, t) && t.revision == s.revision + 1 && AllValid(t.scope, t.records)
    ensures HistoriesKept(t)
  {
    hide HistoriesKept, AllValid, AllLegal, HistoryKept;
    assert t.history.Keys == t.records.Keys by { KeptKeys(s); }
    forall id | id in t.history ensures HistoryKept(t, id) {
      if id in changed {
        ChangedHistoryStaysKept(s, changed, t, id);
      } else {
        OldHistoryStaysKept(s, changed, t, id);
      }
    }
    AllHistoriesKept(t);
  }

  ghost predicate HistoryKept(s: Snapshot, id: RecordRef)
    requires id in s.history
  {
    GoodHistory(s.scope, id, s.history[id], s.revision)
      && Lookup(s.records, id) == Some(s.history[id][|s.history[id]| - 1])
  }

  lemma KeptKeys(s: Snapshot)
    requires HistoriesKept(s)
    ensures s.history.Keys == s.records.Keys
  {
    hide GoodHistory;
  }

  lemma AllHistoriesKept(s: Snapshot)
    requires s.history.Keys == s.records.Keys && forall id :: id in s.history ==> HistoryKept(s, id)
    ensures HistoriesKept(s)
  {
    hide HistoricalShape, FirstVersion, NextVersion;
  }

  lemma {:induction false} ChangedHistoryStaysKept(s: Snapshot, changed: map<RecordRef, Record>, t: Snapshot,
      id: RecordRef)
    requires HistoriesKept(s) && AllLegal(s.records, changed, s.revision + 1) && id in changed
    requires PublishedOverlay(s, changed, t) && t.revision == s.revision + 1 && AllValid(t.scope, t.records)
    ensures id in t.history && HistoryKept(t, id)
  {
    hide HistoriesKept, AllValid, GoodHistory, HistoricalShape, LegalChange;
    var versions := VersionsOf(s.history, id);
    LatestVersion(s, id);
    assert LegalChange(Lookup(s.records, id), changed[id], id, t.revision);
    assert ValidIn(t.scope, id, t.records) by { ValidAt(t.scope, t.records, id); }
    ChangeShape(t.scope, Lookup(s.records, id), changed[id], id, t.revision, t.records);
    ExtendHistory(s.scope, id, versions, s.revision, changed[id]);
  }

  /** The last version of a record's history is the record itself. */
  lemma LatestVersion(s: Snapshot, id: RecordRef)
    requires HistoriesKept(s)
    ensures var versions := VersionsOf(s.history, id);
      && Lookup(s.records, id) == (if versions == [] then None else Some(versions[|versions| - 1]))
      && (versions != [] ==>
           && GoodHistory(s.scope, id, versions, s.revision)
           && HistoricalShape(s.scope, versions[|versions| - 1])
           && versions[|versions| - 1].ModifiedRevision() <= s.revision)
  {
    hide HistoricalShape, FirstVersion, NextVersion;
    if id in s.history { assert GoodHistory(s.scope, id, s.history[id], s.revision); }
  }

  lemma ValidAt(scope: nat, records: map<RecordRef, Record>, id: RecordRef)
    requires AllValid(scope, records) && id in records
    ensures ValidIn(scope, id, records)
  {
    hide ValidIn;
  }

  lemma OldHistoryStaysKept(s: Snapshot, changed: map<RecordRef, Record>, t: Snapshot, id: RecordRef)
    requires HistoriesKept(s) && PublishedOverlay(s, changed, t) && t.revision == s.revision + 1 && id in s.history
      && id !in changed
    ensures id in t.history && HistoryKept(t, id)
  {
    hide GoodHistory;
    LaterHistory(s.scope, id, s.history[id], s.revision);
  }

  lemma LaterHistory(scope: nat, id: RecordRef, versions: seq<Record>, revision: nat)
    requires GoodHistory(scope, id, versions, revision)
    ensures GoodHistory(scope, id, versions, revision + 1)
  {
    hide HistoricalShape, FirstVersion, NextVersion;
  }

  // Time travel

  /** At its own revision a state's history shows its current records. */
  lemma RecordAtNow(s: Snapshot, id: RecordRef)
    requires HistoriesKept(s)
    ensures RecordAt(s.history, id, s.revision) == Lookup(s.records, id)
  {
  }

  /** A later commit never changes what an earlier revision shows. */
  lemma {:induction false} RecordAtStable(history: map<RecordRef, seq<Record>>, changed: map<RecordRef, Record>,
      id: RecordRef, revision: nat)
    requires forall c :: c in changed ==> changed[c].ModifiedRevision() > revision
    ensures RecordAt(AppendVersions(history, changed), id, revision) == RecordAt(history, id, revision)
  {
    if id in changed {
      var versions := VersionsOf(history, id);
      var extended := versions + [changed[id]];
      assert extended[..|extended| - 1] == versions;
      assert LastAt(extended, revision) == LastAt(versions, revision);
    }
  }

  // References at the revision they were recorded

  datatype RequiredKind =
    AnyVisible | ActiveEntity | EvidenceOnly | AnyClaim(kind: ClaimKind) | AcceptedClaim(kind: ClaimKind)

  /** `reference_requirement_matches`. */
  predicate RequirementMatches(kind: RequiredKind, record: Option<Record>) {
    record.Some? &&
    match kind
    case AnyVisible => record.value.IsVisible()
    case ActiveEntity => record.value.IsActiveEntity()
    case EvidenceOnly => record.value.Evidence?
    case AnyClaim(k) => record.value.IsClaim(k)
    case AcceptedClaim(k) => record.value.IsClaim(k) && record.value.status == Accepted
  }

  ghost predicate AllMet(history: map<RecordRef, seq<Record>>, ids: seq<RecordRef>, revision: nat, kind: RequiredKind) {
    forall id :: id in ids ==> RequirementMatches(kind, RecordAt(history, id, revision))
  }

  /** What the first version of a record needed when it was recorded; a
      corrected claim was accepted one revision earlier. */
  ghost predicate FirstReferencesHeld(history: map<RecordRef, seq<Record>>, r: Record) {
    match r
    case Entity(_, _, _, _, _, properties, _, modified) =>
      AllMet(history, ValueReferences(properties), modified, AnyVisible)
    case Evidence(_, _, _, _, _) => true
    case Claim(_, _, body, evidence, _, _, correctionOf, recorded, _) =>
      && AllMet(history, body.Endpoints(), recorded, ActiveEntity)
      && AllMet(history, ValueReferences(body.Payload()), recorded, AnyVisible)
      && AllMet(history, evidence, recorded, EvidenceOnly)
      && (correctionOf.Some? ==>
            recorded > 1 && RequirementMatches(AcceptedClaim(body.Kind()),
              RecordAt(history, correctionOf.value, recorded - 1)))
  }

  ghost predicate SuccessorReferencesHeld(history: map<RecordRef, seq<Record>>, r: Record) {
    r.IsActiveEntity() ==> AllMet(history, ValueReferences(r.properties), r.modified, AnyVisible)
  }

  ghost predicate VersionsHeld(history: map<RecordRef, seq<Record>>, versions: seq<Record>) {
    && (versions != [] ==> FirstReferencesHeld(history, versions[0]))
    && (forall k :: 0 < k < |versions| ==> SuccessorReferencesHeld(history, versions[k]))
  }

  /** `validate_historical_reference_closure`. */
  ghost predicate HistoricallyClosed(history: map<RecordRef, seq<Record>>) {
    forall id :: id in history ==> VersionsHeld(history, history[id])
  }

  lemma {:induction false} MetStaysMet(history: map<RecordRef, seq<Record>>, changed: map<RecordRef, Record>,
      ids: seq<RecordRef>, revision: nat, kind: RequiredKind)
    requires forall c :: c in changed ==> changed[c].ModifiedRevision() > revision
    requires AllMet(history, ids, revision, kind)
    ensures AllMet(AppendVersions(history, changed), ids, revision, kind)
  {
    forall id | id in ids ensures RequirementMatches(kind, RecordAt(AppendVersions(history, changed), id, revision)) {
      RecordAtStable(history, changed, id, revision);
    }
  }

  lemma {:induction false} VersionsStayHeld(history: map<RecordRef, seq<Record>>, changed: map<RecordRef, Record>,
      versions: seq<Record>, revision: nat)
    requires forall c :: c in changed ==> changed[c].ModifiedRevision() > revision
    requires forall k :: 0 <= k < |versions| ==>
      RecordedRevision(versions[k]) <= versions[k].ModifiedRevision() <= revision
    requires VersionsHeld(history, versions)
    ensures VersionsHeld(AppendVersions(history, changed), versions)
  {
    if versions != [] {
      var r := versions[0];
      match r {
        case Entity(_, _, _, _, _, properties, _, modified) =>
          MetStaysMet(history, changed, ValueReferences(properties), modified, AnyVisible);
        case Evidence(_, _, _, _, _) =>
        case Claim(_, _, body, evidence, _, _, correctionOf, recorded, _) =>
          MetStaysMet(history, changed, body.Endpoints(), recorded, ActiveEntity);
          MetStaysMet(history, changed, ValueReferences(body.Payload()), recorded, AnyVisible);
          MetStaysMet(history, changed, evidence, recorded, EvidenceOnly);
          if correctionOf.Some? {
            RecordAtStable(history, changed, correctionOf.value, recorded - 1);
          }
      }
    }
    forall k | 0 < k < |versions| ensures SuccessorReferencesHeld(AppendVersions(history, changed), versions[k]) {
      if versions[k].IsActiveEntity() {
        MetStaysMet(history, changed, ValueReferences(versions[k].properties), versions[k].modified, AnyVisible);
      }
    }
  }

  lemma MetNow(t: Snapshot, ids: seq<RecordRef>)
    requires HistoriesKept(t)
    ensures AllVisible(t.records, ids) ==> AllMet(t.history, ids, t.revision, AnyVisible)
    ensures AllActive(t.records, ids) ==> AllMet(t.history, ids, t.revision, ActiveEntity)
    ensures AllEvidence(t.records, ids) ==> AllMet(t.history, ids, t.revision, EvidenceOnly)
  {
    hide HistoriesKept, RecordAt;
    forall id | id in ids ensures RecordAt(t.history, id, t.revision) == Lookup(t.records, id) { RecordAtNow(t, id); }
  }

  /** The version a commit writes meets its own reference requirements at that commit. */
  lemma {:induction false} WrittenReferencesHold(t: Snapshot, r: Record)
    requires HistoriesKept(t) && r.ModifiedRevision() == t.revision && ReferencesHold(r, t.records)
    ensures SuccessorReferencesHeld(t.history, r)
    ensures FirstVersion(r) && (r.Claim? ==> r.correctionOf.None?) ==> FirstReferencesHeld(t.history, r)
    ensures FirstVersion(r) && r.Claim? && r.correctionOf.Some? && t.revision > 1
        && RequirementMatches(AcceptedClaim(r.body.Kind()), RecordAt(t.history, r.correctionOf.value, t.revision - 1))
        ==> FirstReferencesHeld(t.history, r)
  {
    match r
    case Entity(_, _, _, _, _, properties, _, _) => MetNow(t, ValueReferences(properties));
    case Evidence(_, _, _, _, _) =>
    case Claim(_, _, body, evidence, _, _, _, _, _) =>
      MetNow(t, body.Endpoints());
      MetNow(t, ValueReferences(body.Payload()));
      MetNow(t, evidence);
  }

  lemma {:induction false} UntouchedRecordAt(s: Snapshot, changed: map<RecordRef, Record>, id: RecordRef)
    requires HistoriesKept(s) && AllLegal(s.records, changed, s.revision + 1) && id in s.records
    ensures s.revision >= 1 && RecordAt(AppendVersions(s.history, changed), id, s.revision) == Some(s.records[id])
  {
    RecordAtStable(s.history, changed, id, s.revision);
    RecordAtNow(s, id);
    assert GoodHistory(s.scope, id, s.history[id], s.revision);
  }

  /** A correction's target was an accepted claim of its kind one revision before the correction was recorded. */
  lemma {:induction false} CorrectionTargetHeld(s: Snapshot, p: Progress, t: Snapshot, id: RecordRef)
    requires HistoriesKept(s) && LoopInvariant(s, p, s.revision + 1)
    requires t.history == AppendVersions(s.history, p.overlay.changed)
    requires id in p.overlay.changed && id !in s.records && p.overlay.changed[id].Claim?
      && p.overlay.changed[id].correctionOf.Some?
    ensures var r := p.overlay.changed[id];
      s.revision >= 1 && RequirementMatches(AcceptedClaim(r.body.Kind()),
        RecordAt(t.history, r.correctionOf.value, s.revision))
  {
    hide NoDangling, HistoriesKept, AllLegal, AppendVersions, RecordAt;
    UntouchedRecordAt(s, p.overlay.changed, p.overlay.changed[id].correctionOf.value);
  }

  lemma {:induction false} NewVersionHeld(s: Snapshot, p: Progress, t: Snapshot, id: RecordRef)
    requires HistoriesKept(s) && LoopInvariant(s, p, s.revision + 1)
    requires PublishedOverlay(s, p.overlay.changed, t) && t.revision == s.revision + 1
    requires HistoriesKept(t) && AllValid(t.scope, t.records)
    requires id in p.overlay.changed
    ensures SuccessorReferencesHeld(t.history, p.overlay.changed[id])
    ensures id !in s.records ==> FirstReferencesHeld(t.history, p.overlay.changed[id])
  {
    hide HistoriesKept, NoDangling, CorrectsAccepted, SuccessorReferencesHeld, FirstReferencesHeld, AppendVersions,
         RecordAt;
    var r := p.overlay.changed[id];
    assert ValidIn(t.scope, id, t.records);
    if id !in s.records && r.Claim? && r.correctionOf.Some? {
      CorrectionTargetHeld(s, p, t, id);
    }
    WrittenReferencesHold(t, r);
  }

  lemma {:induction false} OldVersionsHeld(s: Snapshot, changed: map<RecordRef, Record>, id: RecordRef)
    requires HistoriesKept(s) && HistoricallyClosed(s.history) && AllLegal(s.records, changed, s.revision + 1)
    requires id in s.history
    ensures s.history[id] != [] && VersionsHeld(AppendVersions(s.history, changed), s.history[id])
  {
    hide VersionsHeld, AppendVersions;
    assert GoodHistory(s.scope, id, s.history[id], s.revision);
    VersionsStayHeld(s.history, changed, s.history[id], s.revision);
  }

  lemma ExtendHeld(history: map<RecordRef, seq<Record>>, versions: seq<Record>, r: Record)
    requires versions != [] ==> VersionsHeld(history, versions) && SuccessorReferencesHeld(history, r)
    requires versions == [] ==> FirstReferencesHeld(history, r)
    ensures VersionsHeld(history, versions + [r])
  {
    hide FirstReferencesHeld, SuccessorReferencesHeld;
  }

  lemma {:induction false} ClosureStays(s: Snapshot, p: Progress, t: Snapshot)
    requires HistoriesKept(s) && HistoricallyClosed(s.history) && LoopInvariant(s, p, s.revision + 1)
    requires PublishedOverlay(s, p.overlay.changed, t) && t.revision == s.revision + 1
    requires HistoriesKept(t) && AllValid(t.scope, t.records)
    ensures HistoricallyClosed(t.history)
  {
    hide NoDangling, CorrectsAccepted, AllLegal, SuccessorReferencesHeld, FirstReferencesHeld, AllValid, VersionsHeld,
         GoodHistory;
    var changed := p.overlay.changed;
    forall id | id in t.history ensures VersionsHeld(t.history, t.history[id]) {
      if id in s.history {
        OldVersionsHeld(s, changed, id);
      }
      if id in changed {
        NewVersionHeld(s, p, t, id);
        ExtendHeld(t.history, VersionsOf(s.history, id), changed[id]);
      }
    }
  }

  // Policy

  /** The policy in force at `revision`: the newest one recorded no later. */
  function PolicyAt(policies: map<nat, NamespacePolicy>, revision: nat): Option<NamespacePolicy> {
    if revision in policies then Some(policies[revision])
    else if revision == 0 then None
    else PolicyAt(policies, revision - 1)
  }

  ghost predicate VersionsRiseWithRevisions(policies: map<nat, NamespacePolicy>) {
    forall r, q :: r in policies && q in policies && r < q ==> policies[r].version < policies[q].version
  }

  ghost predicate PoliciesKept(s: Snapshot) {
    && (forall r :: r in s.policyHistory ==> 1 <= r <= s.revision && s.policyHistory[r].scope == s.scope)
    && VersionsRiseWithRevisions(s.policyHistory)
    && PolicyAt(s.policyHistory, s.revision) == s.policy
  }

  /** Policies recorded later do not change what an earlier revision shows. */
  lemma {:induction false} PolicyAtStable(policies: map<nat, NamespacePolicy>, later: nat, policy: NamespacePolicy,
      revision: nat)
    requires revision < later
    ensures PolicyAt(policies[later := policy], revision) == PolicyAt(policies, revision)
  {
    if revision > 0 {
      PolicyAtStable(policies, later, policy, revision - 1);
    }
  }

  lemma {:induction false} PolicyAtIsNewest(policies: map<nat, NamespacePolicy>, revision: nat, r: nat)
    requires r in policies && r <= revision
    ensures PolicyAt(policies, revision).Some?
    ensures exists q :: q in policies && r <= q <= revision && PolicyAt(policies, revision) == Some(policies[q])
  {
    if revision !in policies {
      PolicyAtIsNewest(policies, revision - 1, r);
    }
  }

  lemma {:induction false} PublishedPolicy(s: Snapshot, tx: Transaction, p: PreparedGraph)
    requires Indexed(s) && Prepare(s, tx, s.revision + 1) == Ok(p)
    ensures var t := Publish(s, p);
      && t.scope == s.scope && t.revision == s.revision + 1
      && t.policy == NextPolicy(p.policyChange, s.policy)
      && t.policyHistory == (if p.policyChange.Some? then s.policyHistory[t.revision := p.policyChange.value]
         else s.policyHistory)
  {
    hide *;
    var _ := PreparedParts(s, tx, p);
    PreparedIsPublishable(s, tx, p);
    PublishChangesExact(s, p.changes);
    PublishedHead(s, p);
  }

  /** Publication moves the revision on and records a changed policy under it. */
  lemma PublishedHead(s: Snapshot, p: PreparedGraph)
    requires PublishedExactly(s, p.changes, PublishChanges(s, p.changes))
    ensures var t := Publish(s, p);
      && t.scope == s.scope && t.revision == p.revision
      && t.policy == NextPolicy(p.policyChange, s.policy)
      && t.policyHistory
         == (if p.policyChange.Some? then s.policyHistory[p.revision := p.policyChange.value] else s.policyHistory)
  {
    hide PublishChanges;
  }

  lemma {:induction false} PoliciesStayKept(s: Snapshot, tx: Transaction, p: PreparedGraph)
    requires PoliciesKept(s) && Indexed(s) && Prepare(s, tx, s.revision + 1) == Ok(p)
    ensures PoliciesKept(Publish(s, p))
  {
    hide Prepare, Publish, Indexed, PoliciesKept, ValidatePolicyMutation;
    PublishedPolicy(s, tx, p);
    var _ := PreparedParts(s, tx, p);
    MutationKeepsPolicies(s, tx, Publish(s, p));
  }

  lemma {:induction false} MutationKeepsPolicies(s: Snapshot, tx: Transaction, t: Snapshot)
    requires PoliciesKept(s) && ValidatePolicyMutation(s.scope, s.policy, tx.policyMutation).Ok?
    requires t.scope == s.scope && t.revision == s.revision + 1
      && t.policy == NextPolicy(PolicyAfter(tx.policyMutation), s.policy)
    requires t.policyHistory == (if tx.policyMutation.Some?
      then s.policyHistory[t.revision := tx.policyMutation.value.policy] else s.policyHistory)
    ensures PoliciesKept(t)
  {
    hide VersionsRiseWithRevisions, PolicyAt, ValidatePolicyMutation;
    if tx.policyMutation.Some? {
      var policy := tx.policyMutation.value.policy;
      NewPolicyIsNewest(s, tx, policy);
      PolicyAdded(s.policyHistory, t.revision, policy);
    } else {
      PolicyStands(s.policyHistory, t.revision);
    }
  }

  /** An accepted policy mutation installs a higher version than any recorded before. */
  lemma {:induction false} NewPolicyIsNewest(s: Snapshot, tx: Transaction, policy: NamespacePolicy)
    requires PoliciesKept(s) && ValidatePolicyMutation(s.scope, s.policy, tx.policyMutation).Ok?
      && PolicyAfter(tx.policyMutation) == Some(policy)
    ensures policy.scope == s.scope && forall r :: r in s.policyHistory ==> s.policyHistory[r].version < policy.version
  {
    forall r | r in s.policyHistory ensures s.policyHistory[r].version < policy.version {
      PolicyAtIsNewest(s.policyHistory, s.revision, r);
    }
  }

  lemma PolicyAdded(policies: map<nat, NamespacePolicy>, revision: nat, policy: NamespacePolicy)
    requires VersionsRiseWithRevisions(policies)
    requires forall r :: r in policies ==> r < revision && policies[r].version < policy.version
    ensures VersionsRiseWithRevisions(policies[revision := policy])
      && PolicyAt(policies[revision := policy], revision) == Some(policy)
  {
  }

  lemma PolicyStands(policies: map<nat, NamespacePolicy>, revision: nat)
    requires 0 < revision && revision !in policies
    ensures PolicyAt(policies, revision) == PolicyAt(policies, revision - 1)
  {
  }

  // Every run

  /** Everything a reachable state keeps. */
  ghost predicate Consistent(s: Snapshot) {
    && Indexed(s) && IndexesMatch(s)
    && AllValid(s.scope, s.records)
    && HistoriesKept(s)
    && HistoricallyClosed(s.history)
    && PoliciesKept(s)
  }

  lemma NewIsConsistent(scope: nat)
    ensures Consistent(NewSnapshot(scope))
  {
  }

  /** One accepted transaction keeps the whole invariant, though it validated only what it changed. */
  lemma {:induction false} CommitKeepsConsistent(s: Snapshot, tx: Transaction, p: PreparedGraph)
    requires Consistent(s) && Prepare(s, tx, s.revision + 1) == Ok(p)
    ensures Consistent(Publish(s, p))
  {
    hide Publish, Prepare, RunOperations, ValidateChanged, Indexed, IndexesMatch, AllValid, HistoriesKept,
         HistoricallyClosed, PoliciesKept;
    hide NoDangling, CorrectsAccepted;
    var t := Publish(s, p);
    var progress := CommitPublishesOverlay(s, tx, p);
    CommitKeepsIndexes(s, tx, p);
    OverlayKeepsValid(s, progress, s.revision + 1);
    HistoriesStayKept(s, progress.overlay.changed, t);
    ClosureStays(s, progress, t);
    PoliciesStayKept(s, tx, p);
  }

  lemma CommitAdvances(s: Snapshot, tx: Transaction, p: PreparedGraph)
    requires Consistent(s) && Prepare(s, tx, s.revision + 1) == Ok(p)
    ensures Publish(s, p).scope == s.scope && Publish(s, p).revision == s.revision + 1
  {
    PublishedPolicy(s, tx, p);
  }

  /** Referential integrity, exact indexes, legal histories and closure hold in every reachable state. */
  lemma {:induction false} EveryRunIsConsistent(scope: nat, txs: seq<Transaction>)
    ensures Consistent(Run(scope, txs)) && Run(scope, txs).scope == scope
    decreases |txs|
  {
    hide Consistent, Prepare, Publish;
    if txs == [] {
      NewIsConsistent(scope);
    } else {
      var s, tx := Run(scope, txs[..|txs| - 1]), txs[|txs| - 1];
      EveryRunIsConsistent(scope, txs[..|txs| - 1]);
      match Prepare(s, tx, s.revision + 1)
      case Ok(p) =>
        CommitKeepsConsistent(s, tx, p);
        CommitAdvances(s, tx, p);
      case Err(_) =>
    }
  }
}
