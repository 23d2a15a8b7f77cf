/** Rebuilding a graph state from persisted families: the restore checks, and exactly which states pass them
    (crates/uste-graph/src/state.rs:1043-1126, 1201-1689). */
module Restore {
  import opened Base
  import opened Records
  import opened Index
  import opened References
  import opened Reducer
  import opened Operations
  import opened Integrity
  import opened Publication
  import opened Invariant
  import opened Runs

  // Shape of one version

  /** `validate_historical_references`: in scope, and no reference met twice. */
  predicate UniqueInScope(scope: nat, ids: seq<RecordRef>, seen: set<RecordRef>) {
    ids == [] || (ids[0].scope == scope && ids[0] !in seen && UniqueInScope(scope, ids[1..], seen + {ids[0]}))
  }

  lemma {:induction false} UniqueInScopeMeaning(scope: nat, ids: seq<RecordRef>, seen: set<RecordRef>)
    ensures UniqueInScope(scope, ids, seen)
      <==> AllInScope(scope, ids) && Distinct(ids) && forall id :: id in ids ==> id !in seen
  {
    if ids != [] {
      UniqueInScopeMeaning(scope, ids[1..], seen + {ids[0]});
      assert ids == [ids[0]] + ids[1..];
      assert forall i :: 0 < i < |ids| ==> ids[i] == ids[1..][i - 1];
    }
  }

  predicate ShapeAccepted(scope: nat, r: Record) {
    && r.id.scope == scope
    && match r
       case Entity(_, _, _, _, schemaVersion, properties, created, modified) =>
         schemaVersion != 0 && created <= modified && ValidateValueScope(scope, properties).Ok?
       case Evidence(_, _, _, _, _) => true
       case Claim(_, _, body, evidence, _, validTime, correctionOf, recorded, modified) =>
         && recorded <= modified && evidence != [] && validTime.IsValid()
         && FirstFailure(body.Endpoints(), e => CheckScope(scope, e)).Ok?
         && ValidateValueScope(scope, body.Payload()).Ok?
         && UniqueInScope(scope, evidence, {})
         && (correctionOf.Some? ==> correctionOf.value.scope == scope)
  }

  lemma ShapeMeaning(scope: nat, r: Record)
    ensures ShapeAccepted(scope, r) <==> HistoricalShape(scope, r)
  {
    if r.Claim? {
      UniqueInScopeMeaning(scope, r.evidence, {});
    }
  }

  // Shape of one history

  predicate FirstAccepted(scope: nat, r: Record) {
    && ShapeAccepted(scope, r)
    && match r
       case Entity(_, _, active, _, _, _, created, modified) => active && created == modified
       case Evidence(_, version, _, _, _) => version == 1
       case Claim(_, _, _, _, status, _, _, recorded, modified) => status == Proposed && recorded == modified
  }

  predicate SuccessorAccepted(scope: nat, previous: Record, next: Record) {
    && ShapeAccepted(scope, next)
    && previous.id == next.id
    && match (previous, next)
       case (Entity(_, _, wasActive, type0, schema0, properties0, created0, _),
         Entity(_, _, active, type1, schema1, properties1, created1, _)) =>
         type0 == type1 && schema0 == schema1 && created0 == created1 && wasActive
           && (active || properties0 == properties1)
       case (Claim(_, _, body0, evidence0, status0, time0, correction0, recorded0, _),
         Claim(_, _, body1, evidence1, status1, time1, correction1, recorded1, _)) =>
         && body0 == body1 && evidence0 == evidence1 && time0 == time1 && correction0 == correction1
         && recorded0 == recorded1
         && ValidTransition(status0, status1)
       case _ => false
  }

  predicate RecordHistoryAccepted(scope: nat, versions: seq<Record>) {
    && versions != []
    && FirstAccepted(scope, versions[0])
    && forall k :: 0 < k < |versions| ==> SuccessorAccepted(scope, versions[k - 1], versions[k])
  }

  /** The check made of the version at `index` while its history is walked. */
  predicate VersionAccepted(id: RecordRef, versions: seq<Record>, index: nat, revision: nat)
    requires index < |versions|
  {
    && versions[index].id == id
    && versions[index].version == index + 1
    && versions[index].ModifiedRevision() <= revision
    && (index > 0 ==> versions[index - 1].ModifiedRevision() < versions[index].ModifiedRevision())
  }

  predicate HistoryAccepted(scope: nat, revision: nat, id: RecordRef, versions: seq<Record>) {
    && (forall k :: 0 <= k < |versions| ==> VersionAccepted(id, versions, k, revision))
    && RecordHistoryAccepted(scope, versions)
  }

  /** Revisions are never zero in the source's types. */
  ghost predicate Dated(versions: seq<Record>) {
    forall k :: 0 <= k < |versions| ==> versions[k].ModifiedRevision() >= 1
  }

  ghost predicate GoodAt(scope: nat, revision: nat, id: RecordRef, versions: seq<Record>, k: nat)
    requires k < |versions|
  {
    && versions[k].id == id && versions[k].version == k + 1
    && 1 <= versions[k].ModifiedRevision() <= revision
    && HistoricalShape(scope, versions[k])
    && (if k == 0 then FirstVersion(versions[0])
        else
          && NextVersion(versions[k - 1], versions[k])
          && versions[k - 1].ModifiedRevision() < versions[k].ModifiedRevision())
  }

  lemma VersionMeaning(scope: nat, revision: nat, id: RecordRef, versions: seq<Record>, k: nat)
    requires k < |versions| && versions[k].ModifiedRevision() >= 1
    requires k > 0 ==> versions[k - 1].id == id && versions[k - 1].version == k
    ensures && VersionAccepted(id, versions, k, revision)
            && (if k == 0 then FirstAccepted(scope, versions[0])
               else SuccessorAccepted(scope, versions[k - 1], versions[k]))
      <==> GoodAt(scope, revision, id, versions, k)
  {
    hide HistoricalShape, ShapeAccepted;
    ShapeMeaning(scope, versions[k]);
  }

  lemma {:induction false} AcceptedHistoryIsGood(scope: nat, revision: nat, id: RecordRef, versions: seq<Record>)
    requires Dated(versions) && HistoryAccepted(scope, revision, id, versions)
    ensures GoodHistory(scope, id, versions, revision)
  {
    hide HistoricalShape, FirstAccepted, SuccessorAccepted, NextVersion, FirstVersion;
    forall k | 0 <= k < |versions| ensures GoodAt(scope, revision, id, versions, k) {
      assert VersionAccepted(id, versions, k, revision);
      assert k > 0 ==> VersionAccepted(id, versions, k - 1, revision);
      assert k > 0 ==> SuccessorAccepted(scope, versions[k - 1], versions[k]);
      VersionMeaning(scope, revision, id, versions, k);
    }
    assert GoodAt(scope, revision, id, versions, 0);
    forall k | 0 <= k < |versions|
      ensures versions[k].id == id && versions[k].version == k + 1
      ensures 1 <= versions[k].ModifiedRevision() <= revision && HistoricalShape(scope, versions[k])
    {
      assert GoodAt(scope, revision, id, versions, k);
    }
    forall k | 0 < k < |versions|
      ensures NextVersion(versions[k - 1], versions[k])
        && versions[k - 1].ModifiedRevision() < versions[k].ModifiedRevision()
    {
      assert GoodAt(scope, revision, id, versions, k);
    }
  }

  lemma {:induction false} GoodHistoryIsAccepted(scope: nat, revision: nat, id: RecordRef, versions: seq<Record>)
    requires GoodHistory(scope, id, versions, revision)
    ensures HistoryAccepted(scope, revision, id, versions)
  {
    hide HistoricalShape, FirstAccepted, SuccessorAccepted, NextVersion, FirstVersion;
    VersionMeaning(scope, revision, id, versions, 0);
    forall k | 0 < k < |versions|
      ensures VersionAccepted(id, versions, k, revision) && SuccessorAccepted(scope, versions[k - 1], versions[k])
    {
      assert versions[k - 1].version == k;
      assert GoodAt(scope, revision, id, versions, k);
      VersionMeaning(scope, revision, id, versions, k);
    }
  }

  // References at the revision they were recorded

  datatype Requirement = Requirement(target: RecordRef, revision: nat, kind: RequiredKind)

  function Require(ids: seq<RecordRef>, revision: nat, kind: RequiredKind): seq<Requirement> {
    seq(|ids|, i requires 0 <= i < |ids| => Requirement(ids[i], revision, kind))
  }

  /** Nothing precedes the first revision. */
  function PrecedingRevision(revision: nat): Option<nat> {
    if revision > 1 then Some(revision - 1) else None
  }

  /** `visit_history_first_reference_requirements`. */
  function FirstRequirements(r: Record): Option<seq<Requirement>> {
    match r
    case Entity(_, _, _, _, _, properties, _, modified) =>
      Some(Require(ValueReferences(properties), modified, AnyVisible))
    case Evidence(_, _, _, _, _) => Some([])
    case Claim(_, _, body, evidence, _, _, correctionOf, recorded, _) =>
      var own := Require(body.Endpoints(), recorded, ActiveEntity)
        + Require(ValueReferences(body.Payload()), recorded, AnyVisible)
        + Require(evidence, recorded, EvidenceOnly);
      if correctionOf.None? then Some(own)
      else if PrecedingRevision(recorded).None? then None
      else Some(own + [Requirement(correctionOf.value, PrecedingRevision(recorded).value, AcceptedClaim(body.Kind()))])
  }

  /** `visit_history_successor_reference_requirements`. */
  function SuccessorRequirements(r: Record): seq<Requirement> {
    if r.IsActiveEntity() then Require(ValueReferences(r.properties), r.modified, AnyVisible) else []
  }

  predicate Satisfied(history: map<RecordRef, seq<Record>>, q: Requirement) {
    RequirementMatches(q.kind, RecordAt(history, q.target, q.revision))
  }

  predicate AllSatisfied(history: map<RecordRef, seq<Record>>, qs: seq<Requirement>) {
    forall i :: 0 <= i < |qs| ==> Satisfied(history, qs[i])
  }

  predicate VersionsClosed(history: map<RecordRef, seq<Record>>, versions: seq<Record>) {
    && versions != []
    && FirstRequirements(versions[0]).Some? && AllSatisfied(history, FirstRequirements(versions[0]).value)
    && forall k :: 0 < k < |versions| ==> AllSatisfied(history, SuccessorRequirements(versions[k]))
  }

  lemma RequireMeaning(history: map<RecordRef, seq<Record>>, ids: seq<RecordRef>, revision: nat, kind: RequiredKind)
    ensures AllSatisfied(history, Require(ids, revision, kind)) <==> AllMet(history, ids, revision, kind)
  {
    hide RecordAt, RequirementMatches;
    var qs := Require(ids, revision, kind);
    if AllMet(history, ids, revision, kind) {
      forall i | 0 <= i < |qs| ensures Satisfied(history, qs[i]) { assert ids[i] in ids; }
    }
    if AllSatisfied(history, qs) {
      forall id | id in ids ensures RequirementMatches(kind, RecordAt(history, id, revision)) {
        var i :| 0 <= i < |ids| && ids[i] == id;
        assert Satisfied(history, qs[i]);
      }
    }
  }

  lemma AllSatisfiedConcat(history: map<RecordRef, seq<Record>>, a: seq<Requirement>, b: seq<Requirement>)
    ensures AllSatisfied(history, a + b) <==> AllSatisfied(history, a) && AllSatisfied(history, b)
  {
    hide Satisfied;
    forall i | 0 <= i < |a| ensures (a + b)[i] == a[i] {}
    forall i | 0 <= i < |b| ensures (a + b)[|a| + i] == b[i] {}
  }

  lemma {:induction false} FirstMeaning(history: map<RecordRef, seq<Record>>, r: Record)
    ensures FirstRequirements(r).Some? && AllSatisfied(history, FirstRequirements(r).value)
      <==> FirstReferencesHeld(history, r)
  {
    hide AllMet, AllSatisfied, RequirementMatches, RecordAt;
    match r
    case Entity(_, _, _, _, _, properties, _, modified) =>
      RequireMeaning(history, ValueReferences(properties), modified, AnyVisible);
    case Evidence(_, _, _, _, _) => NothingToSatisfy(history);
    case Claim(_, _, body, evidence, _, _, correctionOf, recorded, _) =>
      var endpoints, payload, support := Require(body.Endpoints(), recorded, ActiveEntity),
        Require(ValueReferences(body.Payload()), recorded, AnyVisible), Require(evidence, recorded, EvidenceOnly);
      RequireMeaning(history, body.Endpoints(), recorded, ActiveEntity);
      RequireMeaning(history, ValueReferences(body.Payload()), recorded, AnyVisible);
      RequireMeaning(history, evidence, recorded, EvidenceOnly);
      AllSatisfiedConcat(history, endpoints, payload);
      AllSatisfiedConcat(history, endpoints + payload, support);
      if correctionOf.Some? && recorded > 1 {
        var last := [Requirement(correctionOf.value, recorded - 1, AcceptedClaim(body.Kind()))];
        AllSatisfiedConcat(history, endpoints + payload + support, last);
        OneSatisfied(history, last[0]);
      }
  }

  lemma NothingToSatisfy(history: map<RecordRef, seq<Record>>)
    ensures AllSatisfied(history, [])
  {
  }

  lemma OneSatisfied(history: map<RecordRef, seq<Record>>, q: Requirement)
    ensures AllSatisfied(history, [q]) <==> Satisfied(history, q)
  {
    hide Satisfied;
    assert [q][0] == q;
  }

  lemma {:induction false} ClosedMeaning(history: map<RecordRef, seq<Record>>, versions: seq<Record>)
    requires versions != []
    ensures VersionsClosed(history, versions) <==> VersionsHeld(history, versions)
  {
    hide AllMet, AllSatisfied, FirstReferencesHeld, FirstRequirements;
    FirstMeaning(history, versions[0]);
    forall k | 0 < k < |versions|
      ensures AllSatisfied(history, SuccessorRequirements(versions[k]))
        <==> SuccessorReferencesHeld(history, versions[k])
    {
      SuccessorMeaning(history, versions[k]);
    }
  }

  lemma SuccessorMeaning(history: map<RecordRef, seq<Record>>, r: Record)
    ensures AllSatisfied(history, SuccessorRequirements(r)) <==> SuccessorReferencesHeld(history, r)
  {
    if r.IsActiveEntity() {
      RequireMeaning(history, ValueReferences(r.properties), r.modified, AnyVisible);
    }
  }

  // Policy history

  predicate Earlier(a: nat, b: nat) {
    a < b
  }

  /** The ascending keys of a map indexed by revision. */
  ghost function SortedRevisions(revisions: set<nat>): (s: seq<nat>)
    ensures Enumerates(s, revisions, Earlier)
    ensures |s| == |revisions|
  {
    assert StrictOrder(Earlier);
    SortBy(revisions, Earlier)
  }

  /** The walk over the policy history, remembering the previous version. */
  predicate PoliciesAccepted(scope: nat, revision: nat, revisions: seq<nat>, policies: map<nat, NamespacePolicy>,
      previous: Option<nat>)
    requires forall r :: r in revisions ==> r in policies
  {
    revisions == [] ||
    (var policy := policies[revisions[0]];
     && revisions[0] <= revision && policy.scope == scope
     && (previous.Some? ==> previous.value < policy.version)
     && PoliciesAccepted(scope, revision, revisions[1..], policies, Some(policy.version)))
  }

  ghost predicate InForce(scope: nat, revision: nat, revisions: seq<nat>, policies: map<nat, NamespacePolicy>)
    requires forall r :: r in revisions ==> r in policies
  {
    forall r :: r in revisions ==> r <= revision && policies[r].scope == scope
  }

  ghost predicate VersionsAbove(floor: nat, revisions: seq<nat>, policies: map<nat, NamespacePolicy>)
    requires forall r :: r in revisions ==> r in policies
  {
    forall r :: r in revisions ==> floor < policies[r].version
  }

  ghost predicate Rising(revisions: seq<nat>, policies: map<nat, NamespacePolicy>)
    requires forall r :: r in revisions ==> r in policies
  {
    forall i, j :: 0 <= i < j < |revisions| ==> policies[revisions[i]].version < policies[revisions[j]].version
  }

  lemma RisingStep(revisions: seq<nat>, policies: map<nat, NamespacePolicy>)
    requires revisions != [] && forall r :: r in revisions ==> r in policies
    ensures Rising(revisions, policies)
      <==> Rising(revisions[1..], policies) && VersionsAbove(policies[revisions[0]].version, revisions[1..], policies)
  {
    var rest := revisions[1..];
    assert forall i :: 0 < i < |revisions| ==> revisions[i] == rest[i - 1] && rest[i - 1] in rest;
    assert forall i :: 0 <= i < |rest| ==> rest[i] == revisions[i + 1];
  }

  lemma {:induction false} PoliciesMeaning(scope: nat, revision: nat, revisions: seq<nat>,
      policies: map<nat, NamespacePolicy>, previous: Option<nat>)
    requires forall r :: r in revisions ==> r in policies
    ensures PoliciesAccepted(scope, revision, revisions, policies, previous)
      <==> InForce(scope, revision, revisions, policies) && Rising(revisions, policies)
           && (previous.Some? ==> VersionsAbove(previous.value, revisions, policies))
  {
    if revisions != [] {
      hide Rising;
      var rest := revisions[1..];
      PoliciesMeaning(scope, revision, rest, policies, Some(policies[revisions[0]].version));
      RisingStep(revisions, policies);
      assert forall r :: r in revisions <==> r == revisions[0] || r in rest;
    }
  }

  function LastPolicy(revisions: seq<nat>, policies: map<nat, NamespacePolicy>): Option<NamespacePolicy>
    requires forall r :: r in revisions ==> r in policies
  {
    if revisions == [] then None else Some(policies[revisions[|revisions| - 1]])
  }

  lemma {:induction false} LastPolicyIsCurrent(revisions: seq<nat>, policies: map<nat, NamespacePolicy>, revision: nat)
    requires Enumerates(revisions, policies.Keys, Earlier) && forall r :: r in policies ==> r <= revision
    ensures PolicyAt(policies, revision) == LastPolicy(revisions, policies)
  {
    assert forall i :: 0 <= i < |revisions| ==>
      revisions[i] in policies.Keys && revisions[i] <= revisions[|revisions| - 1];
    if revision !in policies && revision > 0 {
      LastPolicyIsCurrent(revisions, policies, revision - 1);
    }
  }

  ghost predicate PolicyPartsAccepted(p: Parts) {
    var revisions := SortedRevisions(p.policyHistory.Keys);
    && (p.policy.Some? ==> p.policy.value.scope == p.scope)
    && PoliciesAccepted(p.scope, p.revision, revisions, p.policyHistory, None)
    && LastPolicy(revisions, p.policyHistory) == p.policy
  }

  lemma {:induction false} VersionsRise(revisions: seq<nat>, policies: map<nat, NamespacePolicy>)
    requires Enumerates(revisions, policies.Keys, Earlier)
    ensures Rising(revisions, policies)
       <==> VersionsRiseWithRevisions(policies)
  {
    if Rising(revisions, policies) {
      forall r, q | r in policies && q in policies && r < q ensures policies[r].version < policies[q].version {
        var i :| 0 <= i < |revisions| && revisions[i] == r;
        var j :| 0 <= j < |revisions| && revisions[j] == q;
        assert i < j;
      }
    }
  }

  lemma {:induction false} PolicyPartsMeaning(p: Parts)
    requires 0 !in p.policyHistory
    ensures PolicyPartsAccepted(p) <==> PoliciesKept(Assemble(p))
  {
    hide Assemble, PolicyAt, PoliciesAccepted, Rising, VersionsRiseWithRevisions, LastPolicy;
    AssembleKeepsParts(p);
    var revisions := SortedRevisions(p.policyHistory.Keys);
    PoliciesMeaning(p.scope, p.revision, revisions, p.policyHistory, None);
    VersionsRise(revisions, p.policyHistory);
    CurrentPolicyInScope(p, revisions);
    assert forall r :: r in p.policyHistory <==> r in revisions;
    if forall r :: r in p.policyHistory ==> r <= p.revision {
      LastPolicyIsCurrent(revisions, p.policyHistory, p.revision);
    }
  }

  lemma CurrentPolicyInScope(p: Parts, revisions: seq<nat>)
    requires Enumerates(revisions, p.policyHistory.Keys, Earlier)
    ensures InForce(p.scope, p.revision, revisions, p.policyHistory)
      && LastPolicy(revisions, p.policyHistory) == p.policy && p.policy.Some?
      ==> p.policy.value.scope == p.scope
  {
  }

  lemma AssembleKeepsParts(p: Parts)
    ensures PartsOf(Assemble(p)) == p
  {
  }

  // The whole restore

  datatype CheckpointError = Invalid | CheckpointTooLarge | UnsupportedProfile

  /** The durable families a state is restored from; the four indexes are not among them. */
  datatype Parts = Parts(scope: nat, revision: nat, records: map<RecordRef, Record>,
      history: map<RecordRef, seq<Record>>,
                         policy: Option<NamespacePolicy>, policyHistory: map<nat, NamespacePolicy>)

  function PartsOf(s: Snapshot): Parts {
    Parts(s.scope, s.revision, s.records, s.history, s.policy, s.policyHistory)
  }

  /** The state with these parts and freshly rebuilt indexes. */
  ghost function Assemble(p: Parts): Snapshot {
    var ids := Sorted(p.records.Keys);
    Snapshot(p.scope, p.revision, p.records, p.history,
             Rebuild(p.records, ids, OutgoingOf), Rebuild(p.records, ids, IncomingOf),
             Rebuild(p.records, ids, ProvenanceOf), Rebuild(p.records, ids, ReverseOf),
             p.policy, p.policyHistory)
  }

  /** `validate_state`: every record, in order. */
  ghost function ValidateState(scope: nat, records: map<RecordRef, Record>): Check {
    FirstFailure(Sorted(records.Keys), id => if id in records then ValidateRecord(scope, id, records[id], records)
      else Ok(()))
  }

  ghost predicate RecordPartsAccepted(p: Parts) {
    && Sorted(p.records.Keys) == Sorted(p.history.Keys)
    && (forall id :: id in p.records ==> p.records[id].id == id && p.records[id].ModifiedRevision() <= p.revision)
    && (forall id :: id in p.history ==>
          HistoryAccepted(p.scope, p.revision, id, p.history[id])
            && Lookup(p.records, id) == Some(p.history[id][|p.history[id]| - 1]))
    && (forall id :: id in p.history ==> VersionsClosed(p.history, p.history[id]))
  }

  /** `from_persisted_parts`; every refusal is the same error. */
  ghost function FromPersistedParts(p: Parts): Result<Snapshot, CheckpointError> {
    if RecordPartsAccepted(p) && PolicyPartsAccepted(p) && ValidateState(p.scope, p.records).Ok? then Ok(Assemble(p))
      else Err(Invalid)
  }

  lemma {:induction false} ValidateStateMeaning(scope: nat, records: map<RecordRef, Record>)
    ensures ValidateState(scope, records).Ok? <==> AllValid(scope, records)
  {
    hide ValidateRecord, WellShaped, ReferencesHold;
    forall id | id in records
      ensures ValidateRecord(scope, id, records[id], records).Ok? <==> ValidIn(scope, id, records)
    {
      ValidateRecordMeaning(scope, id, records[id], records);
    }
    assert forall id :: id in records <==> id in Sorted(records.Keys);
  }

  ghost predicate WellDated(p: Parts) {
    && p.revision >= 1
    && (forall id :: id in p.history ==> Dated(p.history[id]))
    && 0 !in p.policyHistory
  }

  ghost predicate PartAccepted(p: Parts, id: RecordRef)
    requires id in p.history
  {
    && HistoryAccepted(p.scope, p.revision, id, p.history[id])
    && Lookup(p.records, id) == Some(p.history[id][|p.history[id]| - 1])
    && VersionsClosed(p.history, p.history[id])
  }

  ghost predicate PartKept(p: Parts, id: RecordRef)
    requires id in p.history
  {
    && GoodHistory(p.scope, id, p.history[id], p.revision)
    && Lookup(p.records, id) == Some(p.history[id][|p.history[id]| - 1])
    && VersionsHeld(p.history, p.history[id])
  }

  lemma {:induction false} PartMeaning(p: Parts, id: RecordRef)
    requires id in p.history && Dated(p.history[id])
    ensures PartAccepted(p, id) <==> PartKept(p, id)
    ensures PartKept(p, id) ==> p.records[id].id == id && p.records[id].ModifiedRevision() <= p.revision
  {
    hide VersionsClosed, VersionsHeld, NextVersion, HistoricalShape, FirstAccepted, SuccessorAccepted, VersionAccepted;
    if HistoryAccepted(p.scope, p.revision, id, p.history[id]) {
      AcceptedHistoryIsGood(p.scope, p.revision, id, p.history[id]);
    }
    if GoodHistory(p.scope, id, p.history[id], p.revision) {
      GoodHistoryIsAccepted(p.scope, p.revision, id, p.history[id]);
    }
    if p.history[id] != [] {
      ClosedMeaning(p.history, p.history[id]);
    }
  }

  lemma SameSorted(a: set<RecordRef>, b: set<RecordRef>)
    ensures Sorted(a) == Sorted(b) <==> a == b
  {
    assert forall id :: id in a <==> id in Sorted(a);
    assert forall id :: id in b <==> id in Sorted(b);
  }

  lemma AcceptedParts(p: Parts)
    requires RecordPartsAccepted(p)
    ensures p.records.Keys == p.history.Keys
    ensures forall id :: id in p.history ==> PartAccepted(p, id)
  {
    hide HistoryAccepted, VersionsClosed;
    SameSorted(p.records.Keys, p.history.Keys);
  }

  lemma {:induction false} AcceptedPartsAreKept(p: Parts)
    requires WellDated(p) && RecordPartsAccepted(p)
    ensures HistoriesKept(Assemble(p)) && HistoricallyClosed(p.history)
  {
    hide RecordPartsAccepted, HistoryAccepted, GoodHistory, VersionsClosed, VersionsHeld, Assemble, Dated;
    AssembleKeepsParts(p);
    AcceptedParts(p);
    forall id | id in p.history ensures PartKept(p, id) {
      assert PartAccepted(p, id);
      PartMeaning(p, id);
    }
  }

  lemma {:induction false} KeptPartsAreAccepted(p: Parts)
    requires WellDated(p) && HistoriesKept(Assemble(p)) && HistoricallyClosed(p.history)
    ensures RecordPartsAccepted(p)
  {
    hide HistoryAccepted, GoodHistory, VersionsClosed, VersionsHeld, Assemble, Dated;
    AssembleKeepsParts(p);
    SameSorted(p.records.Keys, p.history.Keys);
    forall id | id in p.history
      ensures PartAccepted(p, id) && p.records[id].id == id && p.records[id].ModifiedRevision() <= p.revision
    {
      KeptPartIsAccepted(p, id);
    }
  }

  lemma KeptPartIsAccepted(p: Parts, id: RecordRef)
    requires WellDated(p) && HistoriesKept(Assemble(p)) && HistoricallyClosed(p.history) && id in p.history
    ensures PartAccepted(p, id) && p.records[id].id == id && p.records[id].ModifiedRevision() <= p.revision
  {
    hide PartAccepted, GoodHistory, VersionsHeld, Assemble, Dated;
    AssembleKeepsParts(p);
    assert PartKept(p, id);
    PartMeaning(p, id);
  }

  lemma {:induction false} AssembledIndexes(p: Parts)
    ensures IndexesMatch(Assemble(p))
  {
    hide Rebuild, Matches;
    RebuildMatches(p.records, OutgoingOf);
    RebuildMatches(p.records, IncomingOf);
    RebuildMatches(p.records, ProvenanceOf);
    RebuildMatches(p.records, ReverseOf);
  }

  lemma KeptHistoriesAreKeyed(s: Snapshot)
    requires HistoriesKept(s)
    ensures WellKeyed(s.records)
  {
    forall id | id in s.records ensures s.records[id].id == id {
      assert GoodHistory(s.scope, id, s.history[id], s.revision);
    }
  }

  /** Restore accepts exactly the parts of consistent states. */
  lemma {:induction false} RestoreExact(p: Parts)
    requires WellDated(p)
    ensures FromPersistedParts(p).Ok? <==> Consistent(Assemble(p))
    ensures FromPersistedParts(p).Ok? ==> FromPersistedParts(p) == Ok(Assemble(p))
  {
    hide RecordPartsAccepted, PolicyPartsAccepted, HistoriesKept, HistoricallyClosed, PoliciesKept, AllValid,
         IndexesMatch, ValidateState, WellKeyed, Rebuild;
    if RecordPartsAccepted(p) { AcceptedPartsAreKept(p); }
    if HistoriesKept(Assemble(p)) && HistoricallyClosed(p.history) { KeptPartsAreAccepted(p); }
    PolicyPartsMeaning(p);
    ValidateStateMeaning(p.scope, p.records);
    AssembledIndexes(p);
    if HistoriesKept(Assemble(p)) {
      KeptHistoriesAreKeyed(Assemble(p));
      IndexesAreIndexed(Assemble(p));
    }
  }

  lemma IndexesAreIndexed(s: Snapshot)
    requires WellKeyed(s.records) && IndexesMatch(s)
    ensures Indexed(s)
  {
  }

  lemma {:induction false} AssembleUndoesPartsOf(s: Snapshot)
    requires IndexesMatch(s)
    ensures Assemble(PartsOf(s)) == s
  {
    hide Rebuild, Matches;
    RebuildUnique(s.outgoing, s.records, OutgoingOf);
    RebuildUnique(s.incoming, s.records, IncomingOf);
    RebuildUnique(s.provenance, s.records, ProvenanceOf);
    RebuildUnique(s.reverse, s.records, ReverseOf);
  }

  lemma ConsistentIsDated(s: Snapshot)
    requires HistoriesKept(s) && PoliciesKept(s) && s.revision >= 1
    ensures WellDated(PartsOf(s))
  {
    forall id | id in s.history ensures Dated(s.history[id]) {
      assert GoodHistory(s.scope, id, s.history[id], s.revision);
    }
  }

  /** Every reachable state that has committed something survives its own restore unchanged. */
  lemma {:induction false} EveryRunRestores(scope: nat, txs: seq<Transaction>)
    requires Run(scope, txs).revision >= 1
    ensures FromPersistedParts(PartsOf(Run(scope, txs))) == Ok(Run(scope, txs))
  {
    hide Run, IndexesMatch, FromPersistedParts, Indexed, AllValid, HistoriesKept, HistoricallyClosed, PoliciesKept,
         Assemble, WellDated;
    var s := Run(scope, txs);
    EveryRunIsConsistent(scope, txs);
    AssembleUndoesPartsOf(s);
    ConsistentIsDated(s);
    RestoreExact(PartsOf(s));
  }
}
