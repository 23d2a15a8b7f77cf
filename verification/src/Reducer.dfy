/** The graph reducer as functions of an immutable snapshot (crates/uste-graph/src/state.rs). */
module Reducer {
  import opened Base
  import opened Records
  import opened Index
  import opened References

  const MAX_TRANSACTION_OPERATIONS := 10_000
  const MAX_TRANSACTION_REFERENCES := 100_000

  /** Revision 0 stands for a state that has committed nothing; commit revisions start at 1. */
  datatype Snapshot = Snapshot(
    scope: nat,
    revision: nat,
    records: map<RecordRef, Record>,
    history: map<RecordRef, seq<Record>>,
    outgoing: Index<()>,
    incoming: Index<()>,
    provenance: Index<()>,
    reverse: Index<ReverseReference>,
    policy: Option<NamespacePolicy>,
    policyHistory: map<nat, NamespacePolicy>)

  function NewSnapshot(scope: nat): Snapshot {
    Snapshot(scope, 0, map[], map[], map[], map[], map[], map[], None, map[])
  }

  // Historical lookup

  /** The newest of `versions` not modified after `revision`; versions are stored oldest first. */
  function LastAt(versions: seq<Record>, revision: nat): Option<Record> {
    if versions == [] then None
    else if versions[|versions| - 1].ModifiedRevision() <= revision then Some(versions[|versions| - 1])
    else LastAt(versions[..|versions| - 1], revision)
  }

  /** Versions at strictly increasing revisions. */
  predicate Chronological(versions: seq<Record>) {
    forall i, j :: 0 <= i < j < |versions| ==> versions[i].ModifiedRevision() < versions[j].ModifiedRevision()
  }

  function RecordAt(history: map<RecordRef, seq<Record>>, id: RecordRef, revision: nat): Option<Record> {
    if id in history then LastAt(history[id], revision) else None
  }

  // Request limits

  function ExpectedReferenceCount(e: Expected): nat {
    if e.ReadView? then 1 else 0
  }

  function NewClaimReferenceCount(c: NewClaim): nat {
    1 + |c.body.Endpoints()| + |c.evidence| + |ValueReferences(c.body.Payload())|
  }

  function NewRecordReferenceCount(r: NewRecord): nat {
    match r
    case NewEntity(_, _, _, properties) => 1 + |ValueReferences(properties)|
    case NewEvidence(_, _, _) => 1
    case NewAssertionRecord(a) => NewClaimReferenceCount(OfAssertion(a))
    case NewRelationshipRecord(r) => NewClaimReferenceCount(OfRelationship(r))
  }

  function OperationReferenceCount(op: Operation): nat {
    ExpectedReferenceCount(op.expected) +
    match op
    case Create(_, record) => NewRecordReferenceCount(record)
    case ReplaceEntity(_, _, properties) => 1 + |ValueReferences(properties)|
    case DeleteEntity(_, _, _, affected) => 1 + |affected|
    case _ =>
      1 + (if op.correctionExpected.Some? then ExpectedReferenceCount(op.correctionExpected.value) else 0)
        + (if op.Correction().Some? then NewClaimReferenceCount(op.Correction().value) else 0)
  }

  function TotalReferenceCount(ops: seq<Operation>): nat {
    if ops == [] then 0 else OperationReferenceCount(ops[0]) + TotalReferenceCount(ops[1..])
  }

  function ValidateRequestLimits(tx: Transaction): Check {
    if |tx.operations| == 0 && tx.policyMutation.None? then Err(EmptyTransaction)
    else if |tx.operations| > MAX_TRANSACTION_OPERATIONS then Err(TooManyOperations(|tx.operations|))
    else if TotalReferenceCount(tx.operations) > MAX_TRANSACTION_REFERENCES
    then Err(TooManyReferences(TotalReferenceCount(tx.operations)))
    else Ok(())
  }

  // Preconditions, all evaluated on the base snapshot

  predicate HoldsOf(condition: Predicate, candidate: Option<Record>) {
    match condition
    case RecordAbsent(_) => candidate.None?
    case RecordVisible(_) => candidate.Some? && candidate.value.IsVisible()
    case RecordVersionIs(_, version) => candidate.Some? && candidate.value.version == version
  }

  function ValidateExpected(s: Snapshot, target: RecordRef, expected: Expected): Check {
    match expected
    case Absent => if target in s.records then Err(PreconditionFailed(target)) else Ok(())
    case AtVersion(version) =>
      if target in s.records && s.records[target].version == version then Ok(()) else Err(PreconditionFailed(target))
    case ReadView(revision, condition) =>
      var _ :- CheckScope(s.scope, condition.record);
      if revision > s.revision then Err(UnknownReadView(revision))
      else if !HoldsOf(condition, RecordAt(s.history, condition.record, revision)) then Err(PredicateWasFalse(revision))
      else if !HoldsOf(condition, Lookup(s.records, condition.record)) then Err(PredicateChanged(revision))
      else Ok(())
  }

  function ValidateCorrectionPrecondition(s: Snapshot, op: Operation): Check {
    if !op.IsAct() then Ok(())
    else if op.action == Correct then
      if op.Correction().None? then Err(CorrectionRequired)
      else if op.correctionExpected.None? then Err(CorrectionPreconditionRequired)
      else
        var _ :- CheckScope(s.scope, op.Correction().value.id);
        ValidateExpected(s, op.Correction().value.id, op.correctionExpected.value)
    else if op.Correction().Some? || op.correctionExpected.Some? then Err(UnexpectedCorrection)
    else Ok(())
  }

  function CheckPreconditions(s: Snapshot, ops: seq<Operation>): Check {
    if ops == [] then Ok(())
    else
      var _ :- CheckScope(s.scope, ops[0].Target());
      var _ :- ValidateExpected(s, ops[0].Target(), ops[0].expected);
      var _ :- ValidateCorrectionPrecondition(s, ops[0]);
      CheckPreconditions(s, ops[1..])
  }

  function ValidatePolicyMutation(scope: nat, current: Option<NamespacePolicy>,
      mutation: Option<PolicyMutation>): Check {
    match mutation
    case None => Ok(())
    case Some(Install(policy)) =>
      if current.Some? then Err(PolicyConflict)
      else if policy.scope != scope then Err(TransactionScopeMismatch)
      else Ok(())
    case Some(Replace(expected, policy)) =>
      if current.None? || current.value.version != expected || policy.version <= expected then Err(PolicyConflict)
      else if policy.scope != scope then Err(TransactionScopeMismatch)
      else Ok(())
  }

  // The copy-on-write overlay

  datatype Overlay = Overlay(base: map<RecordRef, Record>, reverse: Index<ReverseReference>,
      changed: map<RecordRef, Record>) {
    function View(): map<RecordRef, Record> {
      base + changed
    }
    function Get(id: RecordRef): Option<Record> {
      Lookup(View(), id)
    }
    function Put(id: RecordRef, r: Record): Overlay {
      this.(changed := changed[id := r])
    }
    /** The reference one owner currently has to `target`: its changed version hides the indexed one. */
    function ReferenceFrom(owner: RecordRef, target: RecordRef): Option<ReverseReference> {
      if owner in changed then ReverseFor(changed[owner], target)
      else Lookup(Bucket(reverse, target), owner)
    }
    /** Every owner whose current version references `target`. */
    function ReferencesTo(target: RecordRef): map<RecordRef, ReverseReference> {
      map owner | owner in Bucket(reverse, target).Keys + changed.Keys && ReferenceFrom(owner, target).Some?
        :: ReferenceFrom(owner, target).value
    }
  }

  /** An overlay together with the records one operation, or all operations so far, have mutated. */
  datatype Step = Step(overlay: Overlay, affected: set<RecordRef>)

  type StepResult = Result<Step, GraphError>

  function WrongKindOrMissing(o: Overlay, target: RecordRef, expectedKind: Option<ClaimKind>): GraphError {
    if target in o.View() then WrongRecordKind(target, expectedKind) else NotFound(target)
  }

  function ProposedClaim(c: NewClaim, correctionOf: Option<RecordRef>, revision: nat): Record {
    Claim(c.id, 1, c.body, c.evidence, Proposed, c.validTime, correctionOf, revision, revision)
  }

  function InsertClaim(o: Overlay, c: NewClaim, correctionOf: Option<RecordRef>, revision: nat): StepResult {
    if c.id in o.View() then Err(AlreadyExists(c.id))
    else if !c.validTime.IsValid() then Err(InvalidInterval(c.id))
    else Ok(Step(o.Put(c.id, ProposedClaim(c, correctionOf, revision)), {c.id}))
  }

  function CreateRecord(o: Overlay, new_: NewRecord, revision: nat): StepResult {
    match new_
    case NewEntity(id, entityType, schemaVersion, properties) =>
      if id in o.View() then Err(AlreadyExists(id))
      else Ok(Step(o.Put(id, Entity(id, 1, true, entityType, schemaVersion, properties, revision, revision)), {id}))
    case NewEvidence(id, digest, locator) =>
      if id in o.View() then Err(AlreadyExists(id))
      else Ok(Step(o.Put(id, Evidence(id, 1, digest, locator, revision)), {id}))
    case NewAssertionRecord(a) => InsertClaim(o, OfAssertion(a), None, revision)
    case NewRelationshipRecord(r) => InsertClaim(o, OfRelationship(r), None, revision)
  }

  function ReplaceProperties(o: Overlay, target: RecordRef, properties: Value, revision: nat): StepResult {
    match o.Get(target)
    case Some(Entity(id, version, active, entityType, schemaVersion, _, created, _)) =>
      if !active then Err(NotVisible(target))
      else if version >= MAX_U64 then Err(RecordVersionExhausted(target))
      else Ok(Step(o.Put(target, Entity(id, version
        + 1, active, entityType, schemaVersion, properties, created, revision)), {target}))
    case _ => Err(WrongKindOrMissing(o, target, None))
  }

  function Transition(status: Status, action: Action): Result<Status, GraphError> {
    match (status, action)
    case (Proposed, Accept) => Ok(Accepted)
    case (Proposed, Reject) => Ok(Rejected)
    case (Accepted, Dispute) => Ok(Disputed)
    case (Accepted, Supersede) => Ok(Superseded)
    case (Accepted, Retract) => Ok(Retracted)
    case (Accepted, Expire) => Ok(Expired)
    case _ => Err(InvalidTransition(status, action))
  }

  function SetStatus(o: Overlay, id: RecordRef, status: Status, revision: nat): StepResult
    requires id in o.View() && o.View()[id].Claim?
  {
    var r := o.View()[id];
    if r.version >= MAX_U64 then Err(RecordVersionExhausted(id))
    else Ok(Step(o.Put(id, r.(status := status, version := r.version + 1, modified := revision)), {id}))
  }

  /** `apply_assertion_action` and `apply_relationship_action`, which differ in the kind alone. */
  function ActOnClaim(o: Overlay, kind: ClaimKind, target: RecordRef, action: Action, correction: Option<NewClaim>,
      revision: nat): StepResult {
    if !(target in o.View() && o.View()[target].IsClaim(kind)) then Err(WrongKindOrMissing(o, target, Some(kind)))
    else
      var status := o.View()[target].status;
      if action == Correct then
        if status != Accepted then Err(InvalidTransition(status, action))
        else if correction.None? then Err(CorrectionRequired)
        else InsertClaim(o, correction.value, Some(target), revision)
      else if correction.Some? then Err(UnexpectedCorrection)
      else
        var next :- Transition(status, action);
        SetStatus(o, target, next, revision)
  }

  // Entity deletion

  function ClaimRoles(kind: nat): set<Role> {
    if kind == REVERSE_KIND_ASSERTION then {AssertionSubject, AssertionObject}
    else if kind == REVERSE_KIND_RELATIONSHIP then {RelationshipFrom, RelationshipTo, RelationshipProperty}
    else {}
  }

  predicate IsAcceptedDependency(r: ReverseReference) {
    r.roles * ClaimRoles(r.ownerKind) != {} && r.ownerState == REVERSE_STATE_ACCEPTED
  }

  predicate IsProposedDependency(r: ReverseReference) {
    r.roles * ClaimRoles(r.ownerKind) != {} && r.ownerState == REVERSE_STATE_PROPOSED
  }

  predicate IsEntityDependency(r: ReverseReference) {
    r.ownerKind == REVERSE_KIND_ENTITY && r.ownerState == REVERSE_STATE_ACTIVE && EntityProperty in r.roles
  }

  function AcceptedOwners(refs: map<RecordRef, ReverseReference>): set<RecordRef> {
    set w | w in refs && IsAcceptedDependency(refs[w])
  }

  function ProposedOwners(refs: map<RecordRef, ReverseReference>): set<RecordRef> {
    set w | w in refs && IsProposedDependency(refs[w])
  }

  function EntityOwners(refs: map<RecordRef, ReverseReference>, target: RecordRef): set<RecordRef> {
    set w | w in refs && IsEntityDependency(refs[w]) && w != target
  }

  /** The standard library's bisection; on a list that is not ascending it may miss an element. */
  predicate BinarySearch(ids: seq<RecordRef>, id: RecordRef)
    decreases |ids|
  {
    if ids == [] then false
    else
      var mid := |ids| / 2;
      if ids[mid] == id then true
      else if Less(ids[mid], id) then BinarySearch(ids[mid + 1..], id)
      else BinarySearch(ids[..mid], id)
  }

  function RetractedVersion(r: Record, revision: nat): Record
    requires r.Claim?
  {
    r.(status := Retracted, version := r.version + 1, modified := revision)
  }

  /** The versions a cascade over `declared` installs. */
  function RetractedClaims(view: map<RecordRef, Record>, declared: seq<RecordRef>,
      revision: nat): map<RecordRef, Record> {
    map id | id in declared && id in view && view[id].Claim? :: RetractedVersion(view[id], revision)
  }

  function CheckRetractable(view: map<RecordRef, Record>, kind: ClaimKind, id: RecordRef): Check {
    if id in view && view[id].IsClaim(kind) && view[id].version >= MAX_U64 then Err(RecordVersionExhausted(id))
      else Ok(())
  }

  function CheckRetractables(view: map<RecordRef, Record>, kind: ClaimKind, declared: seq<RecordRef>): Check {
    FirstFailure(declared, id => CheckRetractable(view, kind, id))
  }

  /** Every declared claim is retracted, relationships first and then assertions, each in declared order; the first
      exhausted version counter aborts. */
  function RetractAll(o: Overlay, declared: seq<RecordRef>, revision: nat): StepResult {
    var _ :- CheckRetractables(o.View(), RelationshipKind, declared);
    var _ :- CheckRetractables(o.View(), AssertionKind, declared);
    var retracted := RetractedClaims(o.View(), declared, revision);
    Ok(Step(o.(changed := o.changed + retracted), retracted.Keys))
  }

  function MarkDeleted(s: Step, target: RecordRef, revision: nat): StepResult
    requires target in s.overlay.View() && s.overlay.View()[target].Entity?
  {
    var e := s.overlay.View()[target];
    if e.version >= MAX_U64 then Err(RecordVersionExhausted(target))
    else Ok(Step(s.overlay.Put(target, e.(active := false, version := e.version + 1, modified := revision)), s.affected
      + {target}))
  }

  /** The dependency checks a deletion must pass before anything is mutated. */
  function CheckDeletion(refs: map<RecordRef, ReverseReference>, target: RecordRef, policy: DeletePolicy,
      declared: seq<RecordRef>): Check {
    var accepted := |AcceptedOwners(refs)|;
    var proposed := |ProposedOwners(refs)|;
    var entities := |EntityOwners(refs, target)|;
    match policy
    case RejectDependents =>
      if accepted + entities != 0 || proposed != 0 then Err(DeleteRestricted(target, accepted + entities + proposed))
      else if declared != [] then Err(InvalidCascadeDeclaration)
      else Ok(())
    case CascadeAndRetract(maximum) =>
      if !Increasing(declared, Less) then Err(InvalidCascadeDeclaration)
      else if proposed != 0 then Err(ProposedClaimBlocksDelete(target, proposed))
      else if entities != 0 then Err(UncascadeableReferences(target, entities))
      else if accepted + entities > maximum then Err(CascadeLimitExceeded(accepted + entities, maximum))
      else if |declared| != accepted || !(forall w :: w in AcceptedOwners(refs) ==> BinarySearch(declared, w))
        then Err(CascadeDeclarationChanged)
      else Ok(())
  }

  function DeleteOverlaidEntity(o: Overlay, target: RecordRef, policy: DeletePolicy, declared: seq<RecordRef>,
      revision: nat): StepResult {
    if !(target in o.View() && o.View()[target].Entity?) then Err(WrongKindOrMissing(o, target, None))
    else if !o.View()[target].active then Err(NotVisible(target))
    else
      var _ :- CheckDeletion(o.ReferencesTo(target), target, policy, declared);
      match policy
      case RejectDependents => MarkDeleted(Step(o, {}), target, revision)
      case CascadeAndRetract(_) =>
        var retracted :- RetractAll(o, declared, revision);
        MarkDeleted(retracted, target, revision)
  }

  function ApplyOperation(o: Overlay, op: Operation, revision: nat): StepResult {
    match op
    case Create(_, record) => CreateRecord(o, record, revision)
    case ReplaceEntity(target, _, properties) => ReplaceProperties(o, target, properties, revision)
    case DeleteEntity(target, _, policy, affected) => DeleteOverlaidEntity(o, target, policy, affected, revision)
    case _ => ActOnClaim(o, op.ActKind(), op.target, op.action, op.Correction(), revision)
  }

  // The whole transaction

  /** Loop state of `prepare_transaction`: records mutated so far and correction targets that must stay as they are. */
  datatype Progress = Progress(overlay: Overlay, affected: set<RecordRef>, protected_: set<RecordRef>)

  ghost function ApplyNext(p: Progress, op: Operation, revision: nat): Result<Progress, GraphError> {
    if op.CorrectionTarget().Some? && op.CorrectionTarget().value in p.affected
    then Err(DuplicateMutation(op.CorrectionTarget().value))
    else
      var step :- ApplyOperation(p.overlay, op, revision);
      var repeated := step.affected * (p.affected + p.protected_);
      if repeated != {} then Err(DuplicateMutation(Sorted(repeated)[0]))
      else Ok(Progress(step.overlay, p.affected + step.affected,
                       if op.CorrectionTarget().Some? then p.protected_ + {op.CorrectionTarget().value}
                         else p.protected_))
  }

  ghost function RunOperations(s: Snapshot, ops: seq<Operation>, revision: nat): Result<Progress, GraphError>
    decreases |ops|
  {
    if ops == [] then Ok(Progress(Overlay(s.records, s.reverse, map[]), {}, {}))
    else
      var p :- RunOperations(s, ops[..|ops| - 1], revision);
      ApplyNext(p, ops[|ops| - 1], revision)
  }

  datatype RecordChange = RecordChange(id: RecordRef, before: Option<Record>, after: Record)

  /** What `graph_result_digest` hashes. */
  datatype ResultContent = ResultContent(revision: nat, records: seq<Record>, policy: Option<NamespacePolicy>)

  datatype PreparedGraph = PreparedGraph(
    scope: nat,
    baseRevision: nat,
    basePolicyVersion: Option<nat>,
    revision: nat,
    changes: seq<RecordChange>,
    policyChange: Option<NamespacePolicy>,
    resultContent: ResultContent)

  function PolicyVersion(policy: Option<NamespacePolicy>): Option<nat> {
    if policy.Some? then Some(policy.value.version) else None
  }

  function PolicyAfter(mutation: Option<PolicyMutation>): Option<NamespacePolicy> {
    if mutation.Some? then Some(mutation.value.policy) else None
  }

  function NextPolicy(change: Option<NamespacePolicy>, current: Option<NamespacePolicy>): Option<NamespacePolicy> {
    if change.Some? then change else current
  }

  ghost function ChangesOf(o: Overlay): (changes: seq<RecordChange>)
    ensures |changes| == |o.changed|
    ensures forall i :: 0 <= i < |changes| ==> changes[i].id in o.changed
  {
    var ids := Sorted(o.changed.Keys);
    assert forall i :: 0 <= i < |ids| ==> ids[i] in o.changed.Keys;
    seq(|ids|, i requires 0 <= i < |ids| => RecordChange(ids[i], Lookup(o.base, ids[i]), o.changed[ids[i]]))
  }

  /** `validate_changed_state`: only the records the transaction mutated. */
  ghost function ValidateChanged(scope: nat, records: map<RecordRef, Record>, affected: set<RecordRef>): Check {
    FirstFailure(Sorted(affected), id =>
      if id in records then ValidateRecord(scope, id, records[id], records) else Err(IndexCorrupt(id)))
  }

  ghost function Prepare(s: Snapshot, tx: Transaction, revision: nat): Result<PreparedGraph, GraphError> {
    if tx.scope != s.scope then Err(TransactionScopeMismatch)
    else if s.revision >= MAX_U64 then Err(RevisionExhausted)
    else if revision != s.revision + 1 then Err(RevisionMismatch(s.revision + 1, revision))
    else
      var _ :- ValidateRequestLimits(tx);
      var _ :- CheckPreconditions(s, tx.operations);
      var _ :- ValidatePolicyMutation(s.scope, s.policy, tx.policyMutation);
      var p :- RunOperations(s, tx.operations, revision);
      var _ :- ValidateChanged(s.scope, p.overlay.View(), p.affected);
      var changes := ChangesOf(p.overlay);
      var policyChange := PolicyAfter(tx.policyMutation);
      Ok(PreparedGraph(s.scope, s.revision, PolicyVersion(s.policy), revision, changes, policyChange,
                       ResultContent(revision, seq(|changes|, i requires 0 <= i < |changes| => changes[i].after),
                                     NextPolicy(policyChange, s.policy))))
  }

  // Publication

  function Contributions<V>(r: Option<Record>, contribution: Record -> map<RecordRef, V>): map<RecordRef, V> {
    if r.Some? then contribution(r.value) else map[]
  }

  function Reindexed<V>(index: Index<V>, c: RecordChange, contribution: Record -> map<RecordRef, V>): Index<V> {
    AddContributions(RemoveContributions(index, c.id, Contributions(c.before, contribution).Keys), c.id,
      contribution(c.after))
  }

  function VersionsOf(history: map<RecordRef, seq<Record>>, id: RecordRef): seq<Record> {
    if id in history then history[id] else []
  }

  function PublishChange(s: Snapshot, c: RecordChange): Snapshot {
    s.(records := s.records[c.id := c.after],
       history := s.history[c.id := VersionsOf(s.history, c.id) + [c.after]],
       outgoing := Reindexed(s.outgoing, c, OutgoingOf),
       incoming := Reindexed(s.incoming, c, IncomingOf),
       provenance := Reindexed(s.provenance, c, ProvenanceOf),
       reverse := Reindexed(s.reverse, c, ReverseOf))
  }

  function PublishChanges(s: Snapshot, changes: seq<RecordChange>): Snapshot
    decreases |changes|
  {
    if changes == [] then s
    else PublishChange(PublishChanges(s, changes[..|changes| - 1]), changes[|changes| - 1])
  }

  function Publish(s: Snapshot, p: PreparedGraph): Snapshot {
    var t := PublishChanges(s, p.changes);
    if p.policyChange.Some?
    then t.(policy := p.policyChange, policyHistory := t.policyHistory[p.revision := p.policyChange.value],
      revision := p.revision)
    else t.(revision := p.revision)
  }

  /** The exact-base check that guards publication. */
  predicate CanPublish(s: Snapshot, p: PreparedGraph) {
    && p.scope == s.scope
    && p.baseRevision == s.revision
    && p.basePolicyVersion == PolicyVersion(s.policy)
    && forall i :: 0 <= i < |p.changes| ==> p.changes[i].before == Lookup(s.records, p.changes[i].id)
  }

  // Runs

  /** One commit attempt at the next revision; a rejected transaction changes nothing. */
  ghost function Commit(s: Snapshot, tx: Transaction): Snapshot {
    match Prepare(s, tx, s.revision + 1)
    case Ok(p) => Publish(s, p)
    case Err(_) => s
  }

  ghost function Run(scope: nat, txs: seq<Transaction>): Snapshot
    decreases |txs|
  {
    if txs == [] then NewSnapshot(scope) else Commit(Run(scope, txs[..|txs| - 1]), txs[|txs| - 1])
  }
}
