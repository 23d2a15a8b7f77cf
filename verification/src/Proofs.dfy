/** Preparing a transaction on a bounded proof instead of the complete state
    (crates/uste-graph/src/state_disk.rs:1068-1105, 1436-1715; crates/uste-graph/src/state.rs:2998-3028). */
module Proofs {
  import opened Base
  import opened Records
  import opened Index
  import opened References
  import opened Reducer
  import opened Operations

  // What a transaction needs to see

  function ClaimReferences(c: NewClaim): seq<RecordRef> {
    c.body.Endpoints() + ValueReferences(c.body.Payload()) + c.evidence
  }

  function NewRecordReferences(r: NewRecord): seq<RecordRef> {
    match r
    case NewEntity(_, _, _, properties) => ValueReferences(properties)
    case NewEvidence(_, _, _) => []
    case NewAssertionRecord(a) => ClaimReferences(OfAssertion(a))
    case NewRelationshipRecord(r) => ClaimReferences(OfRelationship(r))
  }

  function ExpectedIds(e: Expected): seq<RecordRef> {
    if e.ReadView? then [e.condition.record] else []
  }

  /** The records one operation names, in the order they are required. */
  function OperationIds(op: Operation): seq<RecordRef> {
    [op.Target()] + ExpectedIds(op.expected) +
    match op
    case Create(_, record) => NewRecordReferences(record)
    case ReplaceEntity(_, _, properties) => ValueReferences(properties)
    case DeleteEntity(_, _, _, affected) => affected
    case _ =>
      (if op.Correction().Some? then [op.Correction().value.id] + ClaimReferences(op.Correction().value) else [])
      + (if op.correctionExpected.Some? then ExpectedIds(op.correctionExpected.value) else [])
  }

  /** An operation that keeps the target's own references and so needs them in the proof. */
  predicate RetainsReferences(op: Operation, id: RecordRef) {
    match op
    case DeleteEntity(_, _, _, affected) => BinarySearch(affected, id)
    case ActOnAssertion(target, _, action, _, _) => target == id && action != Correct
    case ActOnRelationship(target, _, action, _, _) => target == id && action != Correct
    case _ => false
  }

  predicate NeedsRetained(tx: Transaction, id: RecordRef) {
    exists i :: 0 <= i < |tx.operations| && RetainsReferences(tx.operations[i], id)
  }

  function MentionedBy(r: Record): set<RecordRef> {
    set m | m in RecordMentions(r) :: m.target
  }

  function OperationHistoryIds(op: Operation): seq<RecordRef> {
    ExpectedIds(op.expected) + (if op.IsAct() && op.correctionExpected.Some?
      then ExpectedIds(op.correctionExpected.value) else [])
  }

  function TransactionIds(tx: Transaction): set<RecordRef> {
    set i, id | 0 <= i < |tx.operations| && id in OperationIds(tx.operations[i]) :: id
  }

  function HistoryTargets(tx: Transaction): set<RecordRef> {
    set i, id | 0 <= i < |tx.operations| && id in OperationHistoryIds(tx.operations[i]) :: id
  }

  function ReverseTargets(tx: Transaction): set<RecordRef> {
    set i | 0 <= i < |tx.operations| && tx.operations[i].DeleteEntity? :: tx.operations[i].target
  }

  // The proof

  /** `current` maps every proved record to its value, or to `None` when it is proved absent. */
  datatype Proof = Proof(scope: nat, revision: nat, current: map<RecordRef, Option<Record>>,
                         history: map<RecordRef, seq<Record>>, reverse: Index<ReverseReference>,
                           policy: Option<NamespacePolicy>)

  /** `required_current_ids`. */
  function RequiredIds(tx: Transaction, current: map<RecordRef, Option<Record>>): set<RecordRef> {
    TransactionIds(tx)
    + set id, t | id in current && current[id].Some? && NeedsRetained(tx, id) && t in MentionedBy(current[id].value) ::
      t
  }

  /** The completeness check made before the reducer runs. */
  predicate Complete(p: Proof, tx: Transaction) {
    RequiredIds(tx, p.current) <= p.current.Keys && HistoryTargets(tx) <= p.history.Keys
      && ReverseTargets(tx) <= p.reverse.Keys
  }

  /** Everything the proof says is true of `s`. */
  ghost predicate TrueOf(p: Proof, s: Snapshot) {
    && p.scope == s.scope && p.revision == s.revision && p.policy == s.policy
    && (forall id :: id in p.current ==> p.current[id] == Lookup(s.records, id))
    && (forall id :: id in p.history ==> p.history[id] == VersionsOf(s.history, id))
    && (forall id :: id in p.reverse ==> p.reverse[id] == Bucket(s.reverse, id))
  }

  function PresentRecords(current: map<RecordRef, Option<Record>>): map<RecordRef, Record> {
    map id | id in current && current[id].Some? :: current[id].value
  }

  /** The partial state the reducer runs on. */
  function PartialState(p: Proof): Snapshot {
    Snapshot(p.scope, p.revision, PresentRecords(p.current), p.history, map[], map[], map[], p.reverse, p.policy, map[])
  }

  // Agreement on the ids that matter

  ghost predicate AgreeOn(ids: set<RecordRef>, a: map<RecordRef, Record>, b: map<RecordRef, Record>) {
    forall id :: id in ids ==> Lookup(a, id) == Lookup(b, id)
  }

  ghost predicate AllIn(ids: seq<RecordRef>, within: set<RecordRef>) {
    forall id :: id in ids ==> id in within
  }

  ghost predicate SameOverlay(ids: set<RecordRef>, targets: set<RecordRef>, a: Overlay, b: Overlay) {
    && a.changed == b.changed
    && AgreeOn(ids, a.base, b.base)
    && (forall t :: t in targets ==> Bucket(a.reverse, t) == Bucket(b.reverse, t))
  }

  lemma SameView(ids: set<RecordRef>, targets: set<RecordRef>, a: Overlay, b: Overlay)
    requires SameOverlay(ids, targets, a, b)
    ensures AgreeOn(ids, a.View(), b.View())
  {
    forall id | id in ids ensures Lookup(a.View(), id) == Lookup(b.View(), id) {
      assert Lookup(a.base, id) == Lookup(b.base, id);
    }
  }

  /** The same failure, or the same records written. */
  ghost predicate SameStep(a: Overlay, b: Overlay, x: StepResult, y: StepResult) {
    if x.Err? then y == Err(x.error)
    else
      && y.Ok? && x.value.affected == y.value.affected
      && x.value.overlay == a.(changed := x.value.overlay.changed)
      && y.value.overlay == b.(changed := x.value.overlay.changed)
  }

  lemma CreateAgrees(ids: set<RecordRef>, a: Overlay, b: Overlay, r: NewRecord, revision: nat)
    requires a.changed == b.changed && AgreeOn(ids, a.View(), b.View()) && r.Id() in ids
    ensures SameStep(a, b, CreateRecord(a, r, revision), CreateRecord(b, r, revision))
  {
    assert Lookup(a.View(), r.Id()) == Lookup(b.View(), r.Id());
  }

  lemma ReplaceAgrees(ids: set<RecordRef>, a: Overlay, b: Overlay, target: RecordRef, properties: Value, revision: nat)
    requires a.changed == b.changed && AgreeOn(ids, a.View(), b.View()) && target in ids
    ensures SameStep(a, b, ReplaceProperties(a, target, properties, revision),
      ReplaceProperties(b, target, properties, revision))
  {
    assert Lookup(a.View(), target) == Lookup(b.View(), target);
  }

  lemma ActAgrees(ids: set<RecordRef>, a: Overlay, b: Overlay, kind: ClaimKind, target: RecordRef, action: Action,
      correction: Option<NewClaim>, revision: nat)
    requires a.changed == b.changed && AgreeOn(ids, a.View(), b.View()) && target in ids
      && (correction.Some? ==> correction.value.id in ids)
    ensures SameStep(a, b, ActOnClaim(a, kind, target, action, correction, revision),
      ActOnClaim(b, kind, target, action, correction, revision))
  {
    assert Lookup(a.View(), target) == Lookup(b.View(), target);
    if correction.Some? {
      assert Lookup(a.View(), correction.value.id) == Lookup(b.View(), correction.value.id);
    }
  }

  lemma ReferencesAgree(a: Overlay, b: Overlay, target: RecordRef)
    requires a.changed == b.changed && Bucket(a.reverse, target) == Bucket(b.reverse, target)
    ensures a.ReferencesTo(target) == b.ReferencesTo(target)
  {
  }

  lemma RetractableAgrees(ids: set<RecordRef>, a: map<RecordRef, Record>, b: map<RecordRef, Record>,
      declared: seq<RecordRef>, kind: ClaimKind)
    requires AgreeOn(ids, a, b) && AllIn(declared, ids)
    ensures CheckRetractables(a, kind, declared) == CheckRetractables(b, kind, declared)
  {
    forall id | id in declared ensures CheckRetractable(a, kind, id) == CheckRetractable(b, kind, id) {
      assert Lookup(a, id) == Lookup(b, id);
    }
    FirstFailureAgrees(declared, id => CheckRetractable(a, kind, id), id => CheckRetractable(b, kind, id));
  }

  lemma RetractedAgrees(ids: set<RecordRef>, a: map<RecordRef, Record>, b: map<RecordRef, Record>,
      declared: seq<RecordRef>, revision: nat)
    requires AgreeOn(ids, a, b) && AllIn(declared, ids)
    ensures RetractedClaims(a, declared, revision) == RetractedClaims(b, declared, revision)
  {
    hide RetractedVersion;
    forall id | id in declared ensures Lookup(a, id) == Lookup(b, id) {}
  }

  lemma {:induction false} RetractAgrees(ids: set<RecordRef>, a: Overlay, b: Overlay, declared: seq<RecordRef>,
      revision: nat)
    requires a.changed == b.changed && AgreeOn(ids, a.View(), b.View()) && AllIn(declared, ids)
    ensures SameStep(a, b, RetractAll(a, declared, revision), RetractAll(b, declared, revision))
  {
    hide RetractedClaims, CheckRetractables, AgreeOn, AllIn;
    RetractableAgrees(ids, a.View(), b.View(), declared, RelationshipKind);
    RetractableAgrees(ids, a.View(), b.View(), declared, AssertionKind);
    RetractedAgrees(ids, a.View(), b.View(), declared, revision);
  }

  lemma MarkDeletedAgrees(a: Overlay, b: Overlay, x: Step, y: Step, target: RecordRef, revision: nat)
    requires SameStep(a, b, Ok(x), Ok(y)) && Lookup(a.base, target) == Lookup(b.base, target)
    requires target in x.overlay.View() && x.overlay.View()[target].Entity?
    ensures target in y.overlay.View() && y.overlay.View()[target].Entity?
    ensures SameStep(a, b, MarkDeleted(x, target, revision), MarkDeleted(y, target, revision))
  {
  }

  lemma {:induction false} DeleteAgrees(ids: set<RecordRef>, a: Overlay, b: Overlay, target: RecordRef,
      policy: DeletePolicy, declared: seq<RecordRef>, revision: nat)
    requires a.changed == b.changed && AgreeOn(ids, a.base, b.base) && AgreeOn(ids, a.View(), b.View())
    requires Bucket(a.reverse, target) == Bucket(b.reverse, target) && target in ids && AllIn(declared, ids)
    ensures SameStep(a, b, DeleteOverlaidEntity(a, target, policy, declared, revision),
      DeleteOverlaidEntity(b, target, policy, declared, revision))
  {
    hide CheckDeletion, RetractAll, MarkDeleted;
    assert Lookup(a.View(), target) == Lookup(b.View(), target) && Lookup(a.base, target) == Lookup(b.base, target);
    ReferencesAgree(a, b, target);
    if target in a.View() && a.View()[target].IsActiveEntity()
      && CheckDeletion(a.ReferencesTo(target), target, policy, declared).Ok? {
      if policy.RejectDependents? {
        MarkDeletedAgrees(a, b, Step(a, {}), Step(b, {}), target, revision);
      } else {
        RetractAgrees(ids, a, b, declared, revision);
        if RetractAll(a, declared, revision).Ok? {
          RetractedKeepEntities(a, declared, revision, target);
          MarkDeletedAgrees(a, b, RetractAll(a, declared, revision).value, RetractAll(b, declared, revision).value,
            target, revision);
        }
      }
    }
  }

  /** Every operation does the same to two overlays that agree on the ids it names. */
  lemma {:induction false} OperationAgrees(ids: set<RecordRef>, targets: set<RecordRef>, a: Overlay, b: Overlay,
      op: Operation, revision: nat)
    requires SameOverlay(ids, targets, a, b)
    requires AllIn(OperationIds(op), ids) && (op.DeleteEntity? ==> op.target in targets)
    ensures SameStep(a, b, ApplyOperation(a, op, revision), ApplyOperation(b, op, revision))
  {
    hide CreateRecord, ReplaceProperties, ActOnClaim, DeleteOverlaidEntity, SameStep;
    SameView(ids, targets, a, b);
    assert OperationIds(op)[0] == op.Target();
    match op
    case Create(_, record) => CreateAgrees(ids, a, b, record, revision);
    case ReplaceEntity(target, _, properties) => ReplaceAgrees(ids, a, b, target, properties, revision);
    case DeleteEntity(target, _, policy, affected) => DeleteAgrees(ids, a, b, target, policy, affected, revision);
    case _ => ActAgrees(ids, a, b, op.ActKind(), op.target, op.action, op.Correction(), revision);
  }

  // Everything a changed record refers to is in the proof

  ghost predicate CoveredRecord(ids: set<RecordRef>, r: Record) {
    match r
    case Entity(_, _, active, _, _, properties, _, _) => active ==> AllIn(ValueReferences(properties), ids)
    case Evidence(_, _, _, _, _) => true
    case Claim(_, _, body, evidence, _, _, correctionOf, _, _) =>
      && AllIn(body.Endpoints(), ids) && AllIn(ValueReferences(body.Payload()), ids) && AllIn(evidence, ids)
      && (correctionOf.Some? ==> correctionOf.value in ids)
  }

  ghost predicate Covered(ids: set<RecordRef>, changed: map<RecordRef, Record>) {
    forall id :: id in changed ==> id in ids && CoveredRecord(ids, changed[id])
  }

  ghost predicate RetainedIn(op: Operation, ids: set<RecordRef>, base: map<RecordRef, Record>) {
    forall id :: id in base && RetainsReferences(op, id) ==> MentionedBy(base[id]) <= ids
  }

  lemma MentionsAreTargets(list: seq<RecordRef>, role: Role, all: seq<Mention>, ids: set<RecordRef>)
    requires forall m :: m in Mentions(list, role) ==> m in all
    requires forall m :: m in all ==> m.target in ids
    ensures AllIn(list, ids)
  {
    forall id | id in list ensures id in ids {
      var i :| 0 <= i < |list| && list[i] == id;
      assert Mentions(list, role)[i] == Mention(id, role);
    }
  }

  lemma {:induction false} MentionedCovers(ids: set<RecordRef>, r: Record)
    requires r.Claim? && MentionedBy(r) <= ids
    ensures CoveredRecord(ids, r)
  {
    var all := RecordMentions(r);
    assert forall m :: m in all ==> m.target in MentionedBy(r);
    MentionsAreTargets(ValueReferences(r.body.Payload()), PayloadRole(r.body), all, ids);
    MentionsAreTargets(r.evidence, EvidenceRole, all, ids);
    assert forall m :: m in EndpointMentions(r.body) ==> m in all;
    if r.body.RelationshipBody? {
      assert Mention(r.body.from, RelationshipFrom) in EndpointMentions(r.body)
        && Mention(r.body.to, RelationshipTo) in EndpointMentions(r.body);
    } else {
      assert Mention(r.body.subject, AssertionSubject) in EndpointMentions(r.body);
    }
    if r.correctionOf.Some? {
      assert Mention(r.correctionOf.value, CorrectionRole) in all;
    }
  }

  /** A claim the operation keeps is covered, whether it comes from the base or from an earlier operation. */
  lemma RetainedIsCovered(ids: set<RecordRef>, o: Overlay, op: Operation, id: RecordRef)
    requires Covered(ids, o.changed) && RetainedIn(op, ids, o.base)
    requires RetainsReferences(op, id) && id in o.View() && o.View()[id].Claim?
    ensures CoveredRecord(ids, o.View()[id])
  {
    if id !in o.changed {
      MentionedCovers(ids, o.base[id]);
    }
  }

  lemma ClaimIsCovered(ids: set<RecordRef>, c: NewClaim, correctionOf: Option<RecordRef>, revision: nat)
    requires AllIn(ClaimReferences(c), ids) && (correctionOf.Some? ==> correctionOf.value in ids)
    ensures CoveredRecord(ids, ProposedClaim(c, correctionOf, revision))
  {
    var all := ClaimReferences(c);
    assert forall id :: id in c.body.Endpoints() ==> id in all;
    assert forall id :: id in ValueReferences(c.body.Payload()) ==> id in all;
    assert forall id :: id in c.evidence ==> id in all;
  }

  lemma CreateCovers(ids: set<RecordRef>, o: Overlay, r: NewRecord, revision: nat, step: Step)
    requires Covered(ids, o.changed) && r.Id() in ids && AllIn(NewRecordReferences(r), ids)
    requires CreateRecord(o, r, revision) == Ok(step)
    ensures Covered(ids, step.overlay.changed)
  {
    match r
    case NewAssertionRecord(a) => ClaimIsCovered(ids, OfAssertion(a), None, revision);
    case NewRelationshipRecord(c) => ClaimIsCovered(ids, OfRelationship(c), None, revision);
    case _ =>
  }

  lemma {:induction false} ActCovers(ids: set<RecordRef>, o: Overlay, op: Operation, revision: nat, step: Step)
    requires op.IsAct() && Covered(ids, o.changed) && RetainedIn(op, ids, o.base) && op.target in ids
    requires op.Correction().Some? ==>
      op.Correction().value.id in ids && AllIn(ClaimReferences(op.Correction().value), ids)
    requires ActOnClaim(o, op.ActKind(), op.target, op.action, op.Correction(), revision) == Ok(step)
    ensures Covered(ids, step.overlay.changed)
  {
    if op.action == Correct {
      ClaimIsCovered(ids, op.Correction().value, Some(op.target), revision);
    } else {
      RetainedIsCovered(ids, o, op, op.target);
    }
  }

  lemma {:induction false} RetractedAreCovered(ids: set<RecordRef>, o: Overlay, op: Operation, revision: nat)
    requires op.DeleteEntity? && Covered(ids, o.changed) && RetainedIn(op, ids, o.base) && AllIn(op.affected, ids)
    requires Increasing(op.affected, Less)
    ensures Covered(ids, RetractedClaims(o.View(), op.affected, revision))
  {
    hide RetainedIn;
    var retracted := RetractedClaims(o.View(), op.affected, revision);
    forall id | id in retracted ensures id in ids && CoveredRecord(ids, retracted[id]) {
      BinarySearchComplete(op.affected, id);
      RetainedIsCovered(ids, o, op, id);
    }
  }

  /** A deletion adds the retracted claims and the target's tombstone to the overlay, and nothing else. */
  lemma DeleteShape(o: Overlay, target: RecordRef, policy: DeletePolicy, declared: seq<RecordRef>, revision: nat,
      step: Step)
    requires DeleteOverlaidEntity(o, target, policy, declared, revision) == Ok(step)
    ensures var retracted := if policy.RejectDependents? then map[] else RetractedClaims(o.View(), declared, revision);
      && target in step.overlay.changed
      && step.overlay.changed == (o.changed + retracted)[target := step.overlay.changed[target]]
      && step.affected == retracted.Keys + {target}
      && step.overlay.changed[target].Entity? && !step.overlay.changed[target].active
  {
    hide CheckDeletion, RetractedClaims, CheckRetractables;
  }

  lemma {:induction false} DeleteCovers(ids: set<RecordRef>, o: Overlay, op: Operation, revision: nat, step: Step)
    requires op.DeleteEntity? && Covered(ids, o.changed) && RetainedIn(op, ids, o.base) && op.target in ids
      && AllIn(op.affected, ids)
    requires DeleteOverlaidEntity(o, op.target, op.policy, op.affected, revision) == Ok(step)
    ensures Covered(ids, step.overlay.changed)
  {
    hide CheckDeletion, RetainedIn, RetractedClaims, RetractAll, MarkDeleted;
    DeleteShape(o, op.target, op.policy, op.affected, revision, step);
    if op.policy.CascadeAndRetract? {
      assert Increasing(op.affected, Less) by {
        CascadeExact(o.ReferencesTo(op.target), op.target, op.policy.maximumAffected, op.affected);
      }
      RetractedAreCovered(ids, o, op, revision);
    }
  }

  lemma {:induction false} OperationCovers(ids: set<RecordRef>, o: Overlay, op: Operation, revision: nat, step: Step)
    requires Covered(ids, o.changed) && RetainedIn(op, ids, o.base) && AllIn(OperationIds(op), ids)
    requires ApplyOperation(o, op, revision) == Ok(step)
    ensures Covered(ids, step.overlay.changed)
  {
    hide CreateRecord, ActOnClaim, DeleteOverlaidEntity, Covered, RetainedIn, CoveredRecord;
    var named := OperationIds(op);
    assert named[0] == op.Target();
    match op
    case Create(_, record) =>
      assert forall id :: id in NewRecordReferences(record) ==> id in named;
      CreateCovers(ids, o, record, revision, step);
    case ReplaceEntity(target, _, properties) =>
      assert forall id :: id in ValueReferences(properties) ==> id in named;
      ReplaceCovers(ids, o, target, properties, revision, step);
    case DeleteEntity(_, _, _, affected) =>
      assert forall id :: id in affected ==> id in named;
      DeleteCovers(ids, o, op, revision, step);
    case _ =>
      assert op.Correction().Some? ==>
        forall id :: id == op.Correction().value.id || id in ClaimReferences(op.Correction().value) ==> id in named;
      ActCovers(ids, o, op, revision, step);
  }

  lemma ReplaceCovers(ids: set<RecordRef>, o: Overlay, target: RecordRef, properties: Value, revision: nat, step: Step)
    requires Covered(ids, o.changed) && target in ids && AllIn(ValueReferences(properties), ids)
    requires ReplaceProperties(o, target, properties, revision) == Ok(step)
    ensures Covered(ids, step.overlay.changed)
  {
  }

  // Validation sees the same records

  lemma VisibleAgrees(ids: set<RecordRef>, a: map<RecordRef, Record>, b: map<RecordRef, Record>, list: seq<RecordRef>,
      scope: nat)
    requires AgreeOn(ids, a, b) && AllIn(list, ids)
    ensures FirstFailure(list, id => CheckVisible(a, scope, id)) == FirstFailure(list, id => CheckVisible(b, scope, id))
    ensures FirstFailure(list, id => CheckActive(a, id)) == FirstFailure(list, id => CheckActive(b, id))
  {
    forall id | id in list
      ensures CheckVisible(a, scope, id) == CheckVisible(b, scope, id) && CheckActive(a, id) == CheckActive(b, id)
    {
      assert Lookup(a, id) == Lookup(b, id);
    }
    FirstFailureAgrees(list, id => CheckVisible(a, scope, id), id => CheckVisible(b, scope, id));
    FirstFailureAgrees(list, id => CheckActive(a, id), id => CheckActive(b, id));
  }

  lemma {:induction false} EvidenceAgrees(ids: set<RecordRef>, a: map<RecordRef, Record>, b: map<RecordRef, Record>,
      scope: nat, evidence: seq<RecordRef>, i: nat)
    requires AgreeOn(ids, a, b) && AllIn(evidence, ids) && i <= |evidence|
    ensures EvidenceFrom(a, scope, evidence, i) == EvidenceFrom(b, scope, evidence, i)
    decreases |evidence| - i
  {
    if i < |evidence| {
      assert evidence[i] in evidence && Lookup(a, evidence[i]) == Lookup(b, evidence[i]);
      EvidenceAgrees(ids, a, b, scope, evidence, i + 1);
    }
  }

  lemma {:induction false} ValidateAgrees(ids: set<RecordRef>, a: map<RecordRef, Record>, b: map<RecordRef, Record>,
      scope: nat, id: RecordRef, r: Record)
    requires AgreeOn(ids, a, b) && CoveredRecord(ids, r)
    ensures ValidateRecord(scope, id, r, a) == ValidateRecord(scope, id, r, b)
  {
    hide FirstFailure, EvidenceFrom, CheckVisible, CheckActive;
    match r
    case Entity(_, _, active, _, _, properties, _, _) =>
      if active { VisibleAgrees(ids, a, b, ValueReferences(properties), scope); }
    case Evidence(_, _, _, _, _) =>
    case Claim(_, _, body, evidence, _, _, correctionOf, _, _) =>
      VisibleAgrees(ids, a, b, body.Endpoints(), scope);
      VisibleAgrees(ids, a, b, ValueReferences(body.Payload()), scope);
      EvidenceAgrees(ids, a, b, scope, evidence, 0);
      if correctionOf.Some? { assert Lookup(a, correctionOf.value) == Lookup(b, correctionOf.value); }
  }

  lemma {:induction false} ValidateChangedAgrees(ids: set<RecordRef>, a: map<RecordRef, Record>,
      b: map<RecordRef, Record>, scope: nat, changed: map<RecordRef, Record>)
    requires AgreeOn(ids, a, b) && Covered(ids, changed)
    ensures ValidateChanged(scope, a + changed, changed.Keys) == ValidateChanged(scope, b + changed, changed.Keys)
  {
    hide ValidateRecord;
    var va, vb := a + changed, b + changed;
    assert AgreeOn(ids, va, vb) by {
      forall id | id in ids ensures Lookup(va, id) == Lookup(vb, id) { assert Lookup(a, id) == Lookup(b, id); }
    }
    var list := Sorted(changed.Keys);
    var f := id => if id in va then ValidateRecord(scope, id, va[id], va) else Err(IndexCorrupt(id));
    var g := id => if id in vb then ValidateRecord(scope, id, vb[id], vb) else Err(IndexCorrupt(id));
    forall id | id in list ensures f(id) == g(id) {
      assert id in changed.Keys;
      ValidateAgrees(ids, va, vb, scope, id, changed[id]);
    }
    FirstFailureAgrees(list, f, g);
  }

  // Preconditions see the same records and histories

  ghost predicate SameSources(ids: set<RecordRef>, past: set<RecordRef>, a: Snapshot, b: Snapshot) {
    && a.scope == b.scope && a.revision == b.revision && a.policy == b.policy
    && AgreeOn(ids, a.records, b.records)
    && (forall id :: id in past ==> VersionsOf(a.history, id) == VersionsOf(b.history, id))
  }

  lemma ExpectedAgrees(ids: set<RecordRef>, past: set<RecordRef>, a: Snapshot, b: Snapshot, target: RecordRef,
      e: Expected)
    requires SameSources(ids, past, a, b) && target in ids && AllIn(ExpectedIds(e), ids) && AllIn(ExpectedIds(e), past)
    ensures ValidateExpected(a, target, e) == ValidateExpected(b, target, e)
  {
    assert Lookup(a.records, target) == Lookup(b.records, target);
    if e.ReadView? {
      var id := e.condition.record;
      assert id in ExpectedIds(e);
      assert Lookup(a.records, id) == Lookup(b.records, id);
      assert VersionsOf(a.history, id) == VersionsOf(b.history, id);
      assert RecordAt(a.history, id, e.revision) == RecordAt(b.history, id, e.revision);
    }
  }

  lemma {:induction false} PreconditionAgrees(ids: set<RecordRef>, past: set<RecordRef>, a: Snapshot, b: Snapshot,
      op: Operation)
    requires SameSources(ids, past, a, b) && AllIn(OperationIds(op), ids) && AllIn(OperationHistoryIds(op), past)
    ensures ValidateExpected(a, op.Target(), op.expected) == ValidateExpected(b, op.Target(), op.expected)
    ensures ValidateCorrectionPrecondition(a, op) == ValidateCorrectionPrecondition(b, op)
  {
    hide ValidateExpected, SameSources;
    var named, history := OperationIds(op), OperationHistoryIds(op);
    assert named[0] == op.Target();
    assert forall id :: id in ExpectedIds(op.expected) ==> id in named && id in history;
    ExpectedAgrees(ids, past, a, b, op.Target(), op.expected);
    if op.IsAct() && op.Correction().Some? && op.correctionExpected.Some? {
      assert op.Correction().value.id in named;
      assert forall id :: id in ExpectedIds(op.correctionExpected.value) ==> id in named && id in history;
      ExpectedAgrees(ids, past, a, b, op.Correction().value.id, op.correctionExpected.value);
    }
    ScopesAgree(ids, past, a, b);
  }

  lemma ScopesAgree(ids: set<RecordRef>, past: set<RecordRef>, a: Snapshot, b: Snapshot)
    requires SameSources(ids, past, a, b)
    ensures a.scope == b.scope && a.revision == b.revision && a.policy == b.policy
  {
  }

  lemma {:induction false} PreconditionsAgree(ids: set<RecordRef>, past: set<RecordRef>, a: Snapshot, b: Snapshot,
      ops: seq<Operation>)
    requires SameSources(ids, past, a, b)
    requires forall i :: 0 <= i < |ops| ==> AllIn(OperationIds(ops[i]), ids) && AllIn(OperationHistoryIds(ops[i]), past)
    ensures CheckPreconditions(a, ops) == CheckPreconditions(b, ops)
  {
    hide SameSources, ValidateExpected, ValidateCorrectionPrecondition, OperationIds, OperationHistoryIds, AllIn;
    if ops != [] {
      ScopesAgree(ids, past, a, b);
      PreconditionAgrees(ids, past, a, b, ops[0]);
      PreconditionsAgree(ids, past, a, b, ops[1..]);
    }
  }

  // The operation loop

  ghost predicate Named(ids: set<RecordRef>, targets: set<RecordRef>, base: map<RecordRef, Record>, op: Operation) {
    && AllIn(OperationIds(op), ids)
    && (op.DeleteEntity? ==> op.target in targets)
    && RetainedIn(op, ids, base)
  }

  ghost predicate SameProgress(ids: set<RecordRef>, a: Snapshot, b: Snapshot, x: Result<Progress, GraphError>,
      y: Result<Progress, GraphError>) {
    if x.Err? then y == Err(x.error)
    else
      && y.Ok? && x.value.affected == y.value.affected && x.value.protected_ == y.value.protected_
      && x.value.affected == x.value.overlay.changed.Keys
      && x.value.overlay == Overlay(a.records, a.reverse, x.value.overlay.changed)
      && y.value.overlay == Overlay(b.records, b.reverse, x.value.overlay.changed)
      && Covered(ids, x.value.overlay.changed)
  }

  lemma CreateTouches(o: Overlay, r: NewRecord, revision: nat, step: Step)
    requires CreateRecord(o, r, revision) == Ok(step)
    ensures step.overlay.changed.Keys == o.changed.Keys + step.affected
  {
  }

  lemma ReplaceTouches(o: Overlay, target: RecordRef, properties: Value, revision: nat, step: Step)
    requires ReplaceProperties(o, target, properties, revision) == Ok(step)
    ensures step.overlay.changed.Keys == o.changed.Keys + step.affected
  {
  }

  lemma ActTouches(o: Overlay, kind: ClaimKind, target: RecordRef, action: Action, correction: Option<NewClaim>,
      revision: nat, step: Step)
    requires ActOnClaim(o, kind, target, action, correction, revision) == Ok(step)
    ensures step.overlay.changed.Keys == o.changed.Keys + step.affected
  {
  }

  lemma OperationTouches(o: Overlay, op: Operation, revision: nat, step: Step)
    requires ApplyOperation(o, op, revision) == Ok(step)
    ensures step.overlay.changed.Keys == o.changed.Keys + step.affected
  {
    hide DeleteOverlaidEntity, CreateRecord, ReplaceProperties, ActOnClaim;
    match op
    case Create(_, record) => CreateTouches(o, record, revision, step);
    case ReplaceEntity(target, _, properties) => ReplaceTouches(o, target, properties, revision, step);
    case DeleteEntity(target, _, policy, affected) => DeleteShape(o, target, policy, affected, revision, step);
    case _ => ActTouches(o, op.ActKind(), op.target, op.action, op.Correction(), revision, step);
  }

  lemma {:induction false} NextAgrees(ids: set<RecordRef>, targets: set<RecordRef>, a: Snapshot, b: Snapshot,
      p: Progress, q: Progress, op: Operation, revision: nat)
    requires AgreeOn(ids, a.records, b.records) && (forall t :: t in targets ==>
      Bucket(a.reverse, t) == Bucket(b.reverse, t))
    requires Named(ids, targets, a.records, op)
    requires SameProgress(ids, a, b, Ok(p), Ok(q))
    ensures SameProgress(ids, a, b, ApplyNext(p, op, revision), ApplyNext(q, op, revision))
  {
    hide ApplyOperation, RetainedIn, Covered, OperationIds;
    assert SameOverlay(ids, targets, p.overlay, q.overlay);
    OperationAgrees(ids, targets, p.overlay, q.overlay, op, revision);
    if ApplyOperation(p.overlay, op, revision).Ok? {
      OperationCovers(ids, p.overlay, op, revision, ApplyOperation(p.overlay, op, revision).value);
      OperationTouches(p.overlay, op, revision, ApplyOperation(p.overlay, op, revision).value);
    }
  }

  lemma {:induction false} RunAgrees(ids: set<RecordRef>, targets: set<RecordRef>, a: Snapshot, b: Snapshot,
      ops: seq<Operation>, revision: nat)
    requires AgreeOn(ids, a.records, b.records) && (forall t :: t in targets ==>
      Bucket(a.reverse, t) == Bucket(b.reverse, t))
    requires forall i :: 0 <= i < |ops| ==> Named(ids, targets, a.records, ops[i])
    ensures SameProgress(ids, a, b, RunOperations(a, ops, revision), RunOperations(b, ops, revision))
    decreases |ops|
  {
    hide ApplyNext, Named, AgreeOn;
    if ops != [] {
      var front := ops[..|ops| - 1];
      RunAgrees(ids, targets, a, b, front, revision);
      if RunOperations(a, front, revision).Ok? {
        NextAgrees(ids, targets, a, b, RunOperations(a, front, revision).value, RunOperations(b, front, revision).value,
          ops[|ops| - 1], revision);
      }
    }
  }

  // Sufficiency

  ghost predicate SameBuckets(targets: set<RecordRef>, a: Snapshot, b: Snapshot) {
    forall t :: t in targets ==> Bucket(a.reverse, t) == Bucket(b.reverse, t)
  }

  lemma {:induction false} ChangesAgree(ids: set<RecordRef>, a: Overlay, b: Overlay)
    requires a.changed == b.changed && AgreeOn(ids, a.base, b.base) && a.changed.Keys <= ids
    ensures ChangesOf(a) == ChangesOf(b)
  {
    var list := Sorted(a.changed.Keys);
    forall i | 0 <= i < |list| ensures ChangesOf(a)[i] == ChangesOf(b)[i] {
      assert list[i] in a.changed.Keys;
      assert Lookup(a.base, list[i]) == Lookup(b.base, list[i]);
    }
  }

  /** Two states that agree on what the transaction names prepare it alike. */
  lemma {:induction false} PrepareAgrees(ids: set<RecordRef>, past: set<RecordRef>, targets: set<RecordRef>,
      a: Snapshot, b: Snapshot, tx: Transaction, revision: nat)
    requires SameSources(ids, past, a, b) && SameBuckets(targets, a, b)
    requires forall i :: 0 <= i < |tx.operations| ==>
      Named(ids, targets, a.records, tx.operations[i]) && AllIn(OperationHistoryIds(tx.operations[i]), past)
    ensures Prepare(a, tx, revision) == Prepare(b, tx, revision)
  {
    hide RunOperations, CheckPreconditions, ValidateChanged, ChangesOf, RetainedIn, OperationIds, OperationHistoryIds,
         ValidateRequestLimits;
    PreconditionsAgree(ids, past, a, b, tx.operations);
    RunAgrees(ids, targets, a, b, tx.operations, revision);
    var x, y := RunOperations(a, tx.operations, revision), RunOperations(b, tx.operations, revision);
    if x.Ok? {
      ValidateChangedAgrees(ids, a.records, b.records, a.scope, x.value.overlay.changed);
      ChangesAgree(ids, x.value.overlay, y.value.overlay);
    }
  }

  lemma {:induction false} CompleteNames(p: Proof, tx: Transaction, i: nat)
    requires Complete(p, tx) && i < |tx.operations|
    ensures Named(p.current.Keys, p.reverse.Keys, PresentRecords(p.current), tx.operations[i])
    ensures AllIn(OperationHistoryIds(tx.operations[i]), p.history.Keys)
  {
    hide OperationIds, OperationHistoryIds, MentionedBy, RetainsReferences;
    var op := tx.operations[i];
    forall id | id in OperationIds(op) ensures id in p.current.Keys { assert id in TransactionIds(tx); }
    forall id | id in OperationHistoryIds(op) ensures id in p.history.Keys { assert id in HistoryTargets(tx); }
    if op.DeleteEntity? { assert op.target in ReverseTargets(tx); }
    var base := PresentRecords(p.current);
    forall id | id in base && RetainsReferences(op, id) ensures MentionedBy(base[id]) <= p.current.Keys {
      assert NeedsRetained(tx, id);
      forall t | t in MentionedBy(base[id]) ensures t in p.current.Keys { assert t in RequiredIds(tx, p.current); }
    }
  }

  lemma TrueProofAgrees(p: Proof, s: Snapshot)
    requires TrueOf(p, s)
    ensures SameSources(p.current.Keys, p.history.Keys, PartialState(p), s)
      && SameBuckets(p.reverse.Keys, PartialState(p), s)
  {
  }

  /** Proof sufficiency: on a true and complete proof the reducer prepares exactly what it prepares on the whole
      state, down to the error of a rejection. */
  lemma {:induction false} ProofSuffices(p: Proof, s: Snapshot, tx: Transaction, revision: nat)
    requires TrueOf(p, s) && Complete(p, tx)
    ensures Prepare(PartialState(p), tx, revision) == Prepare(s, tx, revision)
  {
    hide Prepare, SameSources, SameBuckets, TrueOf, Complete, Named, OperationHistoryIds;
    TrueProofAgrees(p, s);
    forall i | 0 <= i < |tx.operations|
      ensures Named(p.current.Keys, p.reverse.Keys, PresentRecords(p.current), tx.operations[i])
        && AllIn(OperationHistoryIds(tx.operations[i]), p.history.Keys)
    {
      CompleteNames(p, tx, i);
    }
    PrepareAgrees(p.current.Keys, p.history.Keys, p.reverse.Keys, PartialState(p), s, tx, revision);
  }
}
