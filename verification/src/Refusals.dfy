/** A request the disk path refuses before preparing it is one the reducer rejects too
    (crates/uste-graph/src/state_disk.rs:1303-1310, 1899-1921). */
module Refusals {
  import opened Base
  import opened Records
  import opened References
  import opened Reducer
  import opened Operations
  import opened Integrity
  import opened Publication
  import opened Invariant
  import opened Proofs

  // Preconditions put the named ids in scope

  lemma {:induction false} PreconditionHolds(s: Snapshot, ops: seq<Operation>, i: nat)
    requires i < |ops| && CheckPreconditions(s, ops).Ok?
    ensures CheckScope(s.scope, ops[i].Target()).Ok? && ValidateExpected(s, ops[i].Target(), ops[i].expected).Ok?
      && ValidateCorrectionPrecondition(s, ops[i]).Ok?
  {
    hide ValidateExpected, ValidateCorrectionPrecondition;
    if i > 0 {
      assert ops[1..][i - 1] == ops[i];
      PreconditionHolds(s, ops[1..], i - 1);
    }
  }

  lemma ExpectedInScope(s: Snapshot, target: RecordRef, e: Expected)
    requires ValidateExpected(s, target, e).Ok?
    ensures AllInScope(s.scope, ExpectedIds(e))
  {
  }

  /** The ids an operation names apart from what it writes or declares. */
  lemma {:induction false} PreconditionScopes(s: Snapshot, op: Operation)
    requires CheckScope(s.scope, op.Target()).Ok? && ValidateExpected(s, op.Target(), op.expected).Ok?
      && ValidateCorrectionPrecondition(s, op).Ok?
    ensures op.Target().scope == s.scope && AllInScope(s.scope, ExpectedIds(op.expected))
    ensures op.IsAct() && op.correctionExpected.Some? ==> AllInScope(s.scope, ExpectedIds(op.correctionExpected.value))
    ensures op.IsAct() && op.Correction().Some? ==> op.action == Correct && op.Correction().value.id.scope == s.scope
  {
    hide ValidateExpected;
    ExpectedInScope(s, op.Target(), op.expected);
    if op.IsAct() && op.action == Correct {
      ExpectedInScope(s, op.Correction().value.id, op.correctionExpected.value);
    }
  }

  // What an operation writes is still there at the end

  lemma {:induction false} NextKeepsWritten(s: Snapshot, p: Progress, op: Operation, revision: nat, next: Progress)
    requires Indexed(s) && LoopInvariant(s, p, revision) && ApplyNext(p, op, revision) == Ok(next)
    ensures forall id :: id in p.overlay.changed ==>
      id in next.overlay.changed && next.overlay.changed[id] == p.overlay.changed[id]
  {
    hide NoDangling, CorrectsAccepted, AllLegal, Indexed, ApplyOperation, IndexedOwners, LegalChange;
    var step := ApplyOperation(p.overlay, op, revision).value;
    LoopOverlayIndexed(s, p, revision);
    OperationWrites(p.overlay, op, revision, step);
    NextShape(p, op, revision, step, next);
  }

  ghost predicate Extends(a: map<RecordRef, Record>, b: map<RecordRef, Record>) {
    forall id :: id in a ==> id in b && b[id] == a[id]
  }

  lemma {:induction false} RunKeepsWritten(s: Snapshot, ops: seq<Operation>, revision: nat, k: nat, p: Progress)
    requires Indexed(s) && k <= |ops| && RunOperations(s, ops, revision) == Ok(p)
    ensures RunOperations(s, ops[..k], revision).Ok?
    ensures Extends(RunOperations(s, ops[..k], revision).value.overlay.changed, p.overlay.changed)
    decreases |ops|
  {
    hide ApplyNext, Indexed;
    if k == |ops| {
      assert ops[..k] == ops;
    } else {
      var n := |ops| - 1;
      assert ops[..n][..k] == ops[..k];
      var front := RunOperations(s, ops[..n], revision).value;
      RunKeepsWritten(s, ops[..n], revision, k, front);
      RunKeepsInvariant(s, ops[..n], revision, front);
      NextKeepsWritten(s, front, ops[n], revision, p);
    }
  }

  /** The state of the loop around operation `i`. */
  lemma {:induction false} AroundOperation(s: Snapshot, ops: seq<Operation>, revision: nat, i: nat, p: Progress)
      returns (before: Progress, step: Step)
    requires Indexed(s) && i < |ops| && RunOperations(s, ops, revision) == Ok(p)
    ensures LoopInvariant(s, before, revision) && ApplyOperation(before.overlay, ops[i], revision) == Ok(step)
    ensures Extends(before.overlay.changed, p.overlay.changed) && Extends(step.overlay.changed, p.overlay.changed)
  {
    hide ApplyOperation, Indexed, LoopInvariant, Extends;
    RunKeepsWritten(s, ops, revision, i, p);
    RunKeepsWritten(s, ops, revision, i + 1, p);
    before := RunOperations(s, ops[..i], revision).value;
    RunKeepsInvariant(s, ops[..i], revision, before);
    assert ops[..i + 1][..i] == ops[..i];
    step := ApplyOperation(before.overlay, ops[i], revision).value;
  }

  // What an operation writes names its references

  lemma {:induction false} WrittenNames(o: Overlay, op: Operation, revision: nat, step: Step)
    requires ApplyOperation(o, op, revision) == Ok(step)
    ensures op.Create? ==>
      op.record.Id() in step.overlay.changed && Creates(op.record, step.overlay.changed[op.record.Id()])
    ensures op.ReplaceEntity? ==>
      op.target in step.overlay.changed && HasProperties(step.overlay.changed[op.target], op.properties)
    ensures op.IsAct() && op.action == Correct && op.Correction().Some? ==>
      op.Correction().value.id in step.overlay.changed
        && Says(step.overlay.changed[op.Correction().value.id], op.Correction().value)
  {
    hide DeleteOverlaidEntity;
  }

  predicate HasProperties(r: Record, properties: Value) {
    r.IsActiveEntity() && r.properties == properties
  }

  predicate Creates(new_: NewRecord, r: Record) {
    match new_
    case NewEntity(_, _, _, properties) => HasProperties(r, properties)
    case NewEvidence(_, _, _) => true
    case NewAssertionRecord(a) => Says(r, OfAssertion(a))
    case NewRelationshipRecord(c) => Says(r, OfRelationship(c))
  }

  predicate Says(r: Record, c: NewClaim) {
    r.Claim? && r.body == c.body && r.evidence == c.evidence
  }

  lemma SaidInScope(scope: nat, r: Record, c: NewClaim)
    requires Says(r, c) && WellShaped(scope, r)
    ensures AllInScope(scope, ClaimReferences(c))
  {
  }

  lemma CreatedInScope(scope: nat, r: Record, new_: NewRecord)
    requires Creates(new_, r) && WellShaped(scope, r)
    ensures AllInScope(scope, NewRecordReferences(new_))
  {
    match new_
    case NewAssertionRecord(a) => SaidInScope(scope, r, OfAssertion(a));
    case NewRelationshipRecord(c) => SaidInScope(scope, r, OfRelationship(c));
    case _ =>
  }

  /** Whatever a validated overlay holds is in scope and well shaped. */
  lemma {:induction false} FinalShape(s: Snapshot, p: Progress, revision: nat, changed: map<RecordRef, Record>,
      id: RecordRef)
    requires LoopInvariant(s, p, revision) && AllValid(s.scope, s.records)
      && ValidateChanged(s.scope, p.overlay.View(), p.affected).Ok?
    requires Extends(changed, p.overlay.changed) && (id in changed || id in s.records)
    ensures id.scope == s.scope && (id in changed ==> WellShaped(s.scope, changed[id]))
  {
    hide ValidateChanged, NoDangling, CorrectsAccepted, AllLegal, WellShaped, ReferencesHold;
    if id in changed {
      ChangedAreValid(s.scope, p.overlay.View(), p.affected, id);
    } else {
      assert ValidIn(s.scope, id, s.records);
    }
  }

  lemma {:induction false} DeclaredInScope(s: Snapshot, p: Progress, revision: nat, before: Progress, op: Operation,
      step: Step)
    requires Indexed(s) && AllValid(s.scope, s.records)
    requires LoopInvariant(s, p, revision) && ValidateChanged(s.scope, p.overlay.View(), p.affected).Ok?
    requires LoopInvariant(s, before, revision) && Extends(before.overlay.changed, p.overlay.changed)
    requires op.DeleteEntity? && ApplyOperation(before.overlay, op, revision) == Ok(step)
    ensures AllInScope(s.scope, op.affected)
  {
    hide ValidateChanged, CheckDeletion, RetractAll, MarkDeleted, Extends, LoopInvariant, Indexed, AllValid,
         IndexedOwners, AcceptedOwners, Overlay.ReferencesTo;
    LoopOverlayIndexed(s, before, revision);
    var refs := before.overlay.ReferencesTo(op.target);
    if op.policy.RejectDependents? {
      RejectDeclaresNothing(refs, op.target, op.affected);
    } else {
      CascadeExact(refs, op.target, op.policy.maximumAffected, op.affected);
      forall w | w in op.affected ensures w.scope == s.scope {
        assert w in set id | id in op.affected;
        AcceptedOwnerIsAccepted(before.overlay, op.target, w);
        ViewKeys(s, before, revision, w);
        FinalShape(s, p, revision, before.overlay.changed, w);
      }
    }
  }

  lemma ViewKeys(s: Snapshot, p: Progress, revision: nat, id: RecordRef)
    requires LoopInvariant(s, p, revision) && id in p.overlay.View()
    ensures id in p.overlay.changed || id in s.records
  {
  }

  /** Every id a committed operation names lies in the namespace. */
  lemma {:induction false} AcceptedNamesInScope(s: Snapshot, tx: Transaction, p: PreparedGraph, i: nat)
    requires Consistent(s) && Prepare(s, tx, s.revision + 1) == Ok(p) && i < |tx.operations|
    ensures AllInScope(s.scope, OperationIds(tx.operations[i]))
  {
    hide Prepare, RunOperations, ValidateChanged, CheckPreconditions, Publish, HistoriesKept, HistoricallyClosed,
         PoliciesKept, IndexesMatch, Indexed;
    hide AllValid, LoopInvariant, ApplyOperation, ValidateExpected, ValidateCorrectionPrecondition, Creates,
         HasProperties, Says, WellShaped, Extends, PublishedOverlay;
    var op, revision := tx.operations[i], s.revision + 1;
    var _ := PreparedParts(s, tx, p);
    var final := CommitPublishesOverlay(s, tx, p);
    PreconditionHolds(s, tx.operations, i);
    PreconditionScopes(s, op);
    var before, step := AroundOperation(s, tx.operations, revision, i, final);
    WrittenNames(before.overlay, op, revision, step);
    match op
    case Create(_, record) =>
      FinalShape(s, final, revision, step.overlay.changed, record.Id());
      CreatedInScope(s.scope, step.overlay.changed[record.Id()], record);
    case ReplaceEntity(target, _, properties) =>
      FinalShape(s, final, revision, step.overlay.changed, target);
      PropertiesInScope(s.scope, step.overlay.changed[target], properties);
    case DeleteEntity(_, _, _, _) =>
      DeclaredInScope(s, final, revision, before, op, step);
    case _ =>
      if op.Correction().Some? {
        var c := op.Correction().value;
        FinalShape(s, final, revision, step.overlay.changed, c.id);
        SaidInScope(s.scope, step.overlay.changed[c.id], c);
      }
  }

  lemma PropertiesInScope(scope: nat, r: Record, properties: Value)
    requires HasProperties(r, properties) && WellShaped(scope, r)
    ensures AllInScope(scope, ValueReferences(properties))
  {
  }

  /** A transaction that names anything outside its namespace is rejected by
      the reducer, whatever the disk path says first. */
  lemma {:induction false} StrayNamesAreRejected(s: Snapshot, tx: Transaction, id: RecordRef)
    requires Consistent(s) && id in TransactionIds(tx) && id.scope != s.scope
    ensures Prepare(s, tx, s.revision + 1).Err?
  {
    hide Consistent, OperationIds;
    if Prepare(s, tx, s.revision + 1).Ok? {
      hide Prepare;
      var i :| 0 <= i < |tx.operations| && id in OperationIds(tx.operations[i]);
      AcceptedNamesInScope(s, tx, Prepare(s, tx, s.revision + 1).value, i);
      assert false;
    }
  }
}
