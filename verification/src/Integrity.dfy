/** Referential integrity: each commit validates only the records it changed, yet every record stays valid
    (crates/uste-graph/src/state.rs:359-401, 2457-2684). */
module Integrity {
  import opened Base
  import opened Records
  import opened Index
  import opened References
  import opened Reducer
  import opened Operations

  /** `r` needs the entity `e` to be active. */
  predicate Depends(r: Record, e: RecordRef) {
    match r
    case Entity(_, _, active, _, _, properties, _, _) => active && e in ValueReferences(properties)
    case Evidence(_, _, _, _, _) => false
    case Claim(_, _, body, _, _, _, _, _, _) =>
      r.IsLiveClaim() && (e in body.Endpoints() || e in ValueReferences(body.Payload()))
  }

  lemma MentionsHave(ids: seq<RecordRef>, role: Role, id: RecordRef)
    requires id in ids
    ensures Mention(id, role) in Mentions(ids, role)
  {
    var i :| 0 <= i < |ids| && ids[i] == id;
    assert Mentions(ids, role)[i] == Mention(id, role);
  }

  lemma MentionIsIndexed(r: Record, m: Mention)
    requires m in RecordMentions(r)
    ensures m.target in ReverseOf(r) && ReverseOf(r)[m.target] == Describe(r, Roles(r, m.target))
      && m.role in Roles(r, m.target)
  {
  }

  lemma DependencyMention(r: Record, e: RecordRef) returns (m: Mention)
    requires Depends(r, e)
    ensures m.target == e && m in RecordMentions(r)
    ensures r.Entity? ==> m.role == EntityProperty
    ensures r.Claim? && r.body.AssertionBody? ==> m.role == AssertionSubject || m.role == AssertionObject
    ensures r.Claim? && r.body.RelationshipBody? ==>
      m.role == RelationshipFrom || m.role == RelationshipTo || m.role == RelationshipProperty
  {
    match r
    case Entity(_, _, _, _, _, properties, _, _) =>
      MentionsHave(ValueReferences(properties), EntityProperty, e);
      m := Mention(e, EntityProperty);
    case Claim(_, _, body, evidence, _, _, correctionOf, _, _) =>
      if e in ValueReferences(body.Payload()) {
        MentionsHave(ValueReferences(body.Payload()), PayloadRole(body), e);
        m := Mention(e, PayloadRole(body));
      } else {
        m :| m in EndpointMentions(body) && m.target == e;
      }
  }

  /** The reverse index describes every dependency in a way the deletion scan recognises. */
  lemma DependencyIsRecognised(r: Record, e: RecordRef)
    requires Depends(r, e)
    ensures e in ReverseOf(r)
    ensures var d := ReverseOf(r)[e]; IsAcceptedDependency(d) || IsProposedDependency(d) || IsEntityDependency(d)
  {
    var m := DependencyMention(r, e);
    MentionIsIndexed(r, m);
    if r.Claim? {
      assert m.role in Roles(r, e) * ClaimRoles(Describe(r, Roles(r, e)).ownerKind);
    }
  }

  lemma {:induction false} DependentIsOwner(o: Overlay, target: RecordRef, w: RecordRef)
    requires IndexedOwners(o) && w in o.View() && Depends(o.View()[w], target) && w != target
    ensures var refs := o.ReferencesTo(target);
      w in AcceptedOwners(refs) || w in ProposedOwners(refs) || w in EntityOwners(refs, target)
  {
    DependencyIsRecognised(o.View()[w], target);
    ReferenceIsCurrent(o, w, target);
    ReverseForIsLookup(o.View()[w], target);
    assert w in o.changed || Has(o.reverse, target, w);
  }

  /** A successful deletion leaves no dependent outside the records it wrote or that were already written. */
  lemma {:induction false} DeletionLeavesNoDependent(o: Overlay, target: RecordRef, policy: DeletePolicy,
      declared: seq<RecordRef>, revision: nat, w: RecordRef)
    requires IndexedOwners(o)
    requires target in o.View() && CheckDeletion(o.ReferencesTo(target), target, policy, declared).Ok?
    requires w in o.View() && w != target && w !in RetractedClaims(o.View(), declared, revision)
    ensures !Depends(o.View()[w], target)
  {
    if Depends(o.View()[w], target) {
      DependentIsOwner(o, target, w);
      if policy.CascadeAndRetract? {
        CascadeExact(o.ReferencesTo(target), target, policy.maximumAffected, declared);
        AcceptedIsRetracted(o, target, declared, revision, w);
      }
      assert false;
    }
  }

  lemma AcceptedIsRetracted(o: Overlay, target: RecordRef, declared: seq<RecordRef>, revision: nat, w: RecordRef)
    requires IndexedOwners(o)
    requires (set id | id in declared) == AcceptedOwners(o.ReferencesTo(target))
    ensures w in AcceptedOwners(o.ReferencesTo(target)) ==> w in RetractedClaims(o.View(), declared, revision)
  {
    if w in AcceptedOwners(o.ReferencesTo(target)) {
      AcceptedOwnerIsAccepted(o, target, w);
      assert w in set id | id in declared;
    }
  }

  // The operation loop

  lemma {:induction false} OperationWrites(o: Overlay, op: Operation, revision: nat, step: Step)
    requires IndexedOwners(o)
    requires ApplyOperation(o, op, revision) == Ok(step)
    ensures Writes(o, step, revision)
  {
    match op
    case Create(_, record) => CreateWrites(o, record, revision);
    case ReplaceEntity(target, _, properties) => ReplaceWrites(o, target, properties, revision);
    case DeleteEntity(target, _, policy, affected) => DeleteWrites(o, target, policy, affected, revision, step);
    case _ => ActWrites(o, op.ActKind(), op.target, op.action, op.Correction(), revision);
  }

  /** Only a deletion hides a record, and only its target. */
  lemma {:induction false} OperationHides(o: Overlay, op: Operation, revision: nat, step: Step, id: RecordRef)
    requires IndexedOwners(o)
    requires ApplyOperation(o, op, revision) == Ok(step)
    requires id in step.affected && id in step.overlay.changed && !step.overlay.changed[id].IsVisible()
    ensures op.DeleteEntity? && id == op.target
  {
    if op.DeleteEntity? {
      DeleteWrites(o, op.target, op.policy, op.affected, revision, step);
    }
  }

  /** A claim that names a predecessor was written by the correction of that predecessor. */
  lemma {:induction false} OperationCorrects(o: Overlay, op: Operation, revision: nat, step: Step, id: RecordRef)
    requires IndexedOwners(o)
    requires ApplyOperation(o, op, revision) == Ok(step)
    requires id in step.affected && id in step.overlay.changed && id !in o.View()
    requires step.overlay.changed[id].Claim? && step.overlay.changed[id].correctionOf.Some?
    ensures var c := step.overlay.changed[id];
      && op.CorrectionTarget() == c.correctionOf
      && c.correctionOf.value in o.View()
      && o.View()[c.correctionOf.value].IsClaim(c.body.Kind())
      && o.View()[c.correctionOf.value].status == Accepted
  {
    if op.DeleteEntity? {
      DeleteWrites(o, op.target, op.policy, op.affected, revision, step);
    }
  }

  /** No record outside `changed` still depends on one that `changed` hides. */
  ghost predicate NoDangling(base: map<RecordRef, Record>, changed: map<RecordRef, Record>) {
    forall e, w :: e in changed && !changed[e].IsVisible() && w in base && w !in changed ==> !Depends(base[w], e)
  }

  ghost predicate AllLegal(base: map<RecordRef, Record>, changed: map<RecordRef, Record>, revision: nat) {
    forall id :: id in changed ==> LegalChange(Lookup(base, id), changed[id], id, revision)
  }

  /** New claims that correct something correct a protected claim that was accepted in `base`. */
  ghost predicate CorrectsAccepted(base: map<RecordRef, Record>, changed: map<RecordRef, Record>,
      protected_: set<RecordRef>) {
    forall id :: id in changed && id !in base && changed[id].Claim? && changed[id].correctionOf.Some? ==>
      var t := changed[id].correctionOf.value;
      t in protected_ && t in base && base[t].IsClaim(changed[id].body.Kind()) && base[t].status == Accepted
  }

  /** What the operation loop of `prepare_transaction` keeps. */
  ghost predicate LoopInvariant(s: Snapshot, p: Progress, revision: nat) {
    && p.overlay.base == s.records && p.overlay.reverse == s.reverse
    && p.overlay.changed.Keys == p.affected
    && p.affected !! p.protected_
    && AllLegal(s.records, p.overlay.changed, revision)
    && NoDangling(s.records, p.overlay.changed)
    && CorrectsAccepted(s.records, p.overlay.changed, p.protected_)
  }

  ghost predicate Indexed(s: Snapshot) {
    WellKeyed(s.records) && Matches(s.reverse, s.records, ReverseOf)
  }

  lemma LoopOverlayIndexed(s: Snapshot, p: Progress, revision: nat)
    requires Indexed(s) && LoopInvariant(s, p, revision)
    ensures IndexedOwners(p.overlay)
  {
  }

  lemma {:induction false} NextKeepsDangling(s: Snapshot, p: Progress, op: Operation, revision: nat, step: Step)
    requires Indexed(s) && LoopInvariant(s, p, revision)
    requires ApplyOperation(p.overlay, op, revision) == Ok(step)
    requires step.affected !! p.affected
    requires Writes(p.overlay, step, revision)
    ensures NoDangling(s.records, step.overlay.changed)
  {
    var o, changed := p.overlay, step.overlay.changed;
    LoopOverlayIndexed(s, p, revision);
    forall e, w | e in changed && !changed[e].IsVisible() && w in s.records && w !in changed
      ensures !Depends(s.records[w], e)
    {
      if e in step.affected {
        OperationHides(o, op, revision, step, e);
        DeleteWrites(o, e, op.policy, op.affected, revision, step);
        DeletionLeavesNoDependent(o, e, op.policy, op.affected, revision, w);
      }
    }
  }

  /** What one guarded operation leaves, in terms of the unguarded one. */
  lemma NextShape(p: Progress, op: Operation, revision: nat, step: Step, next: Progress)
    requires ApplyOperation(p.overlay, op, revision) == Ok(step)
    requires ApplyNext(p, op, revision) == Ok(next)
    ensures step.affected !! p.affected && step.affected !! p.protected_
    ensures next.overlay == step.overlay && next.affected == p.affected + step.affected
    ensures next.protected_ == p.protected_ + (if op.CorrectionTarget().Some? then {op.CorrectionTarget().value}
      else {})
    ensures op.CorrectionTarget().Some? ==> op.CorrectionTarget().value !in p.affected
  {
    hide ApplyOperation;
    var repeated := step.affected * (p.affected + p.protected_);
    assert repeated == {};
    assert forall id :: id in step.affected ==> id !in p.affected && id !in p.protected_ by {
      forall id | id in step.affected ensures id !in p.affected && id !in p.protected_ { assert id !in repeated; }
    }
  }

  lemma {:induction false} NextKeepsCorrections(s: Snapshot, p: Progress, op: Operation, revision: nat, step: Step,
      next: Progress)
    requires Indexed(s) && LoopInvariant(s, p, revision)
    requires ApplyOperation(p.overlay, op, revision) == Ok(step)
    requires ApplyNext(p, op, revision) == Ok(next)
    requires Writes(p.overlay, step, revision)
    ensures CorrectsAccepted(s.records, next.overlay.changed, next.protected_)
  {
    hide ApplyOperation, ApplyNext, Indexed, NoDangling, AllLegal, IndexedOwners, LegalChange;
    LoopOverlayIndexed(s, p, revision);
    NextShape(p, op, revision, step, next);
    var changed := next.overlay.changed;
    forall id | id in changed && id !in s.records && changed[id].Claim? && changed[id].correctionOf.Some?
      ensures var t := changed[id].correctionOf.value;
        t in next.protected_ && t in s.records && s.records[t].IsClaim(changed[id].body.Kind())
          && s.records[t].status == Accepted
    {
      if id in step.affected {
        assert id !in p.overlay.changed;
        OperationCorrects(p.overlay, op, revision, step, id);
      }
    }
  }

  lemma CorrectionSparesTarget(o: Overlay, op: Operation, revision: nat, step: Step)
    requires op.CorrectionTarget().Some? && ApplyOperation(o, op, revision) == Ok(step)
    ensures op.CorrectionTarget().value !in step.affected
  {
  }

  lemma {:induction false} NextKeepsProtected(p: Progress, op: Operation, revision: nat, step: Step, next: Progress)
    requires p.affected !! p.protected_
    requires ApplyOperation(p.overlay, op, revision) == Ok(step)
    requires ApplyNext(p, op, revision) == Ok(next)
    ensures next.affected !! next.protected_
    ensures step.affected !! p.affected
  {
    hide ApplyOperation, ApplyNext;
    NextShape(p, op, revision, step, next);
    if op.CorrectionTarget().Some? {
      CorrectionSparesTarget(p.overlay, op, revision, step);
    }
  }

  lemma {:induction false} NextKeepsInvariant(s: Snapshot, p: Progress, op: Operation, revision: nat, next: Progress)
    requires Indexed(s) && LoopInvariant(s, p, revision)
    requires ApplyNext(p, op, revision) == Ok(next)
    ensures LoopInvariant(s, next, revision)
  {
    hide NoDangling, CorrectsAccepted, IndexedOwners, Indexed, ApplyOperation;
    var step := ApplyOperation(p.overlay, op, revision).value;
    LoopOverlayIndexed(s, p, revision);
    OperationWrites(p.overlay, op, revision, step);
    NextShape(p, op, revision, step, next);
    NextKeepsProtected(p, op, revision, step, next);
    NextKeepsDangling(s, p, op, revision, step);
    NextKeepsCorrections(s, p, op, revision, step, next);
  }

  lemma {:induction false} RunKeepsInvariant(s: Snapshot, ops: seq<Operation>, revision: nat, p: Progress)
    requires Indexed(s) && RunOperations(s, ops, revision) == Ok(p)
    ensures LoopInvariant(s, p, revision)
    decreases |ops|
  {
    if ops != [] {
      var front := RunOperations(s, ops[..|ops| - 1], revision).value;
      RunKeepsInvariant(s, ops[..|ops| - 1], revision, front);
      NextKeepsInvariant(s, front, ops[|ops| - 1], revision, p);
    }
  }
}
