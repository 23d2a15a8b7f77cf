/** What every operation of a transaction keeps, up to the end of the operation loop. */
module Operations {
  import opened Base
  import opened Records
  import opened Index
  import opened References
  import opened Reducer

  predicate ValidTransition(previous: Status, next: Status) {
    match (previous, next)
    case (Proposed, Accepted) => true
    case (Proposed, Rejected) => true
    case (Accepted, Disputed) => true
    case (Accepted, Superseded) => true
    case (Accepted, Retracted) => true
    case (Accepted, Expired) => true
    case _ => false
  }

  predicate FirstVersion(r: Record) {
    && r.version == 1
    && match r
       case Entity(_, _, active, _, _, _, created, modified) => active && created == modified
       case Evidence(_, _, _, _, _) => true
       case Claim(_, _, _, _, status, _, _, recorded, modified) => status == Proposed && recorded == modified
  }

  predicate NextVersion(previous: Record, next: Record) {
    && next.version == previous.version + 1
    && next.id == previous.id
    && match (previous, next)
       case (Entity(_, _, wasActive, type0, schema0, properties0, created0, _),
         Entity(_, _, active, type1, schema1, properties1, created1, _)) =>
         wasActive && type0 == type1 && schema0 == schema1 && created0 == created1
           && (active || properties0 == properties1)
       case (Claim(_, _, body0, evidence0, status0, time0, correction0, recorded0, _),
         Claim(_, _, body1, evidence1, status1, time1, correction1, recorded1, _)) =>
         body0 == body1 && evidence0 == evidence1 && time0 == time1 && correction0 == correction1
           && recorded0 == recorded1
         && ValidTransition(status0, status1)
       case _ => false
  }

  /** `after` is a legal version of record `id` written at `revision` on top of `before`. */
  predicate LegalChange(before: Option<Record>, after: Record, id: RecordRef, revision: nat) {
    && after.id == id
    && after.ModifiedRevision() == revision
    && (if before.Some? then NextVersion(before.value, after) else FirstVersion(after))
  }

  /** The records one operation writes, each a legal version on top of what the overlay showed. */
  ghost predicate Writes(o: Overlay, step: Step, revision: nat) {
    && step.overlay.base == o.base && step.overlay.reverse == o.reverse
    && step.overlay.changed.Keys == o.changed.Keys + step.affected
    && (forall id :: id in o.changed && id !in step.affected ==> step.overlay.changed[id] == o.changed[id])
    && (forall id :: id in step.affected ==> LegalChange(o.Get(id), step.overlay.changed[id], id, revision))
  }

  lemma InsertClaimWrites(o: Overlay, c: NewClaim, correctionOf: Option<RecordRef>, revision: nat)
    requires InsertClaim(o, c, correctionOf, revision).Ok?
    ensures Writes(o, InsertClaim(o, c, correctionOf, revision).value, revision)
  {
  }

  lemma CreateWrites(o: Overlay, new_: NewRecord, revision: nat)
    requires CreateRecord(o, new_, revision).Ok?
    ensures Writes(o, CreateRecord(o, new_, revision).value, revision)
  {
  }

  lemma ReplaceWrites(o: Overlay, target: RecordRef, properties: Value, revision: nat)
    requires WellKeyed(o.View())
    requires ReplaceProperties(o, target, properties, revision).Ok?
    ensures Writes(o, ReplaceProperties(o, target, properties, revision).value, revision)
  {
  }

  lemma ActWrites(o: Overlay, kind: ClaimKind, target: RecordRef, action: Action, correction: Option<NewClaim>,
      revision: nat)
    requires WellKeyed(o.View())
    requires ActOnClaim(o, kind, target, action, correction, revision).Ok?
    ensures Writes(o, ActOnClaim(o, kind, target, action, correction, revision).value, revision)
  {
    if action == Correct {
      InsertClaimWrites(o, correction.value, Some(target), revision);
    }
  }

  lemma {:induction false} BinarySearchSound(ids: seq<RecordRef>, id: RecordRef)
    requires BinarySearch(ids, id)
    ensures id in ids
    decreases |ids|
  {
    var mid := |ids| / 2;
    if ids[mid] != id {
      if Less(ids[mid], id) { BinarySearchSound(ids[mid + 1..], id); } else { BinarySearchSound(ids[..mid], id); }
    }
  }

  lemma {:induction false} BinarySearchComplete(ids: seq<RecordRef>, id: RecordRef)
    requires Increasing(ids, Less) && id in ids
    ensures BinarySearch(ids, id)
    decreases |ids|
  {
    var mid := |ids| / 2;
    var at :| 0 <= at < |ids| && ids[at] == id;
    if at > mid {
      var upper := ids[mid + 1..];
      assert upper[at - mid - 1] == id;
      BinarySearchComplete(upper, id);
      assert Less(ids[mid], id);
    } else if at < mid {
      var lower := ids[..mid];
      assert lower[at] == id;
      BinarySearchComplete(lower, id);
      assert Less(id, ids[mid]);
    }
  }

  lemma ListCardinality(ids: seq<RecordRef>)
    requires Increasing(ids, Less)
    ensures |set id | id in ids| == |ids|
  {
    LessIsStrictOrder();
    EnumerationLength(ids, (set id | id in ids), Less);
  }

  lemma SubsetOfSameSize<T>(a: set<T>, b: set<T>)
    requires a <= b && |a| == |b|
    ensures a == b
  {
    assert |b - a| == |b| - |a|;
    assert b == a + (b - a);
  }

  /** A cascade passes only when the ascending declaration is precisely the accepted dependents, and nothing proposed
      and no other active entity depends on the target. */
  lemma {:induction false} CascadeExact(refs: map<RecordRef, ReverseReference>, target: RecordRef, maximum: nat,
      declared: seq<RecordRef>)
    ensures CheckDeletion(refs, target, CascadeAndRetract(maximum), declared).Ok?
      <==> && Increasing(declared, Less)
           && (set id | id in declared) == AcceptedOwners(refs)
           && ProposedOwners(refs) == {} && EntityOwners(refs, target) == {}
           && |AcceptedOwners(refs)| <= maximum
  {
    if Increasing(declared, Less) {
      ListCardinality(declared);
      var listed := set id | id in declared;
      if |declared| == |AcceptedOwners(refs)| && forall w :: w in AcceptedOwners(refs) ==> BinarySearch(declared, w) {
        forall w | w in AcceptedOwners(refs) ensures w in listed { BinarySearchSound(declared, w); }
        SubsetOfSameSize(AcceptedOwners(refs), listed);
      }
      if listed == AcceptedOwners(refs) {
        forall w | w in AcceptedOwners(refs) ensures BinarySearch(declared, w) { BinarySearchComplete(declared, w); }
      }
    }
  }

  lemma DeclaredClaims(o: Overlay, target: RecordRef, maximum: nat, declared: seq<RecordRef>, w: RecordRef)
    requires CheckDeletion(o.ReferencesTo(target), target, CascadeAndRetract(maximum), declared).Ok?
    requires w in declared
    ensures w in AcceptedOwners(o.ReferencesTo(target))
  {
    CascadeExact(o.ReferencesTo(target), target, maximum, declared);
    assert w in set id | id in declared;
  }

  ghost predicate IndexedOwners(o: Overlay) {
    && WellKeyed(o.base) && WellKeyed(o.changed)
    && Matches(o.reverse, o.base, ReverseOf)
  }

  /** With an exact index, an overlaid reference is the one the owner's current version makes. */
  lemma ReferenceIsCurrent(o: Overlay, owner: RecordRef, target: RecordRef)
    requires IndexedOwners(o)
    ensures o.ReferenceFrom(owner, target) == (if owner in o.View() then ReverseFor(o.View()[owner], target) else None)
  {
    if owner in o.View() {
      ReverseForIsLookup(o.View()[owner], target);
    }
    assert Has(o.reverse, target, owner) <==> owner in Bucket(o.reverse, target);
  }

  lemma AcceptedDescription(r: Record, target: RecordRef)
    requires ReverseFor(r, target).Some? && IsAcceptedDependency(ReverseFor(r, target).value)
    ensures r.Claim? && r.status == Accepted
  {
    hide Roles;
  }

  lemma AcceptedOwnerIsAccepted(o: Overlay, target: RecordRef, w: RecordRef)
    requires IndexedOwners(o)
    requires w in AcceptedOwners(o.ReferencesTo(target))
    ensures w in o.View() && o.View()[w].Claim? && o.View()[w].status == Accepted
  {
    hide IndexedOwners, ReverseFor, IsAcceptedDependency;
    ReferenceIsCurrent(o, w, target);
    AcceptedDescription(o.View()[w], target);
  }

  lemma {:induction false} DeclaredAreAccepted(o: Overlay, target: RecordRef, maximum: nat, declared: seq<RecordRef>)
    requires IndexedOwners(o)
    requires CheckDeletion(o.ReferencesTo(target), target, CascadeAndRetract(maximum), declared).Ok?
    ensures forall w :: w in declared ==> w in o.View() && o.View()[w].Claim? && o.View()[w].status == Accepted
  {
    forall w | w in declared
      ensures w in o.View() && o.View()[w].Claim? && o.View()[w].status == Accepted
    {
      DeclaredClaims(o, target, maximum, declared, w);
      AcceptedOwnerIsAccepted(o, target, w);
    }
  }

  lemma RetractWrites(o: Overlay, declared: seq<RecordRef>, revision: nat, s: Step)
    requires WellKeyed(o.View())
    requires forall w :: w in declared && w in o.View() && o.View()[w].Claim? ==> o.View()[w].status == Accepted
    requires RetractAll(o, declared, revision) == Ok(s)
    ensures Writes(o, s, revision)
    ensures s.affected == RetractedClaims(o.View(), declared, revision).Keys
    ensures forall id :: id in s.affected ==> id in o.View() && o.View()[id].Claim? && s.overlay.changed[id].Claim?
  {
    var retracted := RetractedClaims(o.View(), declared, revision);
    forall id | id in retracted ensures LegalChange(o.Get(id), retracted[id], id, revision) {
    }
  }

  lemma MarkDeletedWrites(o: Overlay, s: Step, target: RecordRef, revision: nat, step: Step)
    requires Writes(o, s, revision) && target !in s.affected
    requires target in o.View() && o.View()[target].IsActiveEntity() && o.View()[target].id == target
    requires target in s.overlay.View() && s.overlay.View()[target].Entity?
      && MarkDeleted(s, target, revision) == Ok(step)
    ensures Writes(o, step, revision) && step.affected == s.affected + {target}
    ensures step.overlay.changed[target].Entity? && !step.overlay.changed[target].active
    ensures forall id :: id in s.affected ==> step.overlay.changed[id] == s.overlay.changed[id]
  {
    assert s.overlay.Get(target) == o.Get(target);
  }

  /** What a deletion writes: the target's tombstone and one retracted version per declared claim. */
  ghost predicate Deletes(o: Overlay, step: Step, target: RecordRef, declared: seq<RecordRef>, revision: nat) {
    && Writes(o, step, revision)
    && step.affected == {target} + RetractedClaims(o.View(), declared, revision).Keys
    && step.overlay.changed[target].Entity? && !step.overlay.changed[target].active
    && (forall id :: id in step.affected && id != target ==> id in o.View() && step.overlay.changed[id].Claim?)
  }

  lemma {:induction false} CascadeWrites(o: Overlay, target: RecordRef, declared: seq<RecordRef>, revision: nat,
      s: Step, step: Step)
    requires WellKeyed(o.View())
    requires target in o.View() && o.View()[target].IsActiveEntity()
    requires forall w :: w in declared ==> w in o.View() && o.View()[w].Claim? && o.View()[w].status == Accepted
    requires RetractAll(o, declared, revision) == Ok(s)
    requires target in s.overlay.View() && s.overlay.View()[target].Entity?
      && MarkDeleted(s, target, revision) == Ok(step)
    ensures Deletes(o, step, target, declared, revision)
  {
    RetractWrites(o, declared, revision, s);
    MarkDeletedWrites(o, s, target, revision, step);
  }

  lemma TombstoneWrites(o: Overlay, target: RecordRef, revision: nat, step: Step)
    requires WellKeyed(o.View())
    requires target in o.View() && o.View()[target].IsActiveEntity()
    requires MarkDeleted(Step(o, {}), target, revision) == Ok(step)
    ensures Deletes(o, step, target, [], revision)
  {
    MarkDeletedWrites(o, Step(o, {}), target, revision, step);
  }

  lemma RetractedKeepEntities(o: Overlay, declared: seq<RecordRef>, revision: nat, target: RecordRef)
    requires RetractAll(o, declared, revision).Ok? && target in o.View() && o.View()[target].Entity?
    ensures var view := RetractAll(o, declared, revision).value.overlay.View(); target in view && view[target].Entity?
  {
  }

  lemma OwnersAreKeyed(o: Overlay)
    requires IndexedOwners(o)
    ensures WellKeyed(o.View())
  {
  }

  lemma RejectDeclaresNothing(refs: map<RecordRef, ReverseReference>, target: RecordRef, declared: seq<RecordRef>)
    requires CheckDeletion(refs, target, RejectDependents, declared).Ok?
    ensures declared == []
  {
  }

  lemma {:induction false} DeleteWrites(o: Overlay, target: RecordRef, policy: DeletePolicy, declared: seq<RecordRef>,
      revision: nat, step: Step)
    requires IndexedOwners(o)
    requires DeleteOverlaidEntity(o, target, policy, declared, revision) == Ok(step)
    ensures Deletes(o, step, target, declared, revision)
  {
    hide CheckDeletion, RetractAll, MarkDeleted, Deletes, IndexedOwners, Overlay.ReferencesTo;
    assert WellKeyed(o.View()) by { OwnersAreKeyed(o); }
    if policy.RejectDependents? {
      RejectDeclaresNothing(o.ReferencesTo(target), target, declared);
      TombstoneWrites(o, target, revision, step);
    } else {
      DeclaredAreAccepted(o, target, policy.maximumAffected, declared);
      RetractedKeepEntities(o, declared, revision, target);
      CascadeWrites(o, target, declared, revision, RetractAll(o, declared, revision).value, step);
    }
  }
}
