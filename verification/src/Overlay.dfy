/** The transaction-local record overlay and the operations that mutate it in place
    (crates/uste-graph/src/state.rs:415-518, 2209-2582). */
module OverlayObject {
  import opened Base
  import opened Records
  import opened Index
  import opened References
  import opened Reducer

  /** The identifiers of a set in ascending order, as a `BTreeSet` or `BTreeMap` is walked. */
  method Ascending(ids: set<RecordRef>) returns (s: seq<RecordRef>)
    ensures s == Sorted(ids)
  {
    LessIsStrictOrder();
    s := InOrder(ids, Less);
    SortedUnique(s, ids);
  }

  datatype Visit = Visit(owner: RecordRef, reference: ReverseReference)

  function VisitOwners(visits: seq<Visit>): seq<RecordRef> {
    seq(|visits|, i requires 0 <= i < |visits| => visits[i].owner)
  }

  /** The visits are exactly the references in `refs` whose owner is in `seen`, ascending, each once. */
  ghost predicate Visited(visits: seq<Visit>, refs: map<RecordRef, ReverseReference>, seen: set<RecordRef>) {
    && (forall i, j :: 0 <= i < j < |visits| ==> Less(visits[i].owner, visits[j].owner))
    && (forall i :: 0 <= i < |visits| ==>
       visits[i].owner in seen && visits[i].owner in refs && refs[visits[i].owner] == visits[i].reference)
    && (forall w :: w in seen && w in refs ==> exists i :: 0 <= i < |visits| && visits[i].owner == w)
  }

  lemma VisitNext(visits: seq<Visit>, refs: map<RecordRef, ReverseReference>, seen: set<RecordRef>, w: RecordRef)
    requires Visited(visits, refs, seen) && (forall x :: x in seen ==> Less(x, w))
    ensures Visited(if w in refs then visits + [Visit(w, refs[w])] else visits, refs, seen + {w})
  {
    if w in refs {
      var next := visits + [Visit(w, refs[w])];
      forall x | x in seen + {w} && x in refs ensures exists i :: 0 <= i < |next| && next[i].owner == x {
        if x == w {
          assert next[|visits|].owner == x;
        } else {
          var i :| 0 <= i < |visits| && visits[i].owner == x;
          assert next[i].owner == x;
        }
      }
    }
  }

  lemma SortedUnique(s: seq<RecordRef>, ids: set<RecordRef>)
    requires Enumerates(s, ids, Less)
    ensures s == Sorted(ids)
  {
    LessIsStrictOrder();
    EnumerationUnique(s, Sorted(ids), ids, Less);
  }

  lemma VisitNone(visits: seq<Visit>, refs: map<RecordRef, ReverseReference>, seen: set<RecordRef>)
    requires Visited(visits, refs, seen) && (forall w :: w in refs ==> w in seen)
    ensures VisitOwners(visits) == Sorted(refs.Keys)
  {
    var owners := VisitOwners(visits);
    forall w ensures w in owners <==> w in refs.Keys {
      if w in owners { var i :| 0 <= i < |owners| && owners[i] == w; assert visits[i].owner == w; }
      if w in refs { var i :| 0 <= i < |visits| && visits[i].owner == w; assert owners[i] == w; }
    }
    assert Enumerates(owners, refs.Keys, Less);
    SortedUnique(owners, refs.Keys);
  }

  /** How far the merge has read both ascending lists, and the owners met so far. */
  ghost predicate Frontier(indexed: seq<RecordRef>, written: seq<RecordRef>, i: nat, j: nat, seen: set<RecordRef>) {
    && i <= |indexed| && j <= |written|
    && (forall w :: w in seen <==> w in indexed[..i] || w in written[..j])
    && (forall w :: w in seen ==> (i < |indexed| ==> Less(w, indexed[i])) && (j < |written| ==> Less(w, written[j])))
  }

  lemma {:induction false} ReadIndexed(indexed: seq<RecordRef>, written: seq<RecordRef>, i: nat, j: nat,
      seen: set<RecordRef>)
    requires Increasing(indexed, Less) && Increasing(written, Less) && Frontier(indexed, written, i, j, seen)
    requires i < |indexed| && (j == |written| || Less(indexed[i], written[j]))
    ensures Frontier(indexed, written, i + 1, j, seen + {indexed[i]})
    ensures indexed[i] !in written && forall x :: x in seen ==> Less(x, indexed[i])
  {
    assert indexed[..i + 1] == indexed[..i] + [indexed[i]];
    assert forall k :: 0 <= k < j ==> written[k] in written[..j];
  }

  lemma {:induction false} ReadWritten(indexed: seq<RecordRef>, written: seq<RecordRef>, i: nat, j: nat,
      seen: set<RecordRef>)
    requires Increasing(indexed, Less) && Increasing(written, Less) && Frontier(indexed, written, i, j, seen)
    requires j < |written| && (i == |indexed| || !Less(indexed[i], written[j]))
    ensures Frontier(indexed, written, if i < |indexed| && indexed[i] == written[j] then i + 1
      else i, j + 1, seen + {written[j]})
    ensures forall x :: x in seen ==> Less(x, written[j])
  {
    assert written[..j + 1] == written[..j] + [written[j]];
    if i < |indexed| && indexed[i] == written[j] {
      assert indexed[..i + 1] == indexed[..i] + [indexed[i]];
    }
  }

  lemma ReferenceOf(o: Overlay, target: RecordRef, w: RecordRef)
    ensures Lookup(o.ReferencesTo(target), w) == (if w in o.changed then ReverseFor(o.changed[w], target)
      else Lookup(Bucket(o.reverse, target), w))
  {
    hide ReverseFor;
  }

  lemma FrontierEnd(o: Overlay, target: RecordRef, indexed: seq<RecordRef>, written: seq<RecordRef>,
      seen: set<RecordRef>)
    requires Enumerates(indexed, Bucket(o.reverse, target).Keys, Less) && Enumerates(written, o.changed.Keys, Less)
    requires Frontier(indexed, written, |indexed|, |written|, seen)
    ensures forall w :: w in o.ReferencesTo(target) ==> w in seen
  {
    assert indexed[..|indexed|] == indexed && written[..|written|] == written;
  }

  function AddVisit(visits: seq<Visit>, w: RecordRef, reference: Option<ReverseReference>): seq<Visit> {
    if reference.Some? then visits + [Visit(w, reference.value)] else visits
  }

  ghost predicate Merging(o: Overlay, target: RecordRef, indexed: seq<RecordRef>, written: seq<RecordRef>, i: nat,
      j: nat, seen: set<RecordRef>, visits: seq<Visit>) {
    && Enumerates(indexed, Bucket(o.reverse, target).Keys, Less) && Enumerates(written, o.changed.Keys, Less)
    && Frontier(indexed, written, i, j, seen)
    && Visited(visits, o.ReferencesTo(target), seen)
  }

  lemma {:induction false} MergeIndexed(o: Overlay, target: RecordRef, indexed: seq<RecordRef>, written: seq<RecordRef>,
      i: nat, j: nat, seen: set<RecordRef>, visits: seq<Visit>)
    requires Merging(o, target, indexed, written, i, j, seen, visits)
    requires i < |indexed| && (j >= |written| || Less(indexed[i], written[j]))
    ensures indexed[i] in Bucket(o.reverse, target)
    ensures Merging(o, target, indexed, written, i + 1, j, seen + {indexed[i]}, visits
      + [Visit(indexed[i], Bucket(o.reverse, target)[indexed[i]])])
  {
    hide Visited, Overlay.ReferencesTo, ReverseFor;
    assert i <= |indexed| && j <= |written|;
    var w := indexed[i];
    ReadIndexed(indexed, written, i, j, seen);
    assert w in Bucket(o.reverse, target).Keys && w !in o.changed.Keys;
    ReferenceOf(o, target, w);
    VisitNext(visits, o.ReferencesTo(target), seen, w);
  }

  lemma {:induction false} MergeWritten(o: Overlay, target: RecordRef, indexed: seq<RecordRef>, written: seq<RecordRef>,
      i: nat, j: nat, seen: set<RecordRef>, visits: seq<Visit>)
    requires Merging(o, target, indexed, written, i, j, seen, visits)
    requires j < |written| && (i >= |indexed| || !Less(indexed[i], written[j]))
    ensures written[j] in o.changed
    ensures Merging(o, target, indexed, written, if i < |indexed| && indexed[i] == written[j] then i + 1 else i, j + 1,
                    seen + {written[j]}, AddVisit(visits, written[j], ReverseFor(o.changed[written[j]], target)))
  {
    hide Visited, Overlay.ReferencesTo, ReverseFor;
    assert i <= |indexed| && j <= |written|;
    var w := written[j];
    ReadWritten(indexed, written, i, j, seen);
    assert w in o.changed.Keys;
    ReferenceOf(o, target, w);
    VisitNext(visits, o.ReferencesTo(target), seen, w);
  }

  lemma {:induction false} MergeDone(o: Overlay, target: RecordRef, indexed: seq<RecordRef>, written: seq<RecordRef>,
      i: nat, j: nat, seen: set<RecordRef>, visits: seq<Visit>)
    requires Merging(o, target, indexed, written, i, j, seen, visits) && i >= |indexed| && j >= |written|
    ensures Visited(visits, o.ReferencesTo(target), o.ReferencesTo(target).Keys)
    ensures VisitOwners(visits) == Sorted(o.ReferencesTo(target).Keys)
  {
    hide Visited, Overlay.ReferencesTo, VisitOwners;
    assert i <= |indexed| && j <= |written|;
    FrontierEnd(o, target, indexed, written, seen);
    AllVisited(visits, o.ReferencesTo(target), seen);
    VisitNone(visits, o.ReferencesTo(target), seen);
  }

  lemma MergeStart(o: Overlay, target: RecordRef, indexed: seq<RecordRef>, written: seq<RecordRef>)
    requires indexed == Sorted(Bucket(o.reverse, target).Keys) && written == Sorted(o.changed.Keys)
    ensures Merging(o, target, indexed, written, 0, 0, {}, [])
  {
  }

  /** The two-way merge of the indexed owners with the changed records: a changed record hides its indexed entry. */
  method MergeReferences(o: Overlay, target: RecordRef) returns (visits: seq<Visit>)
    ensures Visited(visits, o.ReferencesTo(target), o.ReferencesTo(target).Keys)
    ensures VisitOwners(visits) == Sorted(o.ReferencesTo(target).Keys)
  {
    hide *;
    var bucket := Bucket(o.reverse, target);
    var indexed := Ascending(bucket.Keys);
    var written := Ascending(o.changed.Keys);
    var i, j := 0, 0;
    ghost var seen: set<RecordRef> := {};
    visits := [];
    MergeStart(o, target, indexed, written);
    while i < |indexed| || j < |written|
      invariant i <= |indexed| && j <= |written|
      invariant Merging(o, target, indexed, written, i, j, seen, visits)
      decreases |indexed| - i + |written| - j
    {
      if i < |indexed| && (j >= |written| || Less(indexed[i], written[j])) {
        MergeIndexed(o, target, indexed, written, i, j, seen, visits);
        seen := seen + {indexed[i]};
        visits, i := visits + [Visit(indexed[i], bucket[indexed[i]])], i + 1;
      } else {
        MergeWritten(o, target, indexed, written, i, j, seen, visits);
        seen := seen + {written[j]};
        visits := AddVisit(visits, written[j], ReverseFor(o.changed[written[j]], target));
        i, j := if i < |indexed| && indexed[i] == written[j] then i + 1 else i, j + 1;
      }
    }
    MergeDone(o, target, indexed, written, i, j, seen, visits);
  }

  // The dependency scan of a deletion

  function RefsOf(visits: seq<Visit>): map<RecordRef, ReverseReference> {
    if visits == [] then map[]
    else RefsOf(visits[..|visits| - 1])[visits[|visits| - 1].owner := visits[|visits| - 1].reference]
  }

  lemma {:induction false} RefsOfOwners(visits: seq<Visit>)
    ensures forall w :: w in RefsOf(visits) <==> exists i :: 0 <= i < |visits| && visits[i].owner == w
    ensures (forall i, j :: 0 <= i < j < |visits| ==> visits[i].owner != visits[j].owner) ==>
      forall i :: 0 <= i < |visits| ==>
        visits[i].owner in RefsOf(visits) && RefsOf(visits)[visits[i].owner] == visits[i].reference
  {
    if visits != [] {
      var n := |visits| - 1;
      RefsOfOwners(visits[..n]);
      assert forall i :: 0 <= i < n ==> visits[..n][i] == visits[i];
      forall w ensures w in RefsOf(visits) <==> exists i :: 0 <= i < |visits| && visits[i].owner == w {
        if w in RefsOf(visits[..n]) { var i :| 0 <= i < n && visits[..n][i].owner == w; assert visits[i].owner == w; }
        if w == visits[n].owner { assert visits[n].owner == w; }
        if i :| 0 <= i < |visits| && visits[i].owner == w && i < n { assert visits[..n][i].owner == w; }
      }
    }
  }

  lemma {:induction false} VisitedIsRefs(visits: seq<Visit>, refs: map<RecordRef, ReverseReference>)
    requires Visited(visits, refs, refs.Keys)
    ensures RefsOf(visits) == refs
  {
    RefsOfOwners(visits);
    forall w ensures w in RefsOf(visits) <==> w in refs {}
    forall w | w in refs ensures RefsOf(visits)[w] == refs[w] {
      var i :| 0 <= i < |visits| && visits[i].owner == w;
    }
  }

  datatype Scan = Scan(accepted: nat, proposed: nat, entities: nat, declared: bool)

  /** What the counters of a scan over `refs` must be. */
  ghost predicate Counts(scan: Scan, refs: map<RecordRef, ReverseReference>, target: RecordRef,
      declared: seq<RecordRef>) {
    && scan.accepted == |AcceptedOwners(refs)|
    && scan.proposed == |ProposedOwners(refs)|
    && scan.entities == |EntityOwners(refs, target)|
    && scan.declared == forall w :: w in AcceptedOwners(refs) ==> BinarySearch(declared, w)
  }

  function CountVisit(scan: Scan, v: Visit, target: RecordRef, declared: seq<RecordRef>): Scan {
    Scan(if IsAcceptedDependency(v.reference) then scan.accepted + 1 else scan.accepted,
         if IsProposedDependency(v.reference) then scan.proposed + 1 else scan.proposed,
         if IsEntityDependency(v.reference) && v.owner != target then scan.entities + 1 else scan.entities,
         scan.declared && (IsAcceptedDependency(v.reference) ==> BinarySearch(declared, v.owner)))
  }

  lemma OwnersNext(refs: map<RecordRef, ReverseReference>, v: Visit, target: RecordRef)
    requires v.owner !in refs
    ensures var next := refs[v.owner := v.reference];
      && v.owner !in AcceptedOwners(refs) + ProposedOwners(refs) + EntityOwners(refs, target)
      && AcceptedOwners(next) == AcceptedOwners(refs) + (if IsAcceptedDependency(v.reference) then {v.owner} else {})
      && ProposedOwners(next) == ProposedOwners(refs) + (if IsProposedDependency(v.reference) then {v.owner} else {})
      && EntityOwners(next, target) == EntityOwners(refs, target)
         + (if IsEntityDependency(v.reference) && v.owner != target then {v.owner} else {})
  {
    hide IsAcceptedDependency, IsProposedDependency, IsEntityDependency;
  }

  lemma CountNext(scan: Scan, refs: map<RecordRef, ReverseReference>, v: Visit, target: RecordRef,
      declared: seq<RecordRef>)
    requires Counts(scan, refs, target, declared) && v.owner !in refs
    ensures Counts(CountVisit(scan, v, target, declared), refs[v.owner := v.reference], target, declared)
  {
    hide IsAcceptedDependency, IsProposedDependency, IsEntityDependency, BinarySearch, AcceptedOwners, ProposedOwners,
         EntityOwners;
    OwnersNext(refs, v, target);
  }

  /** Counting the visits one by one, without ever materialising the owners. */
  method ScanDependents(visits: seq<Visit>, ghost refs: map<RecordRef, ReverseReference>, target: RecordRef,
      declared: seq<RecordRef>) returns (scan: Scan)
    requires Visited(visits, refs, refs.Keys)
    ensures Counts(scan, refs, target, declared)
  {
    scan := Scan(0, 0, 0, true);
    assert Counts(scan, RefsOf([]), target, declared) by { NothingCounted(target, declared); }
    hide Counts, CountVisit;
    for k := 0 to |visits|
      invariant Counts(scan, RefsOf(visits[..k]), target, declared)
    {
      FreshVisit(visits, k);
      CountNext(scan, RefsOf(visits[..k]), visits[k], target, declared);
      scan := CountVisit(scan, visits[k], target, declared);
      assert visits[..k + 1][..k] == visits[..k];
    }
    assert visits[..|visits|] == visits;
    VisitedIsRefs(visits, refs);
  }

  lemma NothingCounted(target: RecordRef, declared: seq<RecordRef>)
    ensures Counts(Scan(0, 0, 0, true), map[], target, declared)
  {
  }

  lemma FreshVisit(visits: seq<Visit>, k: nat)
    requires k < |visits| && forall i, j :: 0 <= i < j < |visits| ==> Less(visits[i].owner, visits[j].owner)
    ensures visits[k].owner !in RefsOf(visits[..k])
  {
    RefsOfOwners(visits[..k]);
    assert forall i :: 0 <= i < k ==> visits[..k][i].owner != visits[k].owner;
  }

  /** `windows(2)`: only neighbours are compared. */
  method StrictlyAscends(ids: seq<RecordRef>) returns (ok: bool)
    ensures ok <==> Increasing(ids, Less)
  {
    if ids == [] { return true; }
    for k := 1 to |ids|
      invariant Increasing(ids[..k], Less)
    {
      if !Less(ids[k - 1], ids[k]) { return false; }
      assert ids[..k][k - 1] == ids[k - 1];
      forall i | 0 <= i < k ensures Less(ids[i], ids[k]) {
        assert i < k - 1 ==> Less(ids[..k][i], ids[..k][k - 1]);
      }
    }
    assert ids[..|ids|] == ids;
    ok := true;
  }

  /** The checks of a deletion, decided from the scan alone. */
  method CheckScan(scan: Scan, ghost refs: map<RecordRef, ReverseReference>, target: RecordRef, policy: DeletePolicy,
      declared: seq<RecordRef>)
    returns (check: Check)
    requires Counts(scan, refs, target, declared)
    ensures check == CheckDeletion(refs, target, policy, declared)
    ensures check.Ok? && policy.CascadeAndRetract? ==> Increasing(declared, Less)
  {
    var dependents := scan.accepted + scan.entities;
    match policy {
      case RejectDependents =>
        if dependents != 0 || scan.proposed != 0 { return Err(DeleteRestricted(target, dependents + scan.proposed)); }
        if declared != [] { return Err(InvalidCascadeDeclaration); }
      case CascadeAndRetract(maximum) =>
        var ascends := StrictlyAscends(declared);
        if !ascends { return Err(InvalidCascadeDeclaration); }
        if scan.proposed != 0 { return Err(ProposedClaimBlocksDelete(target, scan.proposed)); }
        if scan.entities != 0 { return Err(UncascadeableReferences(target, scan.entities)); }
        if dependents > maximum { return Err(CascadeLimitExceeded(dependents, maximum)); }
        if |declared| != scan.accepted || !scan.declared { return Err(CascadeDeclarationChanged); }
    }
    check := Ok(());
  }

  // Retraction, one kind of claim at a time

  function RetractedOfKind(view: map<RecordRef, Record>, declared: seq<RecordRef>, kind: ClaimKind,
      revision: nat): map<RecordRef, Record> {
    map id | id in declared && id in view && view[id].IsClaim(kind) :: RetractedVersion(view[id], revision)
  }

  lemma {:induction false} FirstFailureAt(ids: seq<RecordRef>, check: RecordRef -> Check, k: nat)
    requires k < |ids| && check(ids[k]).Err? && forall i :: 0 <= i < k ==> check(ids[i]).Ok?
    ensures FirstFailure(ids, check) == check(ids[k])
  {
    if k > 0 {
      assert forall i :: 0 <= i < k - 1 ==> ids[1..][i] == ids[i + 1];
      FirstFailureAt(ids[1..], check, k - 1);
    }
  }

  lemma RetractableAt(view: map<RecordRef, Record>, kind: ClaimKind, declared: seq<RecordRef>, k: nat)
    requires k < |declared| && CheckRetractable(view, kind, declared[k]).Err?
    requires forall i :: 0 <= i < k ==> CheckRetractable(view, kind, declared[i]).Ok?
    ensures CheckRetractables(view, kind, declared) == Err(CheckRetractable(view, kind, declared[k]).error)
  {
    FirstFailureAt(declared, id => CheckRetractable(view, kind, id), k);
  }

  lemma RetractNext(view: map<RecordRef, Record>, declared: seq<RecordRef>, kind: ClaimKind, revision: nat, k: nat)
    requires k < |declared|
    ensures RetractedOfKind(view, declared[..k + 1], kind, revision)
      == (if declared[k] in view && view[declared[k]].IsClaim(kind)
          then RetractedOfKind(view, declared[..k], kind,
            revision)[declared[k] := RetractedVersion(view[declared[k]], revision)]
          else RetractedOfKind(view, declared[..k], kind, revision))
  {
    assert declared[..k + 1] == declared[..k] + [declared[k]];
  }

  lemma NothingRetracted(view: map<RecordRef, Record>, kind: ClaimKind, revision: nat)
    ensures RetractedOfKind(view, [], kind, revision) == map[]
  {
  }

  /** The next declared claim has not been touched by the earlier ones. */
  lemma StillToRetract(o: Overlay, declared: seq<RecordRef>, kind: ClaimKind, revision: nat, k: nat)
    requires Increasing(declared, Less) && k < |declared|
    ensures o.(changed := o.changed + RetractedOfKind(o.View(), declared[..k], kind, revision)).Get(declared[k])
      == Lookup(o.View(), declared[k])
  {
    hide RetractedVersion;
    assert declared[k] !in declared[..k];
  }

  lemma RetractBoth(view: map<RecordRef, Record>, declared: seq<RecordRef>, revision: nat)
    ensures RetractedClaims(view, declared, revision)
      == RetractedOfKind(view, declared, RelationshipKind, revision)
        + RetractedOfKind(view, declared, AssertionKind, revision)
  {
    hide RetractedVersion;
  }

  /** Retracting the relationships does not change what the second pass sees of the assertions. */
  lemma SecondPassSame(o: Overlay, declared: seq<RecordRef>, revision: nat)
    ensures var next := o.(changed := o.changed + RetractedOfKind(o.View(), declared, RelationshipKind, revision));
      && CheckRetractables(next.View(), AssertionKind, declared) == CheckRetractables(o.View(), AssertionKind, declared)
      && RetractedOfKind(next.View(), declared, AssertionKind, revision)
         == RetractedOfKind(o.View(), declared, AssertionKind, revision)
  {
    var first := RetractedOfKind(o.View(), declared, RelationshipKind, revision);
    var next := o.(changed := o.changed + first);
    forall id ensures CheckRetractable(next.View(), AssertionKind, id) == CheckRetractable(o.View(), AssertionKind, id)
      ensures id in next.View() && next.View()[id].IsClaim(AssertionKind) ==>
        id in o.View() && o.View()[id] == next.View()[id]
      ensures id in o.View() && o.View()[id].IsClaim(AssertionKind) ==>
        id in next.View() && o.View()[id] == next.View()[id]
    {
      SecondPassAt(o, declared, revision, id);
    }
    FirstFailureAgrees(declared, id => CheckRetractable(next.View(), AssertionKind, id), id =>
      CheckRetractable(o.View(), AssertionKind, id));
  }

  lemma SecondPassAt(o: Overlay, declared: seq<RecordRef>, revision: nat, id: RecordRef)
    ensures var next := o.(changed := o.changed + RetractedOfKind(o.View(), declared, RelationshipKind, revision));
      && CheckRetractable(next.View(), AssertionKind, id) == CheckRetractable(o.View(), AssertionKind, id)
      && (id in next.View() && next.View()[id].IsClaim(AssertionKind) ==>
         id in o.View() && o.View()[id] == next.View()[id])
      && (id in o.View() && o.View()[id].IsClaim(AssertionKind) ==>
         id in next.View() && o.View()[id] == next.View()[id])
  {
  }

  lemma ChangedTwice(a: map<RecordRef, Record>, b: map<RecordRef, Record>, c: map<RecordRef, Record>)
    ensures (a + b) + c == a + (b + c)
  {
  }

  /** What one pass over the declared claims of one kind must do. */
  function RetractKind(o: Overlay, declared: seq<RecordRef>, kind: ClaimKind, revision: nat): StepResult {
    var _ :- CheckRetractables(o.View(), kind, declared);
    var retracted := RetractedOfKind(o.View(), declared, kind, revision);
    Ok(Step(o.(changed := o.changed + retracted), retracted.Keys))
  }

  /** The pass has handled the first `k` declared identifiers. */
  ghost predicate Retracting(o: Overlay, declared: seq<RecordRef>, kind: ClaimKind, revision: nat, k: nat, step: Step)
    requires k <= |declared|
  {
    && (forall i :: 0 <= i < k ==> CheckRetractable(o.View(), kind, declared[i]).Ok?)
    && step == Step(o.(changed := o.changed + RetractedOfKind(o.View(), declared[..k], kind, revision)),
                    RetractedOfKind(o.View(), declared[..k], kind, revision).Keys)
  }

  lemma PutMerges(a: map<RecordRef, Record>, b: map<RecordRef, Record>, id: RecordRef, r: Record)
    ensures (a + b)[id := r] == a + b[id := r]
  {
  }

  lemma {:induction false} RetractOne(o: Overlay, declared: seq<RecordRef>, kind: ClaimKind, revision: nat, k: nat,
      step: Step)
    requires Increasing(declared, Less) && k < |declared| && Retracting(o, declared, kind, revision, k, step)
    ensures var found := step.overlay.Get(declared[k]);
      if found.None? || !(found.value.Claim? && found.value.IsClaim(kind))
        then Retracting(o, declared, kind, revision, k + 1, step)
      else if found.value.version >= MAX_U64
        then RetractKind(o, declared, kind, revision) == Err(RecordVersionExhausted(declared[k]))
      else Retracting(o, declared, kind, revision, k + 1,
                      Step(step.overlay.Put(declared[k], RetractedVersion(found.value, revision)), step.affected
                        + {declared[k]}))
  {
    hide RetractedOfKind, RetractedVersion, CheckRetractables, Increasing;
    StillToRetract(o, declared, kind, revision, k);
    RetractNext(o.View(), declared, kind, revision, k);
    var found := step.overlay.Get(declared[k]);
    var retracted := RetractedOfKind(o.View(), declared[..k], kind, revision);
    assert found == Lookup(o.View(), declared[k]);
    if found.Some? && found.value.IsClaim(kind) {
      if found.value.version >= MAX_U64 {
        RetractableAt(o.View(), kind, declared, k);
      } else {
        PutMerges(o.changed, retracted, declared[k], RetractedVersion(found.value, revision));
      }
    }
  }

  lemma RetractEnds(o: Overlay, declared: seq<RecordRef>, kind: ClaimKind, revision: nat, step: Step)
    ensures Retracting(o, declared, kind, revision, 0, Step(o, {}))
    ensures Retracting(o, declared, kind, revision, |declared|, step) ==>
      RetractKind(o, declared, kind, revision) == Ok(step)
  {
    hide RetractedVersion;
    assert declared[..0] == [] && declared[..|declared|] == declared;
    NothingRetracted(o.View(), kind, revision);
  }

  method RetractPass(o: Overlay, declared: seq<RecordRef>, kind: ClaimKind, revision: nat) returns (outcome: StepResult)
    requires Increasing(declared, Less)
    ensures outcome == RetractKind(o, declared, kind, revision)
  {
    hide *;
    var step := Step(o, {});
    RetractEnds(o, declared, kind, revision, step);
    for k := 0 to |declared|
      invariant Retracting(o, declared, kind, revision, k, step)
    {
      RetractOne(o, declared, kind, revision, k, step);
      var found := step.overlay.Get(declared[k]);
      if found.Some? && found.value.Claim? && found.value.IsClaim(kind) {
        if found.value.version >= MAX_U64 { return Err(RecordVersionExhausted(declared[k])); }
        step := Step(step.overlay.Put(declared[k], RetractedVersion(found.value, revision)), step.affected
          + {declared[k]});
      }
    }
    RetractEnds(o, declared, kind, revision, step);
    outcome := Ok(step);
  }

  /** The imperative outcome and the specified one: same error, or same overlay and same records written. */
  ghost predicate Performs(spec: StepResult, after: Overlay, outcome: Result<set<RecordRef>, GraphError>) {
    match spec
    case Ok(step) => outcome == Ok(step.affected) && after == step.overlay
    case Err(e) => outcome == Err(e)
  }

  class RecordOverlay {
    const base: map<RecordRef, Record>
    const baseReverse: Index<ReverseReference>
    var changed: map<RecordRef, Record>

    constructor (base: map<RecordRef, Record>, baseReverse: Index<ReverseReference>)
      ensures Value() == Overlay(base, baseReverse, map[])
    {
      this.base, this.baseReverse, changed := base, baseReverse, map[];
    }

    /** The overlay as a value. */
    function Value(): Overlay
      reads this
    {
      Overlay(base, baseReverse, changed)
    }

    method Get(id: RecordRef) returns (r: Option<Record>)
      ensures r == Value().Get(id)
    {
      if id in changed { return Some(changed[id]); }
      r := Lookup(base, id);
    }

    method Insert(id: RecordRef, r: Record)
      modifies this
      ensures Value() == old(Value()).Put(id, r)
    {
      changed := changed[id := r];
    }

    method CreateRecord(new_: NewRecord, revision: nat) returns (outcome: Result<set<RecordRef>, GraphError>)
      modifies this
      ensures Performs(Reducer.CreateRecord(old(Value()), new_, revision), Value(), outcome)
    {
      var id := new_.Id();
      var present := Get(id);
      if present.Some? { return Err(AlreadyExists(id)); }
      var r: Record;
      match new_ {
        case NewEntity(_, entityType, schemaVersion, properties) =>
          r := Entity(id, 1, true, entityType, schemaVersion, properties, revision, revision);
        case NewEvidence(_, digest, locator) =>
          r := Evidence(id, 1, digest, locator, revision);
        case NewAssertionRecord(a) =>
          if !a.validTime.IsValid() { return Err(InvalidInterval(id)); }
          r := ProposedClaim(OfAssertion(a), None, revision);
        case NewRelationshipRecord(c) =>
          if !c.validTime.IsValid() { return Err(InvalidInterval(id)); }
          r := ProposedClaim(OfRelationship(c), None, revision);
      }
      Insert(id, r);
      outcome := Ok({id});
    }

    method ReplaceEntity(target: RecordRef, properties: Value, revision: nat)
        returns (outcome: Result<set<RecordRef>, GraphError>)
      modifies this
      ensures Performs(ReplaceProperties(old(Value()), target, properties, revision), Value(), outcome)
    {
      var found := Get(target);
      if !(found.Some? && found.value.Entity?) { return Err(WrongKindOrMissing(Value(), target, None)); }
      var e := found.value;
      if !e.active { return Err(NotVisible(target)); }
      if e.version >= MAX_U64 { return Err(RecordVersionExhausted(target)); }
      Insert(target, e.(version := e.version + 1, properties := properties, modified := revision));
      outcome := Ok({target});
    }

    method Act(kind: ClaimKind, target: RecordRef, action: Action, correction: Option<NewClaim>, revision: nat)
      returns (outcome: Result<set<RecordRef>, GraphError>)
      modifies this
      ensures Performs(ActOnClaim(old(Value()), kind, target, action, correction, revision), Value(), outcome)
    {
      var found := Get(target);
      if !(found.Some? && found.value.IsClaim(kind)) { return Err(WrongKindOrMissing(Value(), target, Some(kind))); }
      var r := found.value;
      if action == Correct {
        if r.status != Accepted { return Err(InvalidTransition(r.status, action)); }
        if correction.None? { return Err(CorrectionRequired); }
        var present := Get(correction.value.id);
        if present.Some? { return Err(AlreadyExists(correction.value.id)); }
        if !correction.value.validTime.IsValid() { return Err(InvalidInterval(correction.value.id)); }
        Insert(correction.value.id, ProposedClaim(correction.value, Some(target), revision));
        return Ok({correction.value.id});
      }
      if correction.Some? { return Err(UnexpectedCorrection); }
      var next := Transition(r.status, action);
      if next.Err? { return Err(next.error); }
      if r.version >= MAX_U64 { return Err(RecordVersionExhausted(target)); }
      Insert(target, r.(status := next.value, version := r.version + 1, modified := revision));
      outcome := Ok({target});
    }

    /** Both passes, relationships first, mutating the declared claims. */
    method RetractDeclared(declared: seq<RecordRef>, revision: nat)
        returns (outcome: Result<set<RecordRef>, GraphError>)
      requires Increasing(declared, Less)
      modifies this
      ensures Performs(RetractAll(old(Value()), declared, revision), Value(), outcome)
    {
      hide RetractedOfKind, CheckRetractables, RetractedClaims, Increasing;
      ghost var o := Value();
      var first := RetractPass(Value(), declared, RelationshipKind, revision);
      if first.Err? { return Err(first.error); }
      SecondPassSame(o, declared, revision);
      var second := RetractPass(first.value.overlay, declared, AssertionKind, revision);
      if second.Err? { return Err(second.error); }
      changed := second.value.overlay.changed;
      RetractBoth(o.View(), declared, revision);
      ChangedTwice(o.changed, RetractedOfKind(o.View(), declared, RelationshipKind, revision),
        RetractedOfKind(o.View(), declared, AssertionKind, revision));
      outcome := Ok(first.value.affected + second.value.affected);
    }

    /** The callback's arguments, in the order `for_each_reverse_reference` makes them. */
    method ForEachReverseReference(target: RecordRef) returns (visits: seq<Visit>)
      ensures Visited(visits, Value().ReferencesTo(target), Value().ReferencesTo(target).Keys)
      ensures VisitOwners(visits) == Sorted(Value().ReferencesTo(target).Keys)
    {
      visits := MergeReferences(Value(), target);
    }

    /** Cascade deletion: scan the dependents, check the declaration, retract, then mark the entity. */
    method DeleteEntity(target: RecordRef, policy: DeletePolicy, declared: seq<RecordRef>, revision: nat)
      returns (outcome: Result<set<RecordRef>, GraphError>)
      modifies this
      ensures Performs(DeleteOverlaidEntity(old(Value()), target, policy, declared, revision), Value(), outcome)
    {
      hide CheckDeletion, Counts, Visited, VisitOwners, RetractAll, Increasing, Overlay.ReferencesTo,
           WrongKindOrMissing;
      ghost var o := Value();
      var found := Get(target);
      if !(found.Some? && found.value.Entity?) { return Err(WrongKindOrMissing(Value(), target, None)); }
      if !found.value.active { return Err(NotVisible(target)); }
      var visits := ForEachReverseReference(target);
      var scan := ScanDependents(visits, Value().ReferencesTo(target), target, declared);
      var check := CheckScan(scan, Value().ReferencesTo(target), target, policy, declared);
      if check.Err? { return Err(check.error); }
      var affected: set<RecordRef> := {};
      if policy.CascadeAndRetract? {
        var retracted := RetractDeclared(declared, revision);
        if retracted.Err? { return retracted; }
        EntitySurvivesRetraction(o, declared, revision, target);
        affected := retracted.value;
      }
      var entity := Get(target);
      outcome := MarkTarget(entity.value, target, revision, affected);
    }

    method MarkTarget(e: Record, target: RecordRef, revision: nat, affected: set<RecordRef>)
        returns (outcome: Result<set<RecordRef>, GraphError>)
      requires e.Entity? && Value().Get(target) == Some(e)
      modifies this
      ensures Performs(MarkDeleted(Step(old(Value()), affected), target, revision), Value(), outcome)
    {
      if e.version >= MAX_U64 { return Err(RecordVersionExhausted(target)); }
      Insert(target, e.(active := false, version := e.version + 1, modified := revision));
      outcome := Ok(affected + {target});
    }

    /** `apply_operation`. */
    method ApplyOperation(op: Operation, revision: nat) returns (outcome: Result<set<RecordRef>, GraphError>)
      modifies this
      ensures Performs(Reducer.ApplyOperation(old(Value()), op, revision), Value(), outcome)
    {
      hide Performs, Reducer.CreateRecord, ReplaceProperties, DeleteOverlaidEntity, ActOnClaim;
      match op {
        case Create(_, record) => outcome := CreateRecord(record, revision);
        case ReplaceEntity(target, _, properties) => outcome := ReplaceEntity(target, properties, revision);
        case DeleteEntity(target, _, policy, affected) => outcome := DeleteEntity(target, policy, affected, revision);
        case _ => outcome := Act(op.ActKind(), op.target, op.action, op.Correction(), revision);
      }
    }
  }

  lemma EntitySurvivesRetraction(o: Overlay, declared: seq<RecordRef>, revision: nat, target: RecordRef)
    requires target in o.View() && o.View()[target].Entity? && RetractAll(o, declared, revision).Ok?
    ensures var view := RetractAll(o, declared, revision).value.overlay.View();
      target in view && view[target] == o.View()[target]
  {
  }

  lemma AllVisited(visits: seq<Visit>, refs: map<RecordRef, ReverseReference>, seen: set<RecordRef>)
    requires Visited(visits, refs, seen) && (forall w :: w in refs ==> w in seen)
    ensures Visited(visits, refs, refs.Keys)
  {
  }
}
