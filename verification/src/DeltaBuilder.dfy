/** Building the family deltas in place, key by key (crates/uste-graph/src/state_disk.rs:3154-3449). */
module DeltaBuilder {
  import opened Base
  import opened Records
  import opened References
  import opened Reducer
  import opened Invariant
  import opened Counting
  import opened Families
  import opened KeyOrder
  import opened Deltas
  import opened OverlayObject
  import opened GraphStateObject

  datatype DiskError = CorruptIndex | RootStateMismatch | Conflict | Refused(reason: GraphError)

  /** Everything the record refers to lies in its own namespace. */
  ghost predicate InNamespace(r: Record) {
    forall t :: t in OutgoingOf(r) || t in IncomingOf(r) || t in ProvenanceOf(r) || t in ReverseOf(r) ==>
      t.scope == r.id.scope
  }

  // One record's entries, collected family by family

  /** The keys collected once the links, some evidence and some reverse targets have been visited. */
  predicate Visited(r: Record, key: Key, evidence: set<RecordRef>, targets: set<RecordRef>) {
    key.PairKey? &&
    match key.family
    case Outgoing => true
    case Incoming => true
    case Provenance => RecordRef(r.id.scope, key.left) in evidence
    case Reverse => RecordRef(r.id.scope, key.left) in targets
    case _ => false
  }

  function Collected(r: Record, evidence: set<RecordRef>, targets: set<RecordRef>): Entries {
    map key | key in OwnKeys(r) && Visited(r, key, evidence, targets) && OwnedAt(r, key).Some? :: OwnedAt(r, key).value
  }

  lemma CollectedLookup(r: Record, evidence: set<RecordRef>, targets: set<RecordRef>, key: Key)
    ensures Lookup(Collected(r, evidence, targets), key) == if Visited(r, key, evidence, targets) then OwnedAt(r, key)
      else None
  {
    hide OwnedAt, OwnKeys;
    if OwnedAt(r, key).Some? { OwnKeysComplete(r, key); }
  }

  /** All secondary entries of a record, keyed. */
  function SecondaryOf(r: Record): Entries {
    Collected(r, ProvenanceOf(r).Keys, ReverseOf(r).Keys)
  }

  lemma SecondaryLookup(r: Record, key: Key)
    ensures Lookup(SecondaryOf(r), key) == if key.RecordKey? then None else OwnedAt(r, key)
  {
    hide OutgoingOf, IncomingOf, ProvenanceOf, ReverseOf, OwnKeys;
    CollectedLookup(r, ProvenanceOf(r).Keys, ReverseOf(r).Keys, key);
  }

  /** The two entries of an accepted relationship. */
  function LinkEntries(r: Record): Entries {
    if r.IsClaim(RelationshipKind) && r.status == Accepted
    then map[PairKey(Outgoing, r.body.from.record, r.id.record) := NeighborContent(r.body.to.record),
             PairKey(Incoming, r.body.to.record, r.id.record) := NeighborContent(r.body.from.record)]
    else map[]
  }

  lemma {:induction false} LinksAreCollected(r: Record)
    requires InNamespace(r)
    ensures Collected(r, {}, {}) == LinkEntries(r)
  {
    hide OwnKeys, ReverseOf, ProvenanceOf, Collected;
    if r.IsClaim(RelationshipKind) && r.status == Accepted {
      assert r.body.from in OutgoingOf(r) && r.body.to in IncomingOf(r);
    }
    forall key ensures Lookup(Collected(r, {}, {}), key) == Lookup(LinkEntries(r), key) {
      CollectedLookup(r, {}, {}, key);
    }
    SameEntries(Collected(r, {}, {}), LinkEntries(r));
  }

  lemma {:induction false} CollectEvidence(r: Record, evidence: set<RecordRef>, targets: set<RecordRef>, e: RecordRef)
    requires InNamespace(r) && e in ProvenanceOf(r)
    ensures Collected(r, evidence + {e}, targets)
      == Collected(r, evidence, targets)[PairKey(Provenance, e.record, r.id.record) := NoContent]
  {
    hide OwnKeys, ReverseOf, ProvenanceOf, OutgoingOf, IncomingOf, Collected;
    var more := Collected(r, evidence, targets)[PairKey(Provenance, e.record, r.id.record) := NoContent];
    forall key ensures Lookup(Collected(r, evidence + {e}, targets), key) == Lookup(more, key) {
      CollectedLookup(r, evidence, targets, key);
      CollectedLookup(r, evidence + {e}, targets, key);
    }
    SameEntries(Collected(r, evidence + {e}, targets), more);
  }

  lemma {:induction false} CollectTarget(r: Record, evidence: set<RecordRef>, targets: set<RecordRef>, t: RecordRef)
    requires InNamespace(r) && t in ReverseOf(r)
    ensures Collected(r, evidence, targets + {t})
      == Collected(r, evidence, targets)[PairKey(Reverse, t.record, r.id.record) := ReverseContent(ReverseOf(r)[t])]
  {
    hide OwnKeys, ReverseOf, ProvenanceOf, OutgoingOf, IncomingOf, Collected;
    var more := Collected(r, evidence, targets)[PairKey(Reverse, t.record, r.id.record) :=
      ReverseContent(ReverseOf(r)[t])];
    forall key ensures Lookup(Collected(r, evidence, targets + {t}), key) == Lookup(more, key) {
      CollectedLookup(r, evidence, targets, key);
      CollectedLookup(r, evidence, targets + {t}, key);
    }
    SameEntries(Collected(r, evidence, targets + {t}), more);
  }

  lemma EvidenceKeyTaken(r: Record, evidence: set<RecordRef>, targets: set<RecordRef>, e: RecordRef)
    requires InNamespace(r) && e in ProvenanceOf(r)
    ensures PairKey(Provenance, e.record, r.id.record) in Collected(r, evidence, targets) <==> e in evidence
  {
    hide OwnKeys, ReverseOf, ProvenanceOf, OutgoingOf, IncomingOf, Collected;
    CollectedLookup(r, evidence, targets, PairKey(Provenance, e.record, r.id.record));
  }

  lemma TargetKeyTaken(r: Record, evidence: set<RecordRef>, targets: set<RecordRef>, t: RecordRef)
    requires InNamespace(r) && t in ReverseOf(r)
    ensures PairKey(Reverse, t.record, r.id.record) in Collected(r, evidence, targets) <==> t in targets
  {
    hide OwnKeys, ReverseOf, ProvenanceOf, OutgoingOf, IncomingOf, Collected;
    CollectedLookup(r, evidence, targets, PairKey(Reverse, t.record, r.id.record));
  }

  method WithEvidence(r: Record, links: Entries) returns (found: Result<Entries, DiskError>)
    requires InNamespace(r) && links == Collected(r, {}, {})
    ensures found == if Distinct(EvidenceKeys(r)) then Ok(Collected(r, ProvenanceOf(r).Keys, {})) else Err(CorruptIndex)
  {
    hide OwnKeys, ReverseOf, ProvenanceOf, OutgoingOf, IncomingOf, Collected, InNamespace, EvidenceKeys;
    var entries, evidence := links, EvidenceKeys(r);
    EvidenceListed(r);
    ghost var seen: set<RecordRef> := {};
    for k := 0 to |evidence|
      invariant entries == Collected(r, seen, {})
      invariant Distinct(evidence[..k]) && seen == KeySet(evidence[..k])
    {
      var key := PairKey(Provenance, evidence[k].record, r.id.record);
      EvidenceKeyTaken(r, seen, {}, evidence[k]);
      if key in entries {
        Repeats(evidence, k);
        return Err(CorruptIndex);
      }
      CollectEvidence(r, seen, {}, evidence[k]);
      entries := entries[key := NoContent];
      seen := seen + {evidence[k]};
      assert evidence[..k + 1] == evidence[..k] + [evidence[k]];
    }
    assert evidence[..|evidence|] == evidence;
    found := Ok(entries);
  }

  method WithTargets(r: Record, before: Entries) returns (found: Result<Entries, DiskError>)
    requires InNamespace(r) && before == Collected(r, ProvenanceOf(r).Keys, {})
    ensures found == Ok(SecondaryOf(r))
  {
    hide OwnKeys, ReverseOf, ProvenanceOf, OutgoingOf, IncomingOf, Collected, InNamespace, Increasing;
    var entries := before;
    var references := ReverseReferences(r);
    var targets := Ascending(references.Keys);
    ghost var seen, done: set<RecordRef> := ProvenanceOf(r).Keys, {};
    for k := 0 to |targets|
      invariant entries == Collected(r, seen, done) && done == KeySet(targets[..k])
    {
      var t := targets[k];
      assert t in references.Keys;
      var key := PairKey(Reverse, t.record, r.id.record);
      TargetKeyTaken(r, seen, done, t);
      NotYet(references.Keys, k);
      if key in entries { return Err(CorruptIndex); }
      CollectTarget(r, seen, done, t);
      entries := entries[key := ReverseContent(references[t])];
      done := done + {t};
      assert targets[..k + 1] == targets[..k] + [t];
    }
    assert targets[..|targets|] == targets;
    SortedKeySet(references.Keys);
    found := Ok(entries);
  }

  /** `record_secondary_entries`: a repeated key is corruption, and only repeated evidence can cause one. */
  method SecondaryEntries(r: Record) returns (found: Result<Entries, DiskError>)
    requires InNamespace(r)
    ensures found == if Distinct(EvidenceKeys(r)) then Ok(SecondaryOf(r)) else Err(CorruptIndex)
  {
    hide *;
    LinksAreCollected(r);
    found := WithEvidence(r, LinkEntries(r));
    if found.Err? { return; }
    found := WithTargets(r, found.value);
  }

  lemma EvidenceListed(r: Record)
    ensures KeySet(EvidenceKeys(r)) == ProvenanceOf(r).Keys
    ensures forall k :: 0 <= k < |EvidenceKeys(r)| ==> EvidenceKeys(r)[k] in ProvenanceOf(r)
  {
  }

  lemma Repeats(ids: seq<RecordRef>, k: nat)
    requires k < |ids| && ids[k] in KeySet(ids[..k])
    ensures !Distinct(ids)
  {
    var i :| 0 <= i < k && ids[..k][i] == ids[k];
    assert ids[i] == ids[k];
  }

  lemma NotYet(ids: set<RecordRef>, k: nat)
    requires k < |ids|
    ensures Sorted(ids)[k] !in KeySet(Sorted(ids)[..k])
  {
    var s := Sorted(ids);
    assert forall i :: 0 <= i < k ==> Less(s[i], s[k]);
  }

  // Deltas, inserted side by side

  /** `insert_delta_side`: equal sides are dropped, a key met twice is corruption. */
  function InsertSide(deltas: DeltaMap, key: Key, before: Option<Content>,
      after: Option<Content>): Result<DeltaMap, DiskError> {
    if before == after then Ok(deltas)
    else if key in deltas then Err(CorruptIndex)
    else Ok(deltas[key := Delta(before, after)])
  }

  function ChangedAmong(before: Entries, after: Entries, keys: set<Key>): DeltaMap {
    map key | key in keys && Lookup(before, key) != Lookup(after, key) :: Delta(Lookup(before, key), Lookup(after, key))
  }

  lemma ChangedStep(before: Entries, after: Entries, keys: set<Key>, key: Key)
    ensures ChangedAmong(before, after, keys + {key}) ==
      if Lookup(before, key) == Lookup(after, key) then ChangedAmong(before, after, keys)
      else ChangedAmong(before, after, keys)[key := Delta(Lookup(before, key), Lookup(after, key))]
  {
  }

  method InsertKeys(deltas: DeltaMap, before: Entries, after: Entries, keys: set<Key>)
      returns (r: Result<DeltaMap, DiskError>)
    requires forall key :: key in keys ==> key !in deltas
    ensures r == Ok(deltas + ChangedAmong(before, after, keys))
  {
    hide ChangedAmong;
    var out, left := deltas, keys;
    ghost var done: set<Key> := {};
    NothingChanged(before, after);
    while left != {}
      invariant left <= keys && done == keys - left
      invariant out == deltas + ChangedAmong(before, after, done)
      decreases left
    {
      var key :| key in left;
      ChangedStep(before, after, done, key);
      ChangedWithin(before, after, done);
      DeltaMerges(deltas, ChangedAmong(before, after, done), key, Delta(Lookup(before, key), Lookup(after, key)));
      var inserted := InsertSide(out, key, Lookup(before, key), Lookup(after, key));
      out, left := inserted.value, left - {key};
      done := done + {key};
    }
    assert done == keys;
    r := Ok(out);
  }

  lemma NothingChanged(before: Entries, after: Entries)
    ensures ChangedAmong(before, after, {}) == map[]
  {
  }

  lemma ChangedWithin(before: Entries, after: Entries, keys: set<Key>)
    ensures ChangedAmong(before, after, keys).Keys <= keys
  {
  }

  lemma DeltaMerges(a: DeltaMap, b: DeltaMap, key: Key, d: Delta)
    ensures (a + b)[key := d] == a + b[key := d]
  {
  }

  function SecondaryOfOption(r: Option<Record>): Entries {
    if r.Some? then SecondaryOf(r.value) else map[]
  }

  lemma SecondaryOptionLookup(r: Option<Record>, key: Key)
    ensures Lookup(SecondaryOfOption(r), key) == if key.RecordKey? then None else OwnedEntry(r, key)
  {
    hide SecondaryOf, OwnedAt;
    if r.Some? { SecondaryLookup(r.value, key); }
  }

  /** Everything a well-formed change contributes, in the pieces the builder inserts. */
  function ChangePieces(c: RecordChange, revision: nat): DeltaMap {
    var before, after := SecondaryOfOption(c.before), SecondaryOf(c.after);
    var current := if RecordEntry(c.before) == Some(RecordContent(c.after)) then map[]
                   else map[RecordKey(c.id.record) := Delta(RecordEntry(c.before), Some(RecordContent(c.after)))];
    current[VersionKey(c.id.record, revision) := Delta(None, Some(RecordContent(c.after)))]
    + ChangedAmong(before, after, before.Keys) + ChangedAmong(before, after, after.Keys - before.Keys)
  }

  lemma {:induction false} PieceLookup(c: RecordChange, scope: nat, revision: nat, key: Key)
    requires WellFormedChange(c, scope, revision)
    ensures Lookup(ChangePieces(c, revision), key) == ChangeDeltaAt(c, revision, key)
  {
    hide SecondaryOf, OutgoingOf, IncomingOf, ProvenanceOf, ReverseOf;
    SecondaryOptionLookup(c.before, key);
    SecondaryLookup(c.after, key);
  }

  lemma SameDeltas(a: DeltaMap, b: DeltaMap)
    requires forall key :: Lookup(a, key) == Lookup(b, key)
    ensures a == b
  {
    forall key ensures key in a <==> key in b { assert Lookup(a, key) == Lookup(b, key); }
    forall key | key in a ensures a[key] == b[key] { assert Lookup(a, key) == Lookup(b, key); }
  }

  lemma {:induction false} PiecesAreChange(c: RecordChange, scope: nat, revision: nat)
    requires WellFormedChange(c, scope, revision)
    ensures ChangePieces(c, revision) == ChangeDeltas(c, revision)
  {
    hide ChangePieces, ChangeDeltas, ChangeDeltaAt, WellFormedChange;
    forall key ensures Lookup(ChangePieces(c, revision), key) == Lookup(ChangeDeltas(c, revision), key) {
      PieceLookup(c, scope, revision, key);
      ChangeDeltasLookup(c, revision, key);
    }
    SameDeltas(ChangePieces(c, revision), ChangeDeltas(c, revision));
  }

  // One change, then all of them

  ghost predicate Buildable(c: RecordChange, scope: nat, revision: nat) {
    && WellFormedChange(c, scope, revision)
    && InNamespace(c.after) && Distinct(EvidenceKeys(c.after))
    && (c.before.Some? ==> InNamespace(c.before.value) && Distinct(EvidenceKeys(c.before.value)))
  }

  ghost predicate Untouched(deltas: DeltaMap, record: nat) {
    forall key :: key in deltas ==> KeyRecord(key) != Some(record)
  }

  method InsertOwn(deltas: DeltaMap, c: RecordChange, revision: nat) returns (r: Result<DeltaMap, DiskError>)
    requires Untouched(deltas, c.id.record)
    ensures r == Ok(deltas + CurrentPiece(c, revision))
  {
    assert KeyRecord(RecordKey(c.id.record)) == Some(c.id.record)
      && KeyRecord(VersionKey(c.id.record, revision)) == Some(c.id.record);
    var current := InsertSide(deltas, RecordKey(c.id.record), RecordEntry(c.before), Some(RecordContent(c.after)));
    if current.Err? { return current; }
    r := InsertSide(current.value, VersionKey(c.id.record, revision), None, Some(RecordContent(c.after)));
    assert r.value == deltas + CurrentPiece(c, revision);
  }

  function CurrentPiece(c: RecordChange, revision: nat): DeltaMap {
    var current := if RecordEntry(c.before) == Some(RecordContent(c.after)) then map[]
                   else map[RecordKey(c.id.record) := Delta(RecordEntry(c.before), Some(RecordContent(c.after)))];
    current[VersionKey(c.id.record, revision) := Delta(None, Some(RecordContent(c.after)))]
  }

  method SecondaryOfEither(r: Option<Record>) returns (found: Result<Entries, DiskError>)
    requires r.Some? ==> InNamespace(r.value) && Distinct(EvidenceKeys(r.value))
    ensures found == Ok(SecondaryOfOption(r))
  {
    hide SecondaryOf, InNamespace, EvidenceKeys;
    if r.None? { return Ok(map[]); }
    found := SecondaryEntries(r.value);
  }

  lemma SecondaryIsLocal(r: Option<Record>, key: Key)
    requires key in SecondaryOfOption(r)
    ensures r.Some? && key.PairKey? && KeyRecord(key) == Some(r.value.id.record)
  {
    hide SecondaryOf, OutgoingOf, IncomingOf, ProvenanceOf, ReverseOf;
    SecondaryOptionLookup(r, key);
  }

  method AddChange(deltas: DeltaMap, c: RecordChange, scope: nat, revision: nat)
      returns (r: Result<DeltaMap, DiskError>)
    requires Buildable(c, scope, revision) && Untouched(deltas, c.id.record)
    ensures r == Ok(deltas + ChangeDeltas(c, revision))
  {
    hide SecondaryOfOption, InNamespace, EvidenceKeys, ChangedAmong, SecondaryOf, ChangeDeltas, CurrentPiece, Untouched;
    if c.after.id != c.id || c.after.ModifiedRevision() != revision { return Err(CorruptIndex); }
    r := InsertOwn(deltas, c, revision);
    if r.Err? { return; }
    var before := SecondaryOfEither(c.before);
    if before.Err? { return Err(CorruptIndex); }
    var after := SecondaryOfEither(Some(c.after));
    if after.Err? { return Err(CorruptIndex); }
    ghost var own, kept, added := CurrentPiece(c, revision), ChangedAmong(before.value, after.value, before.value.Keys),
      ChangedAmong(before.value, after.value, after.value.Keys - before.value.Keys);
    SecondaryFresh(deltas, c, scope, revision);
    r := InsertKeys(r.value, before.value, after.value, before.value.Keys);
    if r.Err? { return; }
    ChangedWithin(before.value, after.value, before.value.Keys);
    r := InsertKeys(r.value, before.value, after.value, after.value.Keys - before.value.Keys);
    PiecesAreChange(c, scope, revision);
    PiecesRegroup(deltas, c, revision);
  }

  lemma SecondaryFresh(deltas: DeltaMap, c: RecordChange, scope: nat, revision: nat)
    requires Buildable(c, scope, revision) && Untouched(deltas, c.id.record)
    ensures forall key :: key in SecondaryOfOption(c.before) || key in SecondaryOfOption(Some(c.after)) ==>
      key !in deltas + CurrentPiece(c, revision)
  {
    hide SecondaryOfOption, InNamespace, EvidenceKeys;
    forall key | key in SecondaryOfOption(c.before) || key in SecondaryOfOption(Some(c.after))
      ensures key !in deltas + CurrentPiece(c, revision)
    {
      if key in SecondaryOfOption(c.before) {
        SecondaryIsLocal(c.before, key);
        } else { SecondaryIsLocal(Some(c.after), key);
      }
    }
  }

  lemma PiecesRegroup(deltas: DeltaMap, c: RecordChange, revision: nat)
    ensures var before, after := SecondaryOfOption(c.before), SecondaryOfOption(Some(c.after));
      ((deltas + CurrentPiece(c, revision)) + ChangedAmong(before, after, before.Keys))
        + ChangedAmong(before, after, after.Keys - before.Keys)
      == deltas + ChangePieces(c, revision)
  {
    hide SecondaryOf, ChangedAmong;
  }

  ghost predicate AllBuildable(p: PreparedGraph) {
    && WellFormedChanges(p.changes, p.scope, p.revision)
    && forall i :: 0 <= i < |p.changes| ==> Buildable(p.changes[i], p.scope, p.revision)
  }

  lemma {:induction false} LaterIsUntouched(changes: seq<RecordChange>, scope: nat, revision: nat, k: nat)
    requires k < |changes| && WellFormedChanges(changes, scope, revision)
    ensures Untouched(AllChangeDeltas(changes[..k], revision), changes[k].id.record)
  {
    hide AllChangeDeltas;
    var front := changes[..k];
    forall key | key in AllChangeDeltas(front, revision) ensures KeyRecord(key) != Some(changes[k].id.record) {
      AllChangeDeltasLookup(front, scope, revision, key);
      if KeyRecord(key) == Some(changes[k].id.record) {
        forall i | 0 <= i < k ensures KeyRecord(key) != Some(front[i].id.record) {
          assert front[i] == changes[i];
          assert WellFormedChange(changes[i], scope, revision) && WellFormedChange(changes[k], scope, revision);
        }
      }
    }
  }

  /** The loop over the prepared changes; no key is ever produced twice. */
  method BuildChanges(p: PreparedGraph) returns (r: Result<DeltaMap, DiskError>)
    requires AllBuildable(p)
    ensures r == Ok(AllChangeDeltas(p.changes, p.revision))
  {
    hide ChangeDeltas, Buildable, WellFormedChanges;
    var deltas: DeltaMap := map[];
    for k := 0 to |p.changes|
      invariant deltas == AllChangeDeltas(p.changes[..k], p.revision)
    {
      LaterIsUntouched(p.changes, p.scope, p.revision, k);
      assert Buildable(p.changes[k], p.scope, p.revision);
      var next := AddChange(deltas, p.changes[k], p.scope, p.revision);
      if next.Err? { return Err(CorruptIndex); }
      deltas := next.value;
      assert p.changes[..k + 1][..k] == p.changes[..k];
    }
    assert p.changes[..|p.changes|] == p.changes;
    r := Ok(deltas);
  }

  method AddPolicy(deltas: DeltaMap, p: PreparedGraph, basePolicy: Option<NamespacePolicy>)
      returns (r: Result<DeltaMap, DiskError>)
    requires CurrentPolicyKey !in deltas && PolicyKey(p.revision) !in deltas
    ensures r == Ok(deltas + PolicyDeltas(basePolicy, p.policyChange, p.revision))
  {
    if p.policyChange.None? {
      assert deltas + PolicyDeltas(basePolicy, p.policyChange, p.revision) == deltas;
      return Ok(deltas);
    }
    var current := InsertSide(deltas, CurrentPolicyKey, PolicyEntry(basePolicy), PolicyEntry(p.policyChange));
    if current.Err? { return Err(CorruptIndex); }
    r := InsertSide(current.value, PolicyKey(p.revision), None, PolicyEntry(p.policyChange));
    assert r.value == deltas + PolicyDeltas(basePolicy, p.policyChange, p.revision);
  }

  // Target counts

  lemma InsertedStep(done: DeltaMap, key: Key, d: Delta, slot: nat)
    requires key !in done
    ensures |Inserted(done[key := d], slot)| == |Inserted(done, slot)|
      + (if SlotOf(key) == slot && IsInsertion(d) then 1 else 0)
  {
    hide IsInsertion, SlotOf;
    var next, old_ := Inserted(done[key := d], slot), Inserted(done, slot);
    assert key !in old_;
    if SlotOf(key) == slot && IsInsertion(d) { assert next == old_ + {key}; } else { assert next == old_; }
  }

  lemma RemovedStep(done: DeltaMap, key: Key, d: Delta, slot: nat)
    requires key !in done
    ensures |Removed(done[key := d], slot)| == |Removed(done, slot)|
      + (if SlotOf(key) == slot && IsRemoval(d) then 1 else 0)
  {
    hide IsRemoval, SlotOf;
    var next, old_ := Removed(done[key := d], slot), Removed(done, slot);
    assert key !in old_;
    if SlotOf(key) == slot && IsRemoval(d) { assert next == old_ + {key}; } else { assert next == old_; }
  }

  lemma RemovedGrows(done: DeltaMap, deltas: DeltaMap, slot: nat)
    requires forall key :: key in done ==> key in deltas && deltas[key] == done[key]
    ensures |Removed(done, slot)| <= |Removed(deltas, slot)|
  {
    assert Removed(done, slot) <= Removed(deltas, slot);
    SubsetSize(Removed(done, slot), Removed(deltas, slot));
  }

  lemma {:induction false} SubsetSize<T>(a: set<T>, b: set<T>)
    requires a <= b
    ensures |a| <= |b|
  {
    assert |b - a| == |b| - |a|;
  }

  lemma InsertedGrows(done: DeltaMap, deltas: DeltaMap, slot: nat)
    requires forall key :: key in done ==> key in deltas && deltas[key] == done[key]
    ensures |Inserted(done, slot)| <= |Inserted(deltas, slot)|
  {
    assert Inserted(done, slot) <= Inserted(deltas, slot);
    SubsetSize(Inserted(done, slot), Inserted(deltas, slot));
  }

  /** `apply_count_delta`, on a 64-bit count. */
  function CountDelta(count: nat, d: Delta): Result<nat, DiskError> {
    if IsInsertion(d) then if count < MAX_U64 then Ok(count + 1) else Err(CorruptIndex)
    else if IsRemoval(d) then if count == 0 then Err(CorruptIndex) else Ok(count - 1)
    else Ok(count)
  }

  /** Eight 64-bit counts. */
  predicate WordCounts(counts: Counts) {
    |counts| == SLOTS && forall slot :: 0 <= slot < SLOTS ==> counts[slot] <= MAX_U64
  }

  /** Every removal has an entry in the base to remove. */
  ghost predicate CountsCover(base: Counts, deltas: DeltaMap) {
    |base| == SLOTS && forall slot :: 0 <= slot < SLOTS ==> |Removed(deltas, slot)| <= base[slot]
  }

  /** Every insertion has room in the base's counts. */
  ghost predicate CountsHaveRoom(base: Counts, deltas: DeltaMap) {
    |base| == SLOTS && forall slot :: 0 <= slot < SLOTS ==> base[slot] + |Inserted(deltas, slot)| <= MAX_U64
  }

  ghost predicate Counted(base: Counts, done: DeltaMap, counts: Counts) {
    |counts| == |base| == SLOTS && forall slot :: 0 <= slot < SLOTS ==> counts[slot] == Adjusted(base[slot], done, slot)
  }

  /** The deltas of the listed keys only. */
  function Only(deltas: DeltaMap, keys: seq<Key>): DeltaMap {
    map key | key in keys && key in deltas :: deltas[key]
  }

  /** Each count lies between zero and the largest word. */
  ghost predicate InRange(base: Counts, done: DeltaMap) {
    |base| == SLOTS && forall slot :: 0 <= slot < SLOTS ==> 0 <= Adjusted(base[slot], done, slot) <= MAX_U64
  }

  /** No count leaves the 64-bit range at any point of a walk over the deltas in key order. */
  ghost predicate CountsStayInRange(base: Counts, deltas: DeltaMap) {
    var keys := SortedKeys(deltas.Keys);
    forall n :: 0 <= n <= |keys| ==> InRange(base, Only(deltas, keys[..n]))
  }

  lemma {:induction false} CountOne(base: Counts, done: DeltaMap, counts: Counts, key: Key, d: Delta)
    requires Counted(base, done, counts) && WordCounts(counts) && key !in done
    ensures SlotOf(key) < SLOTS ==>
      var next := CountDelta(counts[SlotOf(key)], d);
      && (next.Ok? <==> InRange(base, done[key := d]))
      && (next.Ok? ==>
         Counted(base, done[key := d], counts[SlotOf(key) := next.value])
         && WordCounts(counts[SlotOf(key) := next.value]))
    ensures SlotOf(key) >= SLOTS ==> Counted(base, done[key := d], counts) && InRange(base, done[key := d])
  {
    hide Inserted, Removed, IsInsertion, Adjusted;
    var next := done[key := d];
    forall slot | 0 <= slot < SLOTS
      ensures Adjusted(base[slot], next, slot) - counts[slot]
           == (if SlotOf(key) != slot then 0 else if IsInsertion(d) then 1 else if IsRemoval(d) then -1 else 0)
    {
      AdjustedStep(base[slot], done, key, d, slot);
    }
    InsertsOrRemoves(d);
  }

  lemma AdjustedStep(base: nat, done: DeltaMap, key: Key, d: Delta, slot: nat)
    requires key !in done
    ensures Adjusted(base, done[key := d], slot) - Adjusted(base, done, slot)
         == (if SlotOf(key) != slot then 0 else if IsInsertion(d) then 1 else if IsRemoval(d) then -1 else 0)
  {
    hide Inserted, Removed, IsInsertion, IsRemoval;
    InsertedStep(done, key, d, slot);
    RemovedStep(done, key, d, slot);
    InsertsOrRemoves(d);
  }

  lemma InsertsOrRemoves(d: Delta)
    ensures !(IsInsertion(d) && IsRemoval(d))
  {
  }

  lemma OnlySnoc(deltas: DeltaMap, keys: seq<Key>, k: nat)
    requires k < |keys| && keys[k] in deltas && Enumerates(keys, deltas.Keys, KeyLess)
    ensures keys[k] !in Only(deltas, keys[..k]) && Only(deltas, keys[..k + 1])
      == Only(deltas, keys[..k])[keys[k] := deltas[keys[k]]]
  {
    hide KeyLess;
    assert keys[..k + 1] == keys[..k] + [keys[k]];
    assert StrictOrder(KeyLess) by { KeyLessIsStrictOrder(); }
    forall i | 0 <= i < k ensures keys[i] != keys[k] { assert KeyLess(keys[i], keys[k]); }
  }

  lemma OnlyEnds(deltas: DeltaMap, keys: seq<Key>)
    requires Enumerates(keys, deltas.Keys, KeyLess)
    ensures Only(deltas, keys[..0]) == map[] && Only(deltas, keys[..|keys|]) == deltas
  {
    hide KeyLess;
    assert keys[..|keys|] == keys;
    forall key | key in deltas ensures key in keys { assert key in deltas.Keys; }
  }

  lemma OutOfRange(base: Counts, deltas: DeltaMap, keys: seq<Key>, n: nat)
    requires keys == SortedKeys(deltas.Keys) && n <= |keys| && !InRange(base, Only(deltas, keys[..n]))
    ensures !CountsStayInRange(base, deltas)
  {
    hide InRange, Only;
  }

  lemma AllInRange(base: Counts, deltas: DeltaMap, keys: seq<Key>)
    requires keys == SortedKeys(deltas.Keys) && forall n :: 0 <= n <= |keys| ==> InRange(base, Only(deltas, keys[..n]))
    ensures CountsStayInRange(base, deltas)
  {
    hide InRange, Only;
  }

  /** The counts after all deltas, refused exactly when the running count
      of some family would leave the 64-bit range. */
  method CountTargets(base: Counts, deltas: DeltaMap) returns (r: Result<Counts, DiskError>)
    requires WordCounts(base)
    ensures r.Ok? <==> CountsStayInRange(base, deltas)
    ensures r.Ok? ==> TargetCounts(base, deltas) == Some(r.value) && WordCounts(r.value)
    ensures r.Err? ==> r.error == CorruptIndex
  {
    hide CountDelta, Counted, InRange, KeyLess, SlotOf, WordCounts, Increasing, Only, TargetCounts, CountsStayInRange;
    assert StrictOrder(KeyLess) by { KeyLessIsStrictOrder(); }
    var keys := InOrder(deltas.Keys, KeyLess);
    SortedKeysUnique(keys, deltas.Keys);
    var counts := base;
    CountedNone(base);
    assert |counts| == SLOTS by { WordCountsSize(counts); }
    OnlyEnds(deltas, keys);
    for k := 0 to |keys|
      invariant |counts| == SLOTS && Counted(base, Only(deltas, keys[..k]), counts) && WordCounts(counts)
      invariant forall n :: 0 <= n <= k ==> InRange(base, Only(deltas, keys[..n]))
    {
      var key := keys[k];
      assert key in deltas.Keys;
      OnlySnoc(deltas, keys, k);
      CountOne(base, Only(deltas, keys[..k]), counts, key, deltas[key]);
      if SlotOf(key) < SLOTS {
        var next := CountDelta(counts[SlotOf(key)], deltas[key]);
        if next.Err? {
          OutOfRange(base, deltas, keys, k + 1);
          return Err(CorruptIndex);
        }
        counts := counts[SlotOf(key) := next.value];
      }
    }
    AllInRange(base, deltas, keys);
    CountedAll(base, deltas, counts);
    r := Ok(counts);
  }

  lemma WordCountsSize(counts: Counts)
    requires WordCounts(counts)
    ensures |counts| == SLOTS
  {
  }

  lemma CountedNone(base: Counts)
    requires WordCounts(base)
    ensures Counted(base, map[], base) && InRange(base, map[])
  {
    assert forall slot :: Inserted(map[], slot) == {} && Removed(map[], slot) == {};
  }

  lemma CountedAll(base: Counts, deltas: DeltaMap, counts: Counts)
    requires Counted(base, deltas, counts)
    ensures |base| == SLOTS && TargetCounts(base, deltas) == Some(counts)
  {
    hide Adjusted;
    assert TargetCounts(base, deltas).Some?;
    assert TargetCounts(base, deltas).value == counts;
  }

  /** With something to remove and room to insert, the order of the walk does not matter: no count leaves the range. */
  lemma {:induction false} RoomStaysInRange(base: Counts, deltas: DeltaMap)
    requires CountsCover(base, deltas) && CountsHaveRoom(base, deltas)
    ensures CountsStayInRange(base, deltas)
  {
    hide Inserted, Removed, SortedKeys;
    var keys := SortedKeys(deltas.Keys);
    forall n | 0 <= n <= |keys| ensures InRange(base, Only(deltas, keys[..n])) {
      forall slot | 0 <= slot < SLOTS ensures 0 <= Adjusted(base[slot], Only(deltas, keys[..n]), slot) <= MAX_U64 {
        RemovedGrows(Only(deltas, keys[..n]), deltas, slot);
        InsertedGrows(Only(deltas, keys[..n]), deltas, slot);
      }
    }
  }

  /** A walk that stays in range ends in range. */
  lemma InRangeAtEnd(base: Counts, deltas: DeltaMap)
    requires CountsStayInRange(base, deltas)
    ensures InRange(base, deltas)
  {
    hide InRange, SortedKeys;
    var keys := SortedKeys(deltas.Keys);
    assert InRange(base, Only(deltas, keys[..|keys|]));
    assert Only(deltas, keys[..|keys|]) == deltas;
  }

  // The plan

  /** One transaction's terminal-root plan: exact deltas and the counts they lead to. */
  datatype Plan = Plan(scope: nat, baseRevision: nat, revision: nat, resultContent: ResultContent, targetCounts: Counts,
      deltas: DeltaMap)

  method BuildPlan(p: PreparedGraph, basePolicy: Option<NamespacePolicy>, base: Counts)
      returns (r: Result<Plan, DiskError>)
    requires AllBuildable(p) && WordCounts(base)
    ensures !CountsStayInRange(base, EntryDeltas(p, basePolicy)) ==> r == Err(CorruptIndex)
    ensures CountsStayInRange(base, EntryDeltas(p, basePolicy)) ==>
      if p.baseRevision == 0 then r == Err(RootStateMismatch)
      else r.Ok? && r.value == PlanOf(p, basePolicy, base, r.value.targetCounts)
    ensures r.Ok? ==>
      TargetCounts(base, EntryDeltas(p, basePolicy)) == Some(r.value.targetCounts) && WordCounts(r.value.targetCounts)
  {
    hide AllChangeDeltas, PolicyDeltas, CountsStayInRange, TargetCounts, WordCounts;
    var changes := BuildChanges(p);
    if changes.Err? { return Err(CorruptIndex); }
    NoPolicyKeys(p);
    var entries := AddPolicy(changes.value, p, basePolicy);
    if entries.Err? { return Err(CorruptIndex); }
    assert |base| == SLOTS by { WordCountsSize(base); }
    var counts := CountTargets(base, entries.value);
    if counts.Err? { return Err(CorruptIndex); }
    if p.baseRevision == 0 { return Err(RootStateMismatch); }
    r := Ok(PlanOf(p, basePolicy, base, counts.value));
  }

  function PlanOf(p: PreparedGraph, basePolicy: Option<NamespacePolicy>, base: Counts, target: Counts): Plan {
    Plan(p.scope, p.baseRevision, p.revision, p.resultContent, target, FamilyDeltas(p, basePolicy, base, target))
  }

  lemma NoPolicyKeys(p: PreparedGraph)
    requires AllBuildable(p)
    ensures CurrentPolicyKey !in AllChangeDeltas(p.changes, p.revision)
      && PolicyKey(p.revision) !in AllChangeDeltas(p.changes, p.revision)
  {
    hide AllChangeDeltas, Buildable;
    AllChangeDeltasLookup(p.changes, p.scope, p.revision, CurrentPolicyKey);
    AllChangeDeltasLookup(p.changes, p.scope, p.revision, PolicyKey(p.revision));
  }

  // Every prepared transaction can be planned

  lemma {:induction false} KeptIsBuildable(s: Snapshot, id: RecordRef)
    requires HistoriesKept(s) && id in s.records
    ensures InNamespace(s.records[id]) && Distinct(EvidenceKeys(s.records[id]))
  {
    hide HistoriesKept;
    CurrentShape(s, id);
    ContributionsInScope(s.scope, s.records[id]);
  }

  lemma {:induction false} AdvanceIsBuildable(s: Snapshot, p: PreparedGraph, t: Snapshot)
    requires Advances(s, p, t) && HistoriesKept(s) && HistoriesKept(t) && p.scope == s.scope
    ensures AllBuildable(p)
  {
    hide HistoriesKept, InNamespace, EvidenceKeys, WellFormedChange;
    forall i | 0 <= i < |p.changes| ensures Buildable(p.changes[i], p.scope, p.revision) {
      var id := p.changes[i].id;
      assert Lookup(t.records, id) == Some(p.changes[i].after);
      KeptIsBuildable(t, id);
      if id in s.records { KeptIsBuildable(s, id); }
    }
  }

  lemma {:induction false} AdvanceIsCovered(s: Snapshot, p: PreparedGraph, t: Snapshot)
    requires Advances(s, p, t) && Consistent(s) && Consistent(t)
    ensures CountsCover(MetadataCounts(s), EntryDeltas(p, s.policy))
  {
    hide Advances, Consistent, EntriesOf, EntryDeltas, KeysIn, MetadataCounts, Removed;
    ConsistentIsIndexed(s);
    CountsAreSizes(s);
    forall slot | 0 <= slot < SLOTS ensures |Removed(EntryDeltas(p, s.policy), slot)| <= MetadataCounts(s)[slot] {
      SizesAt(EntriesOf(s), slot);
      RemovedExists(s, p, t, slot);
    }
  }

  lemma {:induction false} RemovedExists(s: Snapshot, p: PreparedGraph, t: Snapshot, slot: nat)
    requires Advances(s, p, t) && Consistent(s) && Consistent(t) && slot < SLOTS
    ensures |Removed(EntryDeltas(p, s.policy), slot)| <= |KeysIn(EntriesOf(s), slot)|
  {
    hide Advances, Consistent, EntriesOf, EntryDeltas, EntryAt;
    var removed, keys := Removed(EntryDeltas(p, s.policy), slot), KeysIn(EntriesOf(s), slot);
    forall key | key in removed ensures key in keys {
      EntryDeltasExact(s, p, t, key);
      EntriesLookup(s, key);
    }
    SubsetSize(removed, keys);
  }

  lemma {:induction false} InsertedExists(s: Snapshot, p: PreparedGraph, t: Snapshot, slot: nat)
    requires Advances(s, p, t) && Consistent(s) && Consistent(t) && slot < SLOTS
    ensures |Inserted(EntryDeltas(p, s.policy), slot)| <= |KeysIn(EntriesOf(t), slot)|
  {
    hide Advances, Consistent, EntriesOf, EntryDeltas, EntryAt;
    var inserted, keys := Inserted(EntryDeltas(p, s.policy), slot), KeysIn(EntriesOf(t), slot);
    forall key | key in inserted ensures key in keys {
      EntryDeltasExact(s, p, t, key);
      EntriesLookup(t, key);
    }
    SubsetSize(inserted, keys);
  }
}
