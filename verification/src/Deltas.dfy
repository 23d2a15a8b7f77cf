/** Exact per-family deltas of one prepared transaction, and the abstract merge that applies them
    (crates/uste-graph/src/state_disk.rs:3154-3449). */
module Deltas {
  import opened Base
  import opened Records
  import opened Index
  import opened References
  import opened Reducer
  import opened Operations
  import opened Integrity
  import opened Publication
  import opened Invariant
  import opened Families
  import opened Counting

  datatype Delta = Delta(before: Option<Content>, after: Option<Content>)

  type DeltaMap = map<Key, Delta>

  // The merge: each delta checks the value it replaces

  predicate DeltasApply(entries: Entries, deltas: DeltaMap) {
    forall key :: key in deltas ==> deltas[key].before == Lookup(entries, key)
  }

  function EntryAfter(entries: Entries, deltas: DeltaMap, key: Key): Option<Content> {
    if key in deltas then deltas[key].after else Lookup(entries, key)
  }

  function ApplyDeltas(entries: Entries, deltas: DeltaMap): Entries {
    map key | key in entries.Keys + deltas.Keys && EntryAfter(entries, deltas, key).Some? ::
      EntryAfter(entries, deltas, key).value
  }

  lemma ApplyLookup(entries: Entries, deltas: DeltaMap, key: Key)
    ensures Lookup(ApplyDeltas(entries, deltas), key) == EntryAfter(entries, deltas, key)
  {
  }

  // What a prepared transaction changes

  /** Unequal sides make a delta; equal sides are dropped. */
  function Difference(before: Option<Content>, after: Option<Content>): Option<Delta> {
    if before == after then None else Some(Delta(before, after))
  }

  function OwnKeysOf(r: Option<Record>): set<Key> {
    if r.Some? then OwnKeys(r.value) else {}
  }

  function RecordDeltas(before: Option<Record>, after: Record): DeltaMap {
    map key | key in OwnKeysOf(before) + OwnKeys(after) && OwnedEntry(before, key) != OwnedAt(after, key)
      :: Delta(OwnedEntry(before, key), OwnedAt(after, key))
  }

  function ChangeDeltas(c: RecordChange, revision: nat): DeltaMap {
    RecordDeltas(c.before, c.after)[VersionKey(c.id.record, revision) := Delta(None, Some(RecordContent(c.after)))]
  }

  function AllChangeDeltas(changes: seq<RecordChange>, revision: nat): DeltaMap {
    if changes == [] then map[]
    else AllChangeDeltas(changes[..|changes| - 1], revision) + ChangeDeltas(changes[|changes| - 1], revision)
  }

  function PolicyDeltas(base: Option<NamespacePolicy>, change: Option<NamespacePolicy>, revision: nat): DeltaMap {
    if change.None? then map[]
    else
      var history := map[PolicyKey(revision) := Delta(None, PolicyEntry(change))];
      if PolicyEntry(base) == PolicyEntry(change) then history
      else history[CurrentPolicyKey := Delta(PolicyEntry(base), PolicyEntry(change))]
  }

  function EntryDeltas(p: PreparedGraph, basePolicy: Option<NamespacePolicy>): DeltaMap {
    AllChangeDeltas(p.changes, p.revision) + PolicyDeltas(basePolicy, p.policyChange, p.revision)
  }

  predicate IsInsertion(d: Delta) {
    d.before.None? && d.after.Some?
  }

  predicate IsRemoval(d: Delta) {
    d.before.Some? && d.after.None?
  }

  function Inserted(deltas: DeltaMap, slot: nat): set<Key> {
    set key | key in deltas && SlotOf(key) == slot && IsInsertion(deltas[key])
  }

  function Removed(deltas: DeltaMap, slot: nat): set<Key> {
    set key | key in deltas && SlotOf(key) == slot && IsRemoval(deltas[key])
  }

  function Adjusted(base: nat, deltas: DeltaMap, slot: nat): int {
    base + |Inserted(deltas, slot)| - |Removed(deltas, slot)|
  }

  /** The target counts, unless a count would fall below zero. */
  function TargetCounts(base: Counts, deltas: DeltaMap): Option<Counts>
    requires |base| == SLOTS
  {
    if forall slot :: 0 <= slot < SLOTS ==> Adjusted(base[slot], deltas, slot) >= 0
    then Some(seq(SLOTS, slot requires 0 <= slot < SLOTS => Adjusted(base[slot], deltas, slot)))
    else None
  }

  /** All deltas, with the metadata entry that binds the counts to the revision. */
  function FamilyDeltas(p: PreparedGraph, basePolicy: Option<NamespacePolicy>, base: Counts, target: Counts): DeltaMap {
    EntryDeltas(p, basePolicy)[MetadataKey := Delta(Some(MetadataContent(p.baseRevision, base)),
      Some(MetadataContent(p.revision, target)))]
  }

  // Lookups in the deltas

  function KeyRecord(key: Key): Option<nat> {
    match key
    case RecordKey(record) => Some(record)
    case VersionKey(record, _) => Some(record)
    case PairKey(_, _, right) => Some(right)
    case _ => None
  }

  /** What the change `c` does to `key`. */
  function ChangeDeltaAt(c: RecordChange, revision: nat, key: Key): Option<Delta> {
    if key == VersionKey(c.id.record, revision) then Some(Delta(None, Some(RecordContent(c.after))))
    else Difference(OwnedEntry(c.before, key), OwnedAt(c.after, key))
  }

  lemma ChangeDeltasLookup(c: RecordChange, revision: nat, key: Key)
    ensures Lookup(ChangeDeltas(c, revision), key) == ChangeDeltaAt(c, revision, key)
  {
    hide OwnedAt, OwnKeys;
    if OwnedAt(c.after, key).Some? { OwnKeysComplete(c.after, key); }
    if c.before.Some? && OwnedAt(c.before.value, key).Some? { OwnKeysComplete(c.before.value, key); }
  }

  ghost predicate WellFormedChange(c: RecordChange, scope: nat, revision: nat) {
    && c.id.scope == scope && c.after.id == c.id && c.after.ModifiedRevision() == revision
    && (c.before.Some? ==> c.before.value.id == c.id)
  }

  lemma ChangeIsLocal(c: RecordChange, scope: nat, revision: nat, key: Key)
    requires WellFormedChange(c, scope, revision) && ChangeDeltaAt(c, revision, key).Some?
    ensures KeyRecord(key) == Some(c.id.record) && (IsOwned(key) || key == VersionKey(c.id.record, revision))
  {
    hide OutgoingOf, IncomingOf, ProvenanceOf, ReverseOf;
  }

  ghost predicate WellFormedChanges(changes: seq<RecordChange>, scope: nat, revision: nat) {
    && (forall i :: 0 <= i < |changes| ==> WellFormedChange(changes[i], scope, revision))
    && (forall i, j :: 0 <= i < j < |changes| ==> changes[i].id != changes[j].id)
  }

  /** Distinct records never write the same key. */
  lemma {:induction false} AllChangeDeltasLookup(changes: seq<RecordChange>, scope: nat, revision: nat, key: Key)
    requires WellFormedChanges(changes, scope, revision)
    ensures forall i :: 0 <= i < |changes| && KeyRecord(key) == Some(changes[i].id.record) ==>
      Lookup(AllChangeDeltas(changes, revision), key) == ChangeDeltaAt(changes[i], revision, key)
    ensures (forall i :: 0 <= i < |changes| ==> KeyRecord(key) != Some(changes[i].id.record)) ==>
      Lookup(AllChangeDeltas(changes, revision), key) == None
    decreases |changes|
  {
    hide ChangeDeltaAt, ChangeDeltas;
    if changes != [] {
      var n := |changes| - 1;
      var front, last := changes[..n], changes[n];
      AllChangeDeltasLookup(front, scope, revision, key);
      ChangeDeltasLookup(last, revision, key);
      if ChangeDeltaAt(last, revision, key).Some? { ChangeIsLocal(last, scope, revision, key); }
      assert WellFormedChange(last, scope, revision);
      forall i | 0 <= i < n ensures front[i] == changes[i] && changes[i].id.record != last.id.record {
        assert WellFormedChange(changes[i], scope, revision);
      }
    }
  }

  // The deltas are exactly the difference between two consecutive states

  /** What an accepted commit from `s` to `t` did, change by change. */
  ghost predicate Advances(s: Snapshot, p: PreparedGraph, t: Snapshot) {
    && t.scope == s.scope && p.baseRevision == s.revision && p.revision == s.revision + 1 == t.revision
    && WellFormedChanges(p.changes, s.scope, p.revision)
    && (forall i :: 0 <= i < |p.changes| ==>
          && p.changes[i].before == Lookup(s.records, p.changes[i].id)
          && Lookup(t.records, p.changes[i].id) == Some(p.changes[i].after)
          && Lookup(t.history, p.changes[i].id) == Some(VersionsOf(s.history, p.changes[i].id) + [p.changes[i].after]))
    && (forall id :: !Touches(p.changes, id) ==>
          Lookup(t.records, id) == Lookup(s.records, id) && Lookup(t.history, id) == Lookup(s.history, id))
    && t.policy == NextPolicy(p.policyChange, s.policy)
    && t.policyHistory == (if p.policyChange.Some? then s.policyHistory[p.revision := p.policyChange.value]
       else s.policyHistory)
  }

  lemma LegalChangeIsWellFormed(s: Snapshot, c: RecordChange, t: Snapshot)
    requires WellKeyed(s.records) && AllValid(t.scope, t.records) && t.scope == s.scope
    requires c.before == Lookup(s.records, c.id) && c.id in t.records
    requires LegalChange(c.before, c.after, c.id, s.revision + 1)
    ensures WellFormedChange(c, s.scope, s.revision + 1)
  {
    hide WellShaped, ReferencesHold, NextVersion, FirstVersion;
    assert ValidIn(t.scope, c.id, t.records);
  }

  lemma {:induction false} OverlayChangesWellFormed(s: Snapshot, o: Overlay, t: Snapshot)
    requires WellKeyed(s.records) && o.base == s.records && AllLegal(s.records, o.changed, s.revision + 1)
    requires PublishedOverlay(s, o.changed, t) && AllValid(t.scope, t.records)
    ensures WellFormedChanges(ChangesOf(o), s.scope, s.revision + 1)
  {
    hide ChangesOf, LegalChange, WellFormedChange, AllValid, WellKeyed;
    ChangesOfExact(o);
    var changes := ChangesOf(o);
    forall i | 0 <= i < |changes| ensures WellFormedChange(changes[i], s.scope, s.revision + 1) {
      LegalChangeIsWellFormed(s, changes[i], t);
    }
  }

  lemma {:induction false} ChangesAreWellFormed(s: Snapshot, tx: Transaction, p: PreparedGraph)
    requires Consistent(s) && Prepare(s, tx, s.revision + 1) == Ok(p)
    ensures WellFormedChanges(p.changes, s.scope, s.revision + 1)
  {
    hide Prepare, Publish, RunOperations, Consistent, ValidateChanged, NoDangling, CorrectsAccepted, ChangesOf, Indexed,
         AllValid, AllLegal, PublishedOverlay, WellFormedChanges;
    ConsistentIsIndexed(s);
    var progress := CommitPublishesOverlay(s, tx, p);
    CommitKeepsConsistent(s, tx, p);
    ConsistentIsValid(Publish(s, p));
    OverlayChangesWellFormed(s, progress.overlay, Publish(s, p));
  }

  lemma ConsistentIsValid(s: Snapshot)
    requires Consistent(s)
    ensures AllValid(s.scope, s.records)
  {
  }

  lemma {:induction false} PublishLookups(s: Snapshot, p: PreparedGraph)
    requires Applicable(s, p.changes)
    ensures var t := Publish(s, p);
      && (forall i :: 0 <= i < |p.changes| ==>
            && Lookup(t.records, p.changes[i].id) == Some(p.changes[i].after)
            && Lookup(t.history, p.changes[i].id) == Some(VersionsOf(s.history, p.changes[i].id)
               + [p.changes[i].after]))
      && (forall id :: !Touches(p.changes, id) ==>
            Lookup(t.records, id) == Lookup(s.records, id) && Lookup(t.history, id) == Lookup(s.history, id))
  {
    hide PublishChanges;
    PublishChangesExact(s, p.changes);
  }

  lemma {:induction false} CommitAdvancesTo(s: Snapshot, tx: Transaction, p: PreparedGraph)
    requires Consistent(s) && Prepare(s, tx, s.revision + 1) == Ok(p)
    ensures Advances(s, p, Publish(s, p)) && Consistent(Publish(s, p))
  {
    hide Prepare, RunOperations, Consistent, Publish, WellFormedChanges, ChangesOf, Indexed, ValidateChanged,
         CheckPreconditions;
    CommitKeepsConsistent(s, tx, p);
    ChangesAreWellFormed(s, tx, p);
    ConsistentIsIndexed(s);
    PublishedPolicy(s, tx, p);
    PreparedIsPublishable(s, tx, p);
    PublishLookups(s, p);
    var _ := PreparedParts(s, tx, p);
  }

  lemma ConsistentIsIndexed(s: Snapshot)
    requires Consistent(s)
    ensures Indexed(s) && IndexesMatch(s) && WellKeyed(s.records) && HistoriesKept(s) && PoliciesKept(s)
  {
  }

  lemma {:induction false} OwnedDeltaExact(s: Snapshot, p: PreparedGraph, t: Snapshot, key: Key)
    requires Advances(s, p, t) && WellKeyed(s.records) && IndexesMatch(s) && WellKeyed(t.records) && IndexesMatch(t)
    requires IsOwned(key)
    ensures Lookup(AllChangeDeltas(p.changes, p.revision), key) == Difference(EntryAt(s, key), EntryAt(t, key))
  {
    hide IndexesMatch, EntryAt, AllChangeDeltas, OwnedAt, WellKeyed, VersionsOf;
    EntryIsOwned(s, key);
    EntryIsOwned(t, key);
    AllChangeDeltasLookup(p.changes, s.scope, p.revision, key);
    var id := Owner(s.scope, key);
    if Touches(p.changes, id) {
      var i :| 0 <= i < |p.changes| && p.changes[i].id == id;
      assert Lookup(t.records, id) == Some(p.changes[i].after) && p.changes[i].before == Lookup(s.records, id);
    } else {
      forall i | 0 <= i < |p.changes| ensures KeyRecord(key) != Some(p.changes[i].id.record) {
        assert WellFormedChange(p.changes[i], s.scope, p.revision) && Touches(p.changes, p.changes[i].id);
      }
    }
  }

  lemma VersionAtExtends(versions: seq<Record>, r: Record, revision: nat)
    ensures VersionAt(versions + [r], revision) == if r.ModifiedRevision() == revision then Some(r)
      else VersionAt(versions, revision)
  {
    assert (versions + [r])[..|versions|] == versions;
  }

  lemma {:induction false} NoFutureVersion(versions: seq<Record>, revision: nat)
    requires forall k :: 0 <= k < |versions| ==> versions[k].ModifiedRevision() < revision
    ensures VersionAt(versions, revision) == None
  {
    if versions != [] { NoFutureVersion(versions[..|versions| - 1], revision); }
  }

  lemma {:induction false} VersionDeltaExact(s: Snapshot, p: PreparedGraph, t: Snapshot, key: Key)
    requires Advances(s, p, t) && HistoriesKept(s) && key.VersionKey?
    ensures Lookup(AllChangeDeltas(p.changes, p.revision), key) == Difference(EntryAt(s, key), EntryAt(t, key))
  {
    hide AllChangeDeltas, VersionAt, GoodHistory, HistoriesKept;
    AllChangeDeltasLookup(p.changes, s.scope, p.revision, key);
    var id := RecordRef(s.scope, key.record);
    var versions := VersionsOf(s.history, id);
    if Touches(p.changes, id) {
      var i :| 0 <= i < |p.changes| && p.changes[i].id == id;
      assert WellFormedChange(p.changes[i], s.scope, p.revision);
      VersionAtExtends(versions, p.changes[i].after, key.revision);
      if key.revision == p.revision {
        PastVersions(s, id);
        NoFutureVersion(versions, p.revision);
      }
    } else {
      forall i | 0 <= i < |p.changes| ensures KeyRecord(key) != Some(p.changes[i].id.record) {
        assert WellFormedChange(p.changes[i], s.scope, p.revision) && Touches(p.changes, p.changes[i].id);
      }
    }
  }

  lemma PastVersions(s: Snapshot, id: RecordRef)
    requires HistoriesKept(s)
    ensures forall k :: 0 <= k < |VersionsOf(s.history, id)| ==>
      VersionsOf(s.history, id)[k].ModifiedRevision() <= s.revision
  {
    if id in s.history { assert GoodHistory(s.scope, id, s.history[id], s.revision); }
  }

  lemma PolicyDeltaExact(s: Snapshot, p: PreparedGraph, t: Snapshot, key: Key)
    requires Advances(s, p, t) && PoliciesKept(s) && (key.PolicyKey? || key.CurrentPolicyKey?)
    ensures Lookup(PolicyDeltas(s.policy, p.policyChange, p.revision), key)
      == Difference(EntryAt(s, key), EntryAt(t, key))
  {
    hide WellFormedChanges, PolicyAt, VersionsRiseWithRevisions;
  }

  /** Every key but the metadata key has a delta exactly when its entry changes, with both sides exact. */
  lemma {:induction false} EntryDeltasExact(s: Snapshot, p: PreparedGraph, t: Snapshot, key: Key)
    requires Advances(s, p, t) && Consistent(s) && Consistent(t) && key != MetadataKey
    ensures Lookup(EntryDeltas(p, s.policy), key) == Difference(EntryAt(s, key), EntryAt(t, key))
  {
    hide Consistent, EntryAt, AllChangeDeltas, PolicyDeltas, Difference, Advances;
    ConsistentIsIndexed(s);
    ConsistentIsIndexed(t);
    DeltasAreSeparate(s, p, t, key);
    if IsOwned(key) { OwnedDeltaExact(s, p, t, key); }
    else if key.VersionKey? { VersionDeltaExact(s, p, t, key); }
    else if key.PairKey? { StrayPair(s, p, t, key); }
    else { PolicyDeltaExact(s, p, t, key); }
  }

  /** Pair keys are never used outside the four secondary families. */
  lemma StrayPair(s: Snapshot, p: PreparedGraph, t: Snapshot, key: Key)
    requires Advances(s, p, t) && key.PairKey? && !IsOwned(key)
    ensures Lookup(AllChangeDeltas(p.changes, p.revision), key) == Difference(EntryAt(s, key), EntryAt(t, key))
  {
    hide AllChangeDeltas;
    AllChangeDeltasLookup(p.changes, s.scope, p.revision, key);
  }

  lemma DeltasAreSeparate(s: Snapshot, p: PreparedGraph, t: Snapshot, key: Key)
    requires Advances(s, p, t)
    ensures KeyRecord(key).Some? ==> key !in PolicyDeltas(s.policy, p.policyChange, p.revision)
    ensures KeyRecord(key).None? ==> key !in AllChangeDeltas(p.changes, p.revision)
  {
    if KeyRecord(key).None? { AllChangeDeltasLookup(p.changes, s.scope, p.revision, key); }
  }

  // Counts

  ghost predicate DiffersBy(from: Entries, to: Entries, deltas: DeltaMap, slot: nat) {
    forall key :: SlotOf(key) == slot ==> Lookup(deltas, key) == Difference(Lookup(from, key), Lookup(to, key))
  }

  lemma RemovedIsLost(from: Entries, to: Entries, deltas: DeltaMap, slot: nat)
    requires DiffersBy(from, to, deltas, slot)
    ensures Removed(deltas, slot) == KeysIn(from, slot) - KeysIn(to, slot)
  {
    forall key ensures key in Removed(deltas, slot) <==> key in KeysIn(from, slot) - KeysIn(to, slot) {
      if SlotOf(key) == slot { assert Lookup(deltas, key) == Difference(Lookup(from, key), Lookup(to, key)); }
    }
  }

  lemma InsertedIsGained(from: Entries, to: Entries, deltas: DeltaMap, slot: nat)
    requires DiffersBy(from, to, deltas, slot)
    ensures Inserted(deltas, slot) == KeysIn(to, slot) - KeysIn(from, slot)
  {
    forall key ensures key in Inserted(deltas, slot) <==> key in KeysIn(to, slot) - KeysIn(from, slot) {
      if SlotOf(key) == slot { assert Lookup(deltas, key) == Difference(Lookup(from, key), Lookup(to, key)); }
    }
  }

  lemma DifferenceSize<T>(old_: set<T>, new_: set<T>, inserted: set<T>, removed: set<T>)
    requires removed == old_ - new_ && inserted == new_ - old_
    ensures |new_| == |old_| + |inserted| - |removed|
  {
    assert new_ == (old_ - removed) + inserted;
    assert |old_ - removed| == |old_| - |removed|;
  }

  lemma {:induction false} SlotChange(from: Entries, to: Entries, deltas: DeltaMap, slot: nat)
    requires DiffersBy(from, to, deltas, slot)
    ensures |KeysIn(to, slot)| == Adjusted(|KeysIn(from, slot)|, deltas, slot)
  {
    hide DiffersBy, Inserted, Removed, KeysIn;
    RemovedIsLost(from, to, deltas, slot);
    InsertedIsGained(from, to, deltas, slot);
    DifferenceSize(KeysIn(from, slot), KeysIn(to, slot), Inserted(deltas, slot), Removed(deltas, slot));
  }

  lemma {:induction false} SlotAdvances(s: Snapshot, p: PreparedGraph, t: Snapshot, slot: nat)
    requires Advances(s, p, t) && Consistent(s) && Consistent(t) && slot < SLOTS
    ensures |KeysIn(EntriesOf(t), slot)| == Adjusted(|KeysIn(EntriesOf(s), slot)|, EntryDeltas(p, s.policy), slot)
  {
    hide Advances, Consistent, EntriesOf, EntryAt, EntryDeltas, Difference, Adjusted, KeysIn;
    forall key | SlotOf(key) == slot
      ensures Lookup(EntryDeltas(p, s.policy), key) == Difference(Lookup(EntriesOf(s), key), Lookup(EntriesOf(t), key))
    {
      EntriesLookup(s, key);
      EntriesLookup(t, key);
      EntryDeltasExact(s, p, t, key);
    }
    SlotChange(EntriesOf(s), EntriesOf(t), EntryDeltas(p, s.policy), slot);
  }

  /** The counts computed from the deltas are the published state's own metadata counts. */
  lemma {:induction false} TargetCountsExact(s: Snapshot, p: PreparedGraph, t: Snapshot)
    requires Advances(s, p, t) && Consistent(s) && Consistent(t)
    ensures TargetCounts(MetadataCounts(s), EntryDeltas(p, s.policy)) == Some(MetadataCounts(t))
  {
    hide Advances, Consistent, EntriesOf, EntryDeltas, Adjusted, KeysIn, MetadataCounts;
    ConsistentIsIndexed(s);
    ConsistentIsIndexed(t);
    CountsAreSizes(s);
    CountsAreSizes(t);
    var base, deltas := MetadataCounts(s), EntryDeltas(p, s.policy);
    forall slot | 0 <= slot < SLOTS ensures Adjusted(base[slot], deltas, slot) == MetadataCounts(t)[slot] {
      SizesAt(EntriesOf(s), slot);
      SizesAt(EntriesOf(t), slot);
      SlotAdvances(s, p, t, slot);
    }
    assert TargetCounts(base, deltas).Some?;
    assert TargetCounts(base, deltas).value == MetadataCounts(t);
  }

  lemma SizesAt(entries: Entries, slot: nat)
    requires slot < SLOTS
    ensures SizesOf(entries)[slot] == |KeysIn(entries, slot)|
  {
  }

  /** Delta exactness: applied to the base families, the deltas pass every
      before-check and give the published families. */
  lemma {:induction false} DeltaExact(s: Snapshot, p: PreparedGraph, t: Snapshot)
    requires Advances(s, p, t) && Consistent(s) && Consistent(t)
    ensures var deltas := FamilyDeltas(p, s.policy, MetadataCounts(s), MetadataCounts(t));
      DeltasApply(EntriesOf(s), deltas) && ApplyDeltas(EntriesOf(s), deltas) == EntriesOf(t)
  {
    hide Consistent, EntriesOf, EntryDeltas, MetadataCounts, ApplyDeltas, EntryAfter, EntryAt, WellFormedChanges;
    var deltas := FamilyDeltas(p, s.policy, MetadataCounts(s), MetadataCounts(t));
    forall key
      ensures key in deltas ==> deltas[key].before == Lookup(EntriesOf(s), key)
      ensures EntryAfter(EntriesOf(s), deltas, key) == Lookup(EntriesOf(t), key)
    {
      DeltaExactAt(s, p, t, key);
    }
    forall key ensures Lookup(ApplyDeltas(EntriesOf(s), deltas), key) == Lookup(EntriesOf(t), key) {
      ApplyLookup(EntriesOf(s), deltas, key);
    }
    SameEntries(ApplyDeltas(EntriesOf(s), deltas), EntriesOf(t));
  }

  lemma SameEntries(a: Entries, b: Entries)
    requires forall key :: Lookup(a, key) == Lookup(b, key)
    ensures a == b
  {
    forall key ensures key in a <==> key in b { assert Lookup(a, key) == Lookup(b, key); }
    forall key | key in a ensures a[key] == b[key] { assert Lookup(a, key) == Lookup(b, key); }
  }

  lemma {:induction false} DeltaExactAt(s: Snapshot, p: PreparedGraph, t: Snapshot, key: Key)
    requires Advances(s, p, t) && Consistent(s) && Consistent(t)
    ensures var deltas := FamilyDeltas(p, s.policy, MetadataCounts(s), MetadataCounts(t));
      && (key in deltas ==> deltas[key].before == Lookup(EntriesOf(s), key))
      && EntryAfter(EntriesOf(s), deltas, key) == Lookup(EntriesOf(t), key)
  {
    hide Consistent, EntriesOf, EntryDeltas, MetadataCounts, WellFormedChanges;
    EntriesLookup(s, key);
    EntriesLookup(t, key);
    if key != MetadataKey {
      hide EntryAt;
      EntryDeltasExact(s, p, t, key);
    }
  }
}
