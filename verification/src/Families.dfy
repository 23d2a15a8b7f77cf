/** The eight sorted key/value families that hold a graph state on disk
    (crates/uste-graph/src/state_disk.rs:66-79, 3395-3439, 5143-5325).
    All families share one map here: a key says which family it belongs to. */
module Families {
  import opened Base
  import opened Records
  import opened Index
  import opened References
  import opened Reducer
  import opened Publication
  import opened Checkpoint

  datatype Family = Metadata | Current | History | Outgoing | Incoming | Provenance | Reverse | Policy

  /** Keys carry record identities without their scope, which every entry of a root shares. */
  datatype Key =
    | MetadataKey
    | RecordKey(record: nat)
    | VersionKey(record: nat, revision: nat)
    | PairKey(family: Family, left: nat, right: nat)
    | CurrentPolicyKey
    | PolicyKey(revision: nat)

  function FamilyOf(key: Key): Family {
    match key
    case MetadataKey => Metadata
    case RecordKey(_) => Current
    case VersionKey(_, _) => History
    case PairKey(family, _, _) => family
    case CurrentPolicyKey => Policy
    case PolicyKey(_) => Policy
  }

  /** Eight entry counts: current, versions, outgoing, incoming, provenance, reverse, policy history, current policy. */
  type Counts = seq<nat>

  const SLOTS := 8

  /** The count a key contributes to; metadata is not counted. */
  function SlotOf(key: Key): nat {
    match key
    case RecordKey(_) => 0
    case VersionKey(_, _) => 1
    case PairKey(Outgoing, _, _) => 2
    case PairKey(Incoming, _, _) => 3
    case PairKey(Provenance, _, _) => 4
    case PairKey(Reverse, _, _) => 5
    case PolicyKey(_) => 6
    case CurrentPolicyKey => 7
    case _ => SLOTS
  }

  function KeysIn(entries: Entries, slot: nat): set<Key> {
    set key | key in entries && SlotOf(key) == slot
  }

  datatype Content =
    | MetadataContent(revision: nat, counts: Counts)
    | RecordContent(value: Record)
    | NeighborContent(record: nat)
    | NoContent
    | ReverseContent(reference: ReverseReference)
    | PolicyContent(policy: NamespacePolicy)

  type Entries = map<Key, Content>

  // The entries of a snapshot, read off its own maps

  function TotalOwners<V>(index: Index<V>, keys: seq<RecordRef>): nat
    requires forall key :: key in keys ==> key in index
  {
    if keys == [] then 0 else |index[keys[0]]| + TotalOwners(index, keys[1..])
  }

  /** `metadata_counts`. */
  ghost function MetadataCounts(s: Snapshot): Counts {
    [|s.records|, TotalVersions(s.history, Sorted(s.history.Keys)),
     IndexSize(s.outgoing), IndexSize(s.incoming), IndexSize(s.provenance), IndexSize(s.reverse),
     |s.policyHistory|, if s.policy.Some? then 1 else 0]
  }

  ghost function IndexSize<V>(index: Index<V>): nat {
    TotalOwners(index, Sorted(index.Keys))
  }

  /** The other end of a relationship, seen from `entity`. */
  function Neighbor(records: map<RecordRef, Record>, entity: RecordRef, relationship: RecordRef): Option<RecordRef> {
    if !(relationship in records && records[relationship].IsClaim(RelationshipKind)) then None
    else
      var body := records[relationship].body;
      if body.from == entity then Some(body.to) else if body.to == entity then Some(body.from) else None
  }

  function NeighborEntry(records: map<RecordRef, Record>, index: Index<()>, entity: RecordRef,
      relationship: RecordRef): Option<Content> {
    if Has(index, entity, relationship) && Neighbor(records, entity, relationship).Some?
    then Some(NeighborContent(Neighbor(records, entity, relationship).value.record))
    else None
  }

  /** The version recorded at exactly `revision`. */
  function VersionAt(versions: seq<Record>, revision: nat): Option<Record> {
    if versions == [] then None
    else if versions[|versions| - 1].ModifiedRevision() == revision then Some(versions[|versions| - 1])
    else VersionAt(versions[..|versions| - 1], revision)
  }

  function RecordEntry(r: Option<Record>): Option<Content> {
    if r.Some? then Some(RecordContent(r.value)) else None
  }

  function PolicyEntry(p: Option<NamespacePolicy>): Option<Content> {
    if p.Some? then Some(PolicyContent(p.value)) else None
  }

  /** What `family_entries` emits under `key`. */
  ghost function EntryAt(s: Snapshot, key: Key): Option<Content> {
    match key
    case MetadataKey => Some(MetadataContent(s.revision, MetadataCounts(s)))
    case RecordKey(record) => RecordEntry(Lookup(s.records, RecordRef(s.scope, record)))
    case VersionKey(record, revision) =>
      RecordEntry(VersionAt(VersionsOf(s.history, RecordRef(s.scope, record)), revision))
    case PairKey(family, left, right) =>
      var l, r := RecordRef(s.scope, left), RecordRef(s.scope, right);
      (match family
       case Outgoing => NeighborEntry(s.records, s.outgoing, l, r)
       case Incoming => NeighborEntry(s.records, s.incoming, l, r)
       case Provenance => if Has(s.provenance, l, r) then Some(NoContent) else None
       case Reverse => if Has(s.reverse, l, r) then Some(ReverseContent(s.reverse[l][r])) else None
       case _ => None)
    case CurrentPolicyKey => PolicyEntry(s.policy)
    case PolicyKey(revision) => PolicyEntry(Lookup(s.policyHistory, revision))
  }

  function PairKeys<V>(family: Family, index: Index<V>): set<Key> {
    set key, owner | key in index && owner in index[key] :: PairKey(family, key.record, owner.record)
  }

  function KeysOf(s: Snapshot): set<Key> {
    {MetadataKey, CurrentPolicyKey}
    + (set id | id in s.records :: RecordKey(id.record))
    + (set id, k | id in s.history && 0 <= k < |s.history[id]| ::
      VersionKey(id.record, s.history[id][k].ModifiedRevision()))
    + PairKeys(Outgoing, s.outgoing) + PairKeys(Incoming, s.incoming) + PairKeys(Provenance, s.provenance)
      + PairKeys(Reverse, s.reverse)
    + (set revision | revision in s.policyHistory :: PolicyKey(revision))
  }

  ghost function EntriesOf(s: Snapshot): Entries {
    map key | key in KeysOf(s) && EntryAt(s, key).Some? :: EntryAt(s, key).value
  }

  lemma {:induction false} VersionAtIsListed(versions: seq<Record>, revision: nat)
    requires VersionAt(versions, revision).Some?
    ensures exists k ::
      0 <= k < |versions| && versions[k].ModifiedRevision() == revision
      && versions[k] == VersionAt(versions, revision).value
  {
    if versions[|versions| - 1].ModifiedRevision() != revision {
      VersionAtIsListed(versions[..|versions| - 1], revision);
      var k :| 0 <= k < |versions| - 1 && versions[..|versions| - 1][k].ModifiedRevision() == revision
        && versions[..|versions| - 1][k] == VersionAt(versions[..|versions| - 1], revision).value;
      assert versions[k] == versions[..|versions| - 1][k];
    }
  }

  lemma PairIsKey<V>(family: Family, index: Index<V>, l: RecordRef, r: RecordRef)
    requires Has(index, l, r)
    ensures PairKey(family, l.record, r.record) in PairKeys(family, index)
  {
  }

  /** The families hold exactly the emitted entries. */
  lemma {:induction false} EntriesLookup(s: Snapshot, key: Key)
    ensures Lookup(EntriesOf(s), key) == EntryAt(s, key)
  {
    hide PairKeys, MetadataCounts;
    if EntryAt(s, key).Some? {
      assert key in KeysOf(s) by {
        match key
        case VersionKey(record, revision) =>
          var id := RecordRef(s.scope, record);
          VersionAtIsListed(VersionsOf(s.history, id), revision);
          var k :| 0 <= k < |s.history[id]| && s.history[id][k].ModifiedRevision() == revision;
        case PairKey(family, left, right) =>
          var l, r := RecordRef(s.scope, left), RecordRef(s.scope, right);
          match family {
            case Outgoing => PairIsKey(family, s.outgoing, l, r);
            case Incoming => PairIsKey(family, s.incoming, l, r);
            case Provenance => PairIsKey(family, s.provenance, l, r);
            case Reverse => PairIsKey(family, s.reverse, l, r);
            case _ =>
          }
        case RecordKey(record) => assert RecordRef(s.scope, record) in s.records;
        case _ =>
      }
    }
  }

  // The entries one record owns

  /** `record_secondary_entries`, with the record's own current entry. */
  function OwnedAt(r: Record, key: Key): Option<Content> {
    match key
    case RecordKey(record) => if record == r.id.record then Some(RecordContent(r)) else None
    case PairKey(family, left, right) =>
      if right != r.id.record then None
      else
        var l := RecordRef(r.id.scope, left);
        (match family
         case Outgoing => if l in OutgoingOf(r) then Some(NeighborContent(r.body.to.record)) else None
         case Incoming => if l in IncomingOf(r) then Some(NeighborContent(r.body.from.record)) else None
         case Provenance => if l in ProvenanceOf(r) then Some(NoContent) else None
         case Reverse => if l in ReverseOf(r) then Some(ReverseContent(ReverseOf(r)[l])) else None
         case _ => None)
    case _ => None
  }

  function Owner(scope: nat, key: Key): RecordRef {
    match key
    case RecordKey(record) => RecordRef(scope, record)
    case PairKey(_, _, right) => RecordRef(scope, right)
    case _ => RecordRef(scope, 0)
  }

  function OwnedEntry(r: Option<Record>, key: Key): Option<Content> {
    if r.Some? then OwnedAt(r.value, key) else None
  }

  predicate IsOwned(key: Key) {
    key.RecordKey? || (key.PairKey? && key.family in {Outgoing, Incoming, Provenance, Reverse})
  }

  lemma {:induction false} OutgoingIsOwned(s: Snapshot, l: RecordRef, r: RecordRef)
    requires WellKeyed(s.records) && Matches(s.outgoing, s.records, OutgoingOf) && l.scope == s.scope
      && r.scope == s.scope
    ensures NeighborEntry(s.records, s.outgoing, l, r)
      == OwnedEntry(Lookup(s.records, r), PairKey(Outgoing, l.record, r.record))
  {
    assert Has(s.outgoing, l, r) <==> r in s.records && l in OutgoingOf(s.records[r]);
  }

  lemma {:induction false} IncomingIsOwned(s: Snapshot, l: RecordRef, r: RecordRef)
    requires WellKeyed(s.records) && Matches(s.incoming, s.records, IncomingOf) && l.scope == s.scope
      && r.scope == s.scope
    ensures NeighborEntry(s.records, s.incoming, l, r)
      == OwnedEntry(Lookup(s.records, r), PairKey(Incoming, l.record, r.record))
  {
    assert Has(s.incoming, l, r) <==> r in s.records && l in IncomingOf(s.records[r]);
  }

  /** In a consistent state every current and secondary entry is the one its owner's current version contributes. */
  lemma {:induction false} EntryIsOwned(s: Snapshot, key: Key)
    requires WellKeyed(s.records) && IndexesMatch(s) && IsOwned(key)
    ensures EntryAt(s, key) == OwnedEntry(Lookup(s.records, Owner(s.scope, key)), key)
  {
    hide Matches, OutgoingOf, IncomingOf, ProvenanceOf, ReverseOf, NeighborEntry, OwnedEntry;
    if key.PairKey? {
      var l, r := RecordRef(s.scope, key.left), RecordRef(s.scope, key.right);
      match key.family {
        case Outgoing => OutgoingIsOwned(s, l, r);
        case Incoming => IncomingIsOwned(s, l, r);
        case Provenance => ProvenanceIsOwned(s, l, r);
        case Reverse => ReverseIsOwned(s, l, r);
      }
    } else {
      CurrentIsOwned(s, RecordRef(s.scope, key.record));
    }
  }

  lemma ProvenanceIsOwned(s: Snapshot, l: RecordRef, r: RecordRef)
    requires WellKeyed(s.records) && Matches(s.provenance, s.records, ProvenanceOf) && l.scope == s.scope
      && r.scope == s.scope
    ensures (if Has(s.provenance, l, r) then Some(NoContent) else None)
      == OwnedEntry(Lookup(s.records, r), PairKey(Provenance, l.record, r.record))
  {
    hide ProvenanceOf;
    assert Has(s.provenance, l, r) <==> r in s.records && l in ProvenanceOf(s.records[r]);
  }

  lemma ReverseIsOwned(s: Snapshot, l: RecordRef, r: RecordRef)
    requires WellKeyed(s.records) && Matches(s.reverse, s.records, ReverseOf) && l.scope == s.scope
      && r.scope == s.scope
    ensures (if Has(s.reverse, l, r) then Some(ReverseContent(s.reverse[l][r])) else None)
      == OwnedEntry(Lookup(s.records, r), PairKey(Reverse, l.record, r.record))
  {
    hide ReverseOf;
    assert Has(s.reverse, l, r) <==> r in s.records && l in ReverseOf(s.records[r]);
  }

  lemma CurrentIsOwned(s: Snapshot, id: RecordRef)
    requires WellKeyed(s.records)
    ensures RecordEntry(Lookup(s.records, id)) == OwnedEntry(Lookup(s.records, id), RecordKey(id.record))
  {
  }

  /** All keys one record owns. */
  function OwnKeys(r: Record): set<Key> {
    {RecordKey(r.id.record)}
    + (set l | l in OutgoingOf(r) :: PairKey(Outgoing, l.record, r.id.record))
    + (set l | l in IncomingOf(r) :: PairKey(Incoming, l.record, r.id.record))
    + (set l | l in ProvenanceOf(r) :: PairKey(Provenance, l.record, r.id.record))
    + (set l | l in ReverseOf(r) :: PairKey(Reverse, l.record, r.id.record))
  }

  lemma OwnKeysComplete(r: Record, key: Key)
    requires OwnedAt(r, key).Some?
    ensures key in OwnKeys(r) && IsOwned(key)
  {
    hide OutgoingOf, IncomingOf, ProvenanceOf, ReverseOf;
  }
}
