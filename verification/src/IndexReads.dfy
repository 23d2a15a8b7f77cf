/** The same reads served from the index families of a disk root
    (crates/uste-graph/src/disk.rs:393-539, 646-807). */
module IndexReads {
  import opened Base
  import opened Records
  import opened Index
  import opened Reducer
  import opened Invariant
  import opened Families
  import opened DiskLoad
  import opened Reads
  import OverlayObject

  datatype ReadFault = Graph(reason: GraphError) | StorageLimit | DamagedIndex | WrongRoot

  function InDiskTerms<T>(answer: Result<T, GraphError>): Result<T, ReadFault> {
    match answer
    case Ok(value) => Ok(value)
    case Err(reason) => Err(Graph(reason))
  }

  /** `disk_record`. */
  function DiskRecord(root: Root, id: RecordRef): Result<Option<Record>, ReadFault> {
    if id.scope != root.scope then Err(WrongRoot)
    else
      match Lookup<Key, Content>(root.entries, RecordKey(id.record))
      case None => Ok(None)
      case Some(RecordContent(r)) => if r.id != id then Err(DamagedIndex) else Ok(Some(r))
      case _ => Err(DamagedIndex)
  }

  lemma {:induction false} DiskRecordIsCurrent(root: Root, s: Snapshot, id: RecordRef)
    requires Represents(root, s) && id.scope == s.scope
    ensures DiskRecord(root, id) == Ok(Lookup(s.records, id))
  {
    hide Consistent, EntriesOf;
    RepresentedEntry(root, s, RecordKey(id.record));
    if id in s.records { KeyedRecord(s, id); }
  }

  // Prefix scans of the three secondary families

  /** The right-hand records found under one record's prefix of a pair family. */
  function Scanned(root: Root, family: Family, record: nat): set<RecordRef> {
    set key | key in root.entries && key.PairKey? && key.family == family && key.left == record ::
      RecordRef(root.scope, key.right)
  }

  lemma ScannedIsKeyed(root: Root, family: Family, record: nat, id: RecordRef)
    ensures id in Scanned(root, family, record)
      <==> id.scope == root.scope && PairKey(family, record, id.record) in root.entries
  {
    var key := PairKey(family, record, id.record);
    if key in root.entries && id.scope == root.scope { assert RecordRef(root.scope, key.right) == id; }
  }

  function LinkFamily(direction: Direction): Family {
    if direction == Outward then Outgoing else Incoming
  }

  lemma {:induction false} LinkEntry(root: Root, s: Snapshot, entity: RecordRef, direction: Direction, id: RecordRef)
    requires Represents(root, s) && entity.scope == s.scope == id.scope && direction != Either
    ensures Lookup(root.entries, PairKey(LinkFamily(direction), entity.record, id.record))
         == if id in Linking(s.records, entity, direction)
           then Some(NeighborContent(OtherEnd(s.records[id], entity).record)) else None
  {
    hide Represents, Consistent, EntriesOf;
    RepresentsConsistent(root, s);
    BucketsAreLinks(s, entity);
    RepresentedEntry(root, s, PairKey(LinkFamily(direction), entity.record, id.record));
    assert Has(s.outgoing, entity, id) <==> id in Bucket(s.outgoing, entity);
    assert Has(s.incoming, entity, id) <==> id in Bucket(s.incoming, entity);
  }

  lemma {:induction false} ScannedLinks(root: Root, s: Snapshot, entity: RecordRef, direction: Direction)
    requires Represents(root, s) && entity.scope == s.scope && direction != Either
    ensures Scanned(root, LinkFamily(direction), entity.record) == Linking(s.records, entity, direction)
  {
    hide Represents, Scanned, Linking, EntriesOf;
    RepresentsConsistent(root, s);
    var scanned := Scanned(root, LinkFamily(direction), entity.record);
    forall id ensures id in scanned <==> id in Linking(s.records, entity, direction) {
      ScannedIsKeyed(root, LinkFamily(direction), entity.record, id);
      if id in Linking(s.records, entity, direction) { OtherEndIsEntity(s, entity, direction, id); }
      if id.scope == s.scope { LinkEntry(root, s, entity, direction, id); }
    }
  }

  lemma {:induction false} ScannedCiting(root: Root, s: Snapshot, evidence: RecordRef)
    requires Represents(root, s) && evidence.scope == s.scope
    ensures Scanned(root, Provenance, evidence.record) == Citing(s.records, evidence)
    ensures forall id :: id in Citing(s.records, evidence) ==>
      Lookup(root.entries, PairKey(Provenance, evidence.record, id.record)) == Some(NoContent)
  {
    hide Represents, Scanned, Consistent, EntriesOf;
    RepresentsConsistent(root, s);
    BucketIsCiting(s, evidence);
    forall id
      ensures id in Scanned(root, Provenance, evidence.record) <==> id in Citing(s.records, evidence)
      ensures id in Citing(s.records, evidence) ==>
        Lookup(root.entries, PairKey(Provenance, evidence.record, id.record)) == Some(NoContent)
    {
      ScannedIsKeyed(root, Provenance, evidence.record, id);
      RepresentedEntry(root, s, PairKey(Provenance, evidence.record, id.record));
      if id in Citing(s.records, evidence) { KeyedRecord(s, id); }
      assert Has(s.provenance, evidence, id) <==> id in Bucket(s.provenance, evidence);
    }
  }

  // Candidate pairs

  type Pair = (RecordRef, RecordRef)

  predicate PairLess(a: Pair, b: Pair) {
    Less(a.0, b.0) || (a.0 == b.0 && Less(a.1, b.1))
  }

  lemma PairsAreOrdered()
    ensures StrictOrder(PairLess)
  {
  }

  ghost function PairOf(records: map<RecordRef, Record>, entity: RecordRef, id: RecordRef): Pair {
    (id, if id in records && records[id].IsClaim(RelationshipKind) then OtherEnd(records[id], entity) else id)
  }

  ghost function Pairs(records: map<RecordRef, Record>, entity: RecordRef, ids: set<RecordRef>): set<Pair> {
    set id | id in ids :: PairOf(records, entity, id)
  }

  ghost function PairList(records: map<RecordRef, Record>, entity: RecordRef, ids: seq<RecordRef>): seq<Pair> {
    seq(|ids|, i requires 0 <= i < |ids| => PairOf(records, entity, ids[i]))
  }

  /** Sorting the pairs sorts the relationships: each relationship has one other end. */
  lemma {:induction false} SortedPairs(records: map<RecordRef, Record>, entity: RecordRef, ids: set<RecordRef>,
      found: seq<Pair>)
    requires Enumerates(found, Pairs(records, entity, ids), PairLess)
    ensures found == PairList(records, entity, Sorted(ids))
  {
    hide OtherEnd, PairOf;
    PairsAreOrdered();
    var sorted := Sorted(ids);
    var list := PairList(records, entity, sorted);
    forall i, j | 0 <= i < j < |list| ensures PairLess(list[i], list[j]) {
      PairFirst(records, entity, sorted[i]);
      PairFirst(records, entity, sorted[j]);
    }
    forall p ensures p in list <==> p in Pairs(records, entity, ids) {
      if p in Pairs(records, entity, ids) {
        var id :| id in ids && p == PairOf(records, entity, id);
        assert id in sorted;
        var i :| 0 <= i < |sorted| && sorted[i] == id;
        assert list[i] == p;
      }
      if p in list {
        var i :| 0 <= i < |list| && list[i] == p;
        assert sorted[i] in sorted;
      }
    }
    EnumerationUnique(found, list, Pairs(records, entity, ids), PairLess);
  }

  lemma PairFirst(records: map<RecordRef, Record>, entity: RecordRef, id: RecordRef)
    ensures PairOf(records, entity, id).0 == id
  {
  }

  lemma {:induction false} PairsBounded(records: map<RecordRef, Record>, entity: RecordRef, ids: set<RecordRef>)
    ensures |Pairs(records, entity, ids)| <= |ids|
    decreases |ids|
  {
    hide PairOf;
    if ids == {} {
      assert Pairs(records, entity, ids) == {};
    } else {
      var id :| id in ids;
      PairsBounded(records, entity, ids - {id});
      assert Pairs(records, entity, ids) == Pairs(records, entity, ids - {id}) + {PairOf(records, entity, id)};
    }
  }

  lemma {:induction false} PairsStep(records: map<RecordRef, Record>, entity: RecordRef, a: set<RecordRef>,
      b: set<RecordRef>)
    ensures Pairs(records, entity, a + b) == Pairs(records, entity, a) + Pairs(records, entity, b)
  {
    hide PairOf;
  }

  lemma PairsSingle(records: map<RecordRef, Record>, entity: RecordRef, id: RecordRef)
    ensures Pairs(records, entity, {id}) == {PairOf(records, entity, id)}
  {
    hide PairOf;
  }

  /** The relationship and neighbour one link entry stands for. */
  function LinkPair(root: Root, entity: RecordRef, direction: Direction, id: RecordRef): Result<Pair, ReadFault> {
    match Lookup<Key, Content>(root.entries, PairKey(LinkFamily(direction), entity.record, id.record))
    case Some(NeighborContent(neighbor)) => Ok((id, RecordRef(root.scope, neighbor)))
    case _ => Err(DamagedIndex)
  }

  lemma {:induction false} LinkPairIsTrue(root: Root, s: Snapshot, entity: RecordRef, direction: Direction,
      id: RecordRef)
    requires Represents(root, s) && entity.scope == s.scope && direction != Either
      && id in Linking(s.records, entity, direction)
    ensures LinkPair(root, entity, direction, id) == Ok(PairOf(s.records, entity, id))
  {
    hide Represents, Consistent, EntriesOf;
    RepresentsConsistent(root, s);
    OtherEndIsEntity(s, entity, direction, id);
    LinkEntry(root, s, entity, direction, id);
  }

  ghost function Front(found: seq<RecordRef>, k: nat): set<RecordRef>
    requires k <= |found|
  {
    set x | x in found[..k]
  }

  lemma FrontStep(found: seq<RecordRef>, k: nat)
    requires k < |found|
    ensures Front(found, k + 1) == Front(found, k) + {found[k]}
    ensures |Front(found, k + 1)| <= |Front(found, k)| + 1
  {
    assert found[..k + 1] == found[..k] + [found[k]];
    assert Front(found, k + 1) == Front(found, k) + {found[k]};
  }

  /** Before the last link is merged, `combined` is still below the number of links that fit. */
  lemma {:induction false} PairsFit(records: map<RecordRef, Record>, entity: RecordRef, seen: set<RecordRef>,
      front: set<RecordRef>, k: nat, maximum: nat)
    requires |front| <= k && |seen| + k < maximum
    ensures |Pairs(records, entity, seen + front)| < maximum
  {
    hide *;
    PairsBounded(records, entity, seen + front);
    UnionBounded(seen, front);
  }

  lemma UnionBounded(a: set<RecordRef>, b: set<RecordRef>)
    ensures |a + b| <= |a| + |b|
  {
    assert a + b == a + (b - a);
    assert b == (b - a) + (a * b);
  }

  /** One family of `disk_adjacent_ids`: the whole scan is charged to the budget, then merged into `combined`. */
  method ScanLinks(root: Root, entity: RecordRef, direction: Direction, combined: set<Pair>, maximum: nat,
      remaining: nat,
                   ghost s: Snapshot, ghost seen: set<RecordRef>)
    returns (r: Result<(set<Pair>, nat), ReadFault>)
    requires Represents(root, s) && entity.scope == s.scope && direction != Either
    requires combined == Pairs(s.records, entity, seen) && |seen| + remaining <= maximum
    ensures var links := Linking(s.records, entity, direction);
      r == if |links| > remaining then Err(StorageLimit)
        else Ok((Pairs(s.records, entity, seen + links), remaining - |links|))
  {
    hide Represents, Pairs, Linking, Scanned, LinkPair, PairOf, Increasing, Front;
    ScannedLinks(root, s, entity, direction);
    var ids := Scanned(root, LinkFamily(direction), entity.record);
    if |ids| > remaining { return Err(StorageLimit); }
    var found := OverlayObject.Ascending(ids);
    var merged := combined;
    NoFront(seen, found);
    for k := 0 to |found|
      invariant merged == Pairs(s.records, entity, seen + Front(found, k)) && |Front(found, k)| <= k
    {
      var id := found[k];
      assert id in found;
      LinkPairIsTrue(root, s, entity, direction, id);
      var p := LinkPair(root, entity, direction, id);
      if p.Err? { return Err(DamagedIndex); }
      PairsFit(s.records, entity, seen, Front(found, k), k, maximum);
      if p.value !in merged && |merged| == maximum { return Err(StorageLimit); }
      merged := merged + {p.value};
      MergeStep(s.records, entity, seen, found, k);
    }
    WholeFront(found, ids);
    r := Ok((merged, remaining - |ids|));
  }

  lemma NoFront(seen: set<RecordRef>, found: seq<RecordRef>)
    ensures seen + Front(found, 0) == seen && |Front(found, 0)| == 0
  {
    assert Front(found, 0) == {};
  }

  lemma {:induction false} MergeStep(records: map<RecordRef, Record>, entity: RecordRef, seen: set<RecordRef>,
      found: seq<RecordRef>, k: nat)
    requires k < |found|
    ensures Pairs(records, entity, seen + Front(found, k)) + {PairOf(records, entity, found[k])}
      == Pairs(records, entity, seen + Front(found, k + 1))
    ensures |Front(found, k + 1)| <= |Front(found, k)| + 1
  {
    hide *;
    FrontStep(found, k);
    PairsStep(records, entity, seen + Front(found, k), {found[k]});
    PairsSingle(records, entity, found[k]);
    assert seen + Front(found, k) + {found[k]} == seen + Front(found, k + 1);
  }

  lemma WholeFront(found: seq<RecordRef>, ids: set<RecordRef>)
    requires found == Sorted(ids)
    ensures Front(found, |found|) == ids
  {
    assert found[..|found|] == found;
  }

  /** `disk_adjacent_ids` over the aggregate visit budget. */
  method DiskAdjacentIds(root: Root, entity: RecordRef, direction: Direction, ghost s: Snapshot)
      returns (r: Result<seq<Pair>, ReadFault>)
    requires Represents(root, s)
    ensures r == if entity.scope != s.scope then Err(WrongRoot)
                 else if !WithinVisits(s, entity, direction) then Err(StorageLimit)
                 else Ok(PairList(s.records, entity, Sorted(Linking(s.records, entity, direction))))
  {
    hide Represents, Consistent, Pairs, Linking, PairList, Bucket, PairLess, Increasing;
    RepresentsConsistent(root, s);
    if entity.scope != root.scope { return Err(WrongRoot); }
    BucketsAreLinks(s, entity);
    var combined: set<Pair>, remaining: nat := {}, MAX_TRAVERSAL_VISITS;
    ghost var seen: set<RecordRef> := {};
    assert Pairs(s.records, entity, {}) == {} by { NoPairs(s.records, entity); }
    if direction != Inward {
      var scan := ScanLinks(root, entity, Outward, combined, MAX_TRAVERSAL_VISITS, remaining, s, seen);
      if scan.Err? { return Err(StorageLimit); }
      combined, remaining, seen := scan.value.0, scan.value.1, seen + Linking(s.records, entity, Outward);
      assert seen == Linking(s.records, entity, Outward);
    }
    if direction != Outward {
      var scan := ScanLinks(root, entity, Inward, combined, MAX_TRAVERSAL_VISITS, remaining, s, seen);
      if scan.Err? { return Err(StorageLimit); }
      combined, remaining, seen := scan.value.0, scan.value.1, seen + Linking(s.records, entity, Inward);
    }
    assert seen == Linking(s.records, entity, direction);
    PairsAreOrdered();
    var found := InOrder(combined, PairLess);
    SortedPairs(s.records, entity, seen, found);
    r := Ok(found);
  }

  lemma NoPairs(records: map<RecordRef, Record>, entity: RecordRef)
    ensures Pairs(records, entity, {}) == {}
  {
  }

  /** `read_index_authorized` for an adjacency request: the in-memory answer, in the disk reader's error terms. */
  method ReadIndexAdjacent(root: Root, entity: RecordRef, direction: Direction, maximum: nat, grant: Grant,
      ghost s: Snapshot)
    returns (r: Result<seq<GraphNeighbor>, ReadFault>)
    requires Represents(root, s)
    ensures r == if maximum > MAX_TRAVERSAL_RESULTS then Err(Graph(ResourceLimit))
                 else if entity.scope != s.scope then Err(WrongRoot)
                 else if !WithinVisits(s, entity, direction) then Err(StorageLimit)
                 else InDiskTerms(NeighborsShown(s, entity, direction, maximum, grant))
  {
    hide Represents, Consistent, ReferencesAllowed, Linking, WithinVisits, DiskRecord, ShownNeighbor, Increasing;
    RepresentsConsistent(root, s);
    if maximum > MAX_TRAVERSAL_RESULTS { return Err(Graph(ResourceLimit)); }
    var candidates := DiskAdjacentIds(root, entity, direction, s);
    if candidates.Err? { return Err(candidates.error); }
    ghost var ids := Sorted(Linking(s.records, entity, direction));
    ghost var show := id => ShownNeighbor(s.records, entity, grant, id);
    var visible: seq<GraphNeighbor> := [];
    for k := 0 to |candidates.value|
      invariant visible == Kept(ids[..k], show) && |visible| <= maximum
    {
      assert ids[k] in ids;
      var candidate := candidates.value[k];
      var shown := ExpandCandidate(root, entity, direction, candidate, grant, s, ids[k]);
      KeptStep(ids, show, k);
      if shown.Err? { return Err(DamagedIndex); }
      if shown.value.None? { continue; }
      if |visible| == maximum {
        OverLimit(ids, show, k, maximum);
        return Err(Graph(ResultLimit(|visible| + 1, maximum)));
      }
      visible := visible + [shown.value.value];
    }
    assert ids[..|ids|] == ids;
    r := Ok(visible);
  }

  /** One candidate of the loop: authorization first, then the record gets it needs. */
  method ExpandCandidate(root: Root, entity: RecordRef, direction: Direction, candidate: Pair, grant: Grant,
      ghost s: Snapshot, ghost id: RecordRef)
    returns (r: Result<Option<GraphNeighbor>, ReadFault>)
    requires Represents(root, s) && id in Linking(s.records, entity, direction)
      && candidate == PairOf(s.records, entity, id)
    ensures r == Ok(ShownNeighbor(s.records, entity, grant, id))
  {
    hide Represents, Consistent, ReferencesAllowed, DiskRecord;
    RepresentsConsistent(root, s);
    OtherEndIsEntity(s, entity, direction, id);
    DiskRecordIsCurrent(root, s, id);
    DiskRecordIsCurrent(root, s, OtherEnd(s.records[id], entity));
    if !grant(ReadRecord, candidate.0) || !grant(ExpandGraph, candidate.0) { return Ok(None); }
    var got := DiskRecord(root, candidate.0);
    if !(got.Ok? && got.value.Some? && got.value.value.IsClaim(RelationshipKind)) { return Err(DamagedIndex); }
    var relationship := got.value.value;
    if relationship.body.from != entity && relationship.body.to != entity { return Err(DamagedIndex); }
    var expected := if relationship.body.from == entity then relationship.body.to else relationship.body.from;
    if expected != candidate.1 { return Err(DamagedIndex); }
    if !ReferencesAllowed(relationship, grant) { return Ok(None); }
    if !grant(ReadRecord, candidate.1) || !grant(ExpandGraph, candidate.1) { return Ok(None); }
    var neighbor := DiskRecord(root, candidate.1);
    if !(neighbor.Ok? && neighbor.value.Some? && neighbor.value.value.Entity?) { return Err(DamagedIndex); }
    if !ReferencesAllowed(neighbor.value.value, grant) { return Ok(None); }
    r := Ok(Some(GraphNeighbor(relationship, neighbor.value.value)));
  }

  /** `disk_supported_ids`. */
  method DiskSupportedIds(root: Root, evidence: RecordRef, maximum: nat, ghost s: Snapshot)
      returns (r: Result<seq<RecordRef>, ReadFault>)
    requires Represents(root, s)
    ensures r == if evidence.scope != s.scope then Err(WrongRoot)
                 else if |Citing(s.records, evidence)| > maximum then Err(StorageLimit)
                 else Ok(Sorted(Citing(s.records, evidence)))
  {
    hide Represents, Consistent, Citing, Scanned, Increasing;
    RepresentsConsistent(root, s);
    if evidence.scope != root.scope { return Err(WrongRoot); }
    ScannedCiting(root, s, evidence);
    var ids := Scanned(root, Provenance, evidence.record);
    if |ids| > maximum { return Err(StorageLimit); }
    var found := OverlayObject.Ascending(ids);
    var records := [];
    for k := 0 to |found|
      invariant records == found[..k]
    {
      var id := found[k];
      assert id in found;
      var content := Lookup(root.entries, PairKey(Provenance, evidence.record, id.record));
      if content != Some(NoContent) { return Err(DamagedIndex); }
      records := records + [id];
    }
    assert found[..|found|] == found;
    r := Ok(records);
  }

  /** `read_index_authorized` for a provenance request. */
  method ReadIndexSupported(root: Root, evidence: RecordRef, maximum: nat, grant: Grant, ghost s: Snapshot)
    returns (r: Result<seq<Record>, ReadFault>)
    requires Represents(root, s)
    ensures r == if maximum > MAX_TRAVERSAL_RESULTS then Err(Graph(ResourceLimit))
                 else if evidence.scope != s.scope then Err(WrongRoot)
                 else if |Citing(s.records, evidence)| > MAX_TRAVERSAL_VISITS then Err(StorageLimit)
                 else InDiskTerms(ClaimsShown(s, evidence, maximum, grant))
  {
    hide Represents, Consistent, ReferencesAllowed, DiskRecord, Increasing;
    RepresentsConsistent(root, s);
    if maximum > MAX_TRAVERSAL_RESULTS { return Err(Graph(ResourceLimit)); }
    var candidates := DiskSupportedIds(root, evidence, MAX_TRAVERSAL_VISITS, s);
    if candidates.Err? { return Err(candidates.error); }
    var ids := candidates.value;
    ghost var show := id => ShownClaim(s.records, grant, id);
    var visible: seq<Record> := [];
    for k := 0 to |ids|
      invariant visible == Kept(ids[..k], show) && |visible| <= maximum
    {
      var id := ids[k];
      assert id in ids;
      KeyedRecord(s, id);
      DiskRecordIsCurrent(root, s, id);
      KeptStep(ids, show, k);
      if !grant(ReadRecord, id) { continue; }
      var got := DiskRecord(root, id);
      if !(got.Ok? && got.value.Some?) { return Err(DamagedIndex); }
      if !ReferencesAllowed(got.value.value, grant) { continue; }
      if |visible| == maximum {
        OverLimit(ids, show, k, maximum);
        return Err(Graph(ResultLimit(|visible| + 1, maximum)));
      }
      visible := visible + [got.value.value];
    }
    assert ids[..|ids|] == ids;
    r := Ok(visible);
  }
}
