/** Authorized adjacency and provenance reads of an in-memory snapshot
    (crates/uste-graph/src/query.rs:82-230, crates/uste-graph/src/state.rs:164-221). */
module Reads {
  import opened Base
  import opened Records
  import opened Index
  import opened References
  import opened Reducer
  import opened Invariant
  import opened OverlayObject

  const MAX_TRAVERSAL_RESULTS := 100_000
  const MAX_TRAVERSAL_VISITS := 1_000_000

  datatype Permission = ReadRecord | ExpandGraph

  /** The candidate authorization callback, as a pure predicate. */
  type Grant = (Permission, RecordRef) -> bool

  datatype Direction = Outward | Inward | Either

  datatype GraphNeighbor = GraphNeighbor(relationship: Record, entity: Record)

  // What authorization asks of a record's own references

  predicate ValueAllowed(v: Value, grant: Grant) {
    match v
    case Leaf(_) => true
    case Reference(id) => grant(ReadRecord, id)
    case ListValue(items) => forall i :: 0 <= i < |items| ==> ValueAllowed(items[i], grant)
    case MapValue(entries) => forall i :: 0 <= i < |entries| ==> ValueAllowed(entries[i].value, grant)
  }

  predicate AllGranted(ids: seq<RecordRef>, grant: Grant) {
    forall i :: 0 <= i < |ids| ==> grant(ReadRecord, ids[i])
  }

  /** `record_references_are_authorized`. */
  predicate ReferencesAllowed(r: Record, grant: Grant) {
    match r
    case Entity(_, _, _, _, _, properties, _, _) => ValueAllowed(properties, grant)
    case Evidence(_, _, _, _, _) => true
    case Claim(_, _, body, evidence, _, _, correctionOf, _, _) =>
      && AllGranted(body.Endpoints(), grant)
      && AllGranted(evidence, grant)
      && (correctionOf.Some? ==> grant(ReadRecord, correctionOf.value))
      && ValueAllowed(body.Payload(), grant)
  }

  lemma {:induction false} ItemsAllowedMeaning(items: seq<Value>, grant: Grant)
    ensures (forall i :: 0 <= i < |items| ==> ValueAllowed(items[i], grant))
      <==> AllGranted(ItemReferences(items), grant)
    decreases items
  {
    if items != [] {
      var first, rest := items[0], items[1..];
      ValueAllowedMeaning(first, grant);
      ItemsAllowedMeaning(rest, grant);
      assert (forall i :: 0 <= i < |items| ==> ValueAllowed(items[i], grant))
        <==> ValueAllowed(first, grant) && (forall i :: 0 <= i < |rest| ==> ValueAllowed(rest[i], grant)) by {
        assert items == [first] + rest;
      }
      GrantedParts(ValueReferences(first), ItemReferences(rest), grant);
    }
  }

  lemma {:induction false} EntriesAllowedMeaning(entries: seq<MapEntry>, grant: Grant)
    ensures (forall i :: 0 <= i < |entries| ==> ValueAllowed(entries[i].value, grant))
      <==> AllGranted(EntryReferences(entries), grant)
    decreases entries
  {
    if entries != [] {
      var first, rest := entries[0], entries[1..];
      EntryAllowedMeaning(first, grant);
      EntriesAllowedMeaning(rest, grant);
      assert (forall i :: 0 <= i < |entries| ==> ValueAllowed(entries[i].value, grant))
        <==> ValueAllowed(first.value, grant) && (forall i :: 0 <= i < |rest| ==>
          ValueAllowed(rest[i].value, grant)) by {
        assert entries == [first] + rest;
      }
      GrantedParts(ValueReferences(first.value), EntryReferences(rest), grant);
    }
  }

  lemma {:induction false} EntryAllowedMeaning(entry: MapEntry, grant: Grant)
    ensures ValueAllowed(entry.value, grant) <==> AllGranted(ValueReferences(entry.value), grant)
    decreases entry
  {
    ValueAllowedMeaning(entry.value, grant);
  }

  lemma {:induction false} ValueAllowedMeaning(v: Value, grant: Grant)
    ensures ValueAllowed(v, grant) <==> AllGranted(ValueReferences(v), grant)
    decreases v
  {
    match v
    case Leaf(_) =>
    case Reference(id) => assert [id][0] == id;
    case ListValue(items) => ItemsAllowedMeaning(items, grant);
    case MapValue(entries) => EntriesAllowedMeaning(entries, grant);
  }

  lemma GrantedParts(a: seq<RecordRef>, b: seq<RecordRef>, grant: Grant)
    ensures AllGranted(a + b, grant) <==> AllGranted(a, grant) && AllGranted(b, grant)
  {
    if AllGranted(a + b, grant) {
      assert forall i :: 0 <= i < |a| ==> (a + b)[i] == a[i];
      assert forall i :: 0 <= i < |b| ==> (a + b)[|a| + i] == b[i];
    }
  }

  ghost predicate MentionsGranted(ms: seq<Mention>, grant: Grant) {
    forall m :: m in ms ==> grant(ReadRecord, m.target)
  }

  lemma MentionsAreGranted(ids: seq<RecordRef>, role: Role, grant: Grant)
    ensures MentionsGranted(Mentions(ids, role), grant) <==> AllGranted(ids, grant)
  {
    if MentionsGranted(Mentions(ids, role), grant) {
      forall i | 0 <= i < |ids|
        ensures grant(ReadRecord, ids[i])
      {
        assert Mentions(ids, role)[i] in Mentions(ids, role);
      }
    }
  }

  /** A record passes exactly when every record it mentions, in any role and at any depth, may be read. */
  lemma {:induction false} AllowedMeansMentionsReadable(r: Record, grant: Grant)
    ensures ReferencesAllowed(r, grant) <==> MentionsGranted(RecordMentions(r), grant)
  {
    match r
    case Entity(_, _, _, _, _, properties, _, _) =>
      ValueAllowedMeaning(properties, grant);
      MentionsAreGranted(ValueReferences(properties), EntityProperty, grant);
    case Evidence(_, _, _, _, _) =>
    case Claim(_, _, body, evidence, _, _, correctionOf, _, _) =>
      ValueAllowedMeaning(body.Payload(), grant);
      MentionsAreGranted(ValueReferences(body.Payload()), PayloadRole(body), grant);
      MentionsAreGranted(evidence, EvidenceRole, grant);
      var ends, payload, sources := EndpointMentions(body),
        Mentions(ValueReferences(body.Payload()), PayloadRole(body)), Mentions(evidence, EvidenceRole);
      var corrected := if correctionOf.Some? then [Mention(correctionOf.value, CorrectionRole)] else [];
      assert MentionsGranted(ends, grant) <==> AllGranted(body.Endpoints(), grant) by { EndsGranted(body, grant); }
      assert RecordMentions(r) == ends + payload + sources + corrected;
  }

  lemma EndsGranted(body: ClaimBody, grant: Grant)
    ensures MentionsGranted(EndpointMentions(body), grant) <==> AllGranted(body.Endpoints(), grant)
  {
    var ends, ms := body.Endpoints(), EndpointMentions(body);
    assert |ends| == |ms| && forall i :: 0 <= i < |ms| ==> ms[i].target == ends[i];
    if MentionsGranted(ms, grant) {
      forall i | 0 <= i < |ends| ensures grant(ReadRecord, ends[i]) { assert ms[i] in ms; }
    }
  }

  // The answers, read off the records alone

  /** An accepted relationship that leaves or reaches `entity` the way `direction` asks. */
  predicate Links(r: Record, entity: RecordRef, direction: Direction) {
    && r.IsClaim(RelationshipKind) && r.status == Accepted
    && ((direction != Inward && r.body.from == entity) || (direction != Outward && r.body.to == entity))
  }

  function Linking(records: map<RecordRef, Record>, entity: RecordRef, direction: Direction): set<RecordRef> {
    set id | id in records && Links(records[id], entity, direction)
  }

  /** Index entries a traversal walks; a self-loop is walked once per direction. */
  function Visits(records: map<RecordRef, Record>, entity: RecordRef, direction: Direction): nat {
    (if direction == Inward then 0 else |Linking(records, entity, Outward)|)
    + (if direction == Outward then 0 else |Linking(records, entity, Inward)|)
  }

  function OtherEnd(r: Record, entity: RecordRef): RecordRef
    requires r.IsClaim(RelationshipKind)
  {
    if r.body.from == entity then r.body.to else r.body.from
  }

  predicate MayExpand(grant: Grant, id: RecordRef) {
    grant(ReadRecord, id) && grant(ExpandGraph, id)
  }

  /** What one relationship contributes to an adjacency answer. */
  function ShownNeighbor(records: map<RecordRef, Record>, entity: RecordRef, grant: Grant,
      id: RecordRef): Option<GraphNeighbor> {
    if !(id in records && records[id].IsClaim(RelationshipKind)) then None
    else
      var other := OtherEnd(records[id], entity);
      if && MayExpand(grant, id) && ReferencesAllowed(records[id], grant)
         && MayExpand(grant, other) && other in records && ReferencesAllowed(records[other], grant)
      then Some(GraphNeighbor(records[id], records[other])) else None
  }

  /** The claims citing `evidence`, whatever their status. */
  function Citing(records: map<RecordRef, Record>, evidence: RecordRef): set<RecordRef> {
    set id | id in records && records[id].Claim? && evidence in records[id].evidence
  }

  function ShownClaim(records: map<RecordRef, Record>, grant: Grant, id: RecordRef): Option<Record> {
    if id in records && grant(ReadRecord, id) && ReferencesAllowed(records[id], grant) then Some(records[id]) else None
  }

  function Kept<T>(ids: seq<RecordRef>, show: RecordRef -> Option<T>): seq<T> {
    if ids == [] then []
    else
      var last := show(ids[|ids| - 1]);
      Kept(ids[..|ids| - 1], show) + (if last.Some? then [last.value] else [])
  }

  lemma {:induction false} KeptStep<T>(ids: seq<RecordRef>, show: RecordRef -> Option<T>, k: nat)
    requires k < |ids|
    ensures Kept(ids[..k + 1], show) == Kept(ids[..k], show) + (if show(ids[k]).Some? then [show(ids[k]).value] else [])
  {
    assert ids[..k + 1][..k] == ids[..k];
  }

  lemma {:induction false} KeptGrows<T>(ids: seq<RecordRef>, show: RecordRef -> Option<T>, k: nat)
    requires k <= |ids|
    ensures |Kept(ids[..k], show)| <= |Kept(ids, show)|
    decreases |ids| - k
  {
    if k == |ids| {
      assert ids[..k] == ids;
    } else {
      KeptStep(ids, show, k);
      KeptGrows(ids, show, k + 1);
    }
  }

  function Limited<T>(all: seq<T>, maximum: nat): Result<seq<T>, GraphError> {
    if |all| > maximum then Err(ResultLimit(maximum + 1, maximum)) else Ok(all)
  }

  lemma {:induction false} OverLimit<T>(ids: seq<RecordRef>, show: RecordRef -> Option<T>, k: nat, maximum: nat)
    requires k < |ids| && show(ids[k]).Some? && |Kept(ids[..k], show)| == maximum
    ensures Limited(Kept(ids, show), maximum) == Err(ResultLimit(maximum + 1, maximum))
  {
    KeptStep(ids, show, k);
    KeptGrows(ids, show, k + 1);
  }

  ghost function NeighborsShown(s: Snapshot, entity: RecordRef, direction: Direction, maximum: nat,
      grant: Grant): Result<seq<GraphNeighbor>, GraphError> {
    Limited(Kept(Sorted(Linking(s.records, entity, direction)), id => ShownNeighbor(s.records, entity, grant, id)),
      maximum)
  }

  ghost function ClaimsShown(s: Snapshot, evidence: RecordRef, maximum: nat, grant: Grant): Result<seq<Record>,
      GraphError> {
    Limited(Kept(Sorted(Citing(s.records, evidence)), id => ShownClaim(s.records, grant, id)), maximum)
  }

  ghost predicate WithinVisits(s: Snapshot, entity: RecordRef, direction: Direction) {
    Visits(s.records, entity, direction) <= MAX_TRAVERSAL_VISITS
  }

  // What an answer means

  lemma {:induction false} KeptMembers<T>(ids: seq<RecordRef>, show: RecordRef -> Option<T>, x: T)
    ensures x in Kept(ids, show) <==> exists k :: 0 <= k < |ids| && show(ids[k]) == Some(x)
    decreases |ids|
  {
    if ids != [] {
      var n := |ids| - 1;
      KeptMembers(ids[..n], show, x);
      if k :| 0 <= k < n && show(ids[..n][k]) == Some(x) { assert show(ids[k]) == Some(x); }
      if k :| 0 <= k < n && show(ids[k]) == Some(x) { assert show(ids[..n][k]) == Some(x); }
    }
  }

  lemma {:induction false} KeptInOrder(ids: seq<RecordRef>, show: RecordRef -> Option<GraphNeighbor>)
    requires Increasing(ids, Less)
    requires forall k :: 0 <= k < |ids| && show(ids[k]).Some? ==> show(ids[k]).value.relationship.id == ids[k]
    ensures Increasing(Kept(ids, show), (a: GraphNeighbor, b: GraphNeighbor) =>
      Less(a.relationship.id, b.relationship.id))
    ensures forall x :: x in Kept(ids, show) ==> x.relationship.id in ids
    decreases |ids|
  {
    if ids != [] {
      var n := |ids| - 1;
      KeptInOrder(ids[..n], show);
    }
  }

  /** An adjacency answer lists, once each and by relationship identity, exactly the readable accepted relationships
      of the entity with the readable entity at their other end. */
  lemma {:induction false} AdjacentAnswerMeaning(s: Snapshot, entity: RecordRef, direction: Direction, maximum: nat,
      grant: Grant, answer: seq<GraphNeighbor>)
    requires Consistent(s) && NeighborsShown(s, entity, direction, maximum, grant) == Ok(answer)
    ensures |answer| <= maximum
    ensures Increasing(answer, (a: GraphNeighbor, b: GraphNeighbor) => Less(a.relationship.id, b.relationship.id))
    ensures forall x :: x in answer <==>
      && Lookup(s.records, x.relationship.id) == Some(x.relationship) && Links(x.relationship, entity, direction)
      && ShownNeighbor(s.records, entity, grant, x.relationship.id) == Some(x)
  {
    hide Consistent, ReferencesAllowed, ShownNeighbor;
    var ids, show := Sorted(Linking(s.records, entity, direction)), id => ShownNeighbor(s.records, entity, grant, id);
    forall id ensures show(id).Some? ==> show(id).value.relationship.id == id { ShownIsKeyed(s, entity, grant, id); }
    KeptInOrder(ids, show);
    forall x ensures x in answer <==>
      && Lookup(s.records, x.relationship.id) == Some(x.relationship) && Links(x.relationship, entity, direction)
      && ShownNeighbor(s.records, entity, grant, x.relationship.id) == Some(x)
    {
      KeptMembers(ids, show, x);
      ShownIsKeyed(s, entity, grant, x.relationship.id);
      if k :| 0 <= k < |ids| && show(ids[k]) == Some(x) { assert ids[k] in ids; }
      if x.relationship.id in ids {
        var k :| 0 <= k < |ids| && ids[k] == x.relationship.id;
        assert show(ids[k]) == show(x.relationship.id);
      }
    }
  }

  lemma ShownIsKeyed(s: Snapshot, entity: RecordRef, grant: Grant, id: RecordRef)
    requires Consistent(s)
    ensures var shown := ShownNeighbor(s.records, entity, grant, id);
      shown.Some? ==> shown.value.relationship.id == id && id in s.records && shown.value.relationship == s.records[id]
  {
  }

  // The index buckets agree with the records

  lemma {:induction false} BucketsAreLinks(s: Snapshot, entity: RecordRef)
    requires Consistent(s)
    ensures Bucket(s.outgoing, entity).Keys == Linking(s.records, entity, Outward)
    ensures Bucket(s.incoming, entity).Keys == Linking(s.records, entity, Inward)
    ensures Linking(s.records, entity, Either) == Linking(s.records, entity, Outward)
      + Linking(s.records, entity, Inward)
  {
    hide AllValid, HistoriesKept, HistoricallyClosed, PoliciesKept;
    forall id ensures id in Bucket(s.outgoing, entity) <==> id in Linking(s.records, entity, Outward) {
      assert Has(s.outgoing, entity, id) <==> id in Bucket(s.outgoing, entity);
    }
    forall id ensures id in Bucket(s.incoming, entity) <==> id in Linking(s.records, entity, Inward) {
      assert Has(s.incoming, entity, id) <==> id in Bucket(s.incoming, entity);
    }
  }

  lemma {:induction false} BucketIsCiting(s: Snapshot, evidence: RecordRef)
    requires Consistent(s)
    ensures Bucket(s.provenance, evidence).Keys == Citing(s.records, evidence)
  {
    hide AllValid, HistoriesKept, HistoricallyClosed, PoliciesKept;
    forall id ensures id in Bucket(s.provenance, evidence) <==> id in Citing(s.records, evidence) {
      assert Has(s.provenance, evidence, id) <==> id in Bucket(s.provenance, evidence);
    }
  }

  /** The other end of an indexed relationship is an entity of the snapshot. */
  lemma {:induction false} OtherEndIsEntity(s: Snapshot, entity: RecordRef, direction: Direction, id: RecordRef)
    requires Consistent(s) && id in Linking(s.records, entity, direction)
    ensures var r := s.records[id];
      && r.id == id && id.scope == s.scope
      && OtherEnd(r, entity) in s.records && s.records[OtherEnd(r, entity)].Entity?
      && OtherEnd(r, entity).scope == s.scope
      && (r.body.from == entity || r.body.to == entity)
  {
    hide HistoriesKept, HistoricallyClosed, PoliciesKept, Matches;
    var r := s.records[id];
    assert ValidIn(s.scope, id, s.records);
    var ends := r.body.Endpoints();
    assert ends == [r.body.from, r.body.to];
    assert ends[0] in ends && ends[1] in ends;
  }

  // The in-memory reader

  /** One bucket of `adjacent_candidates`: every entry counts as a visit, repeated identifiers are kept once. */
  method VisitBucket(bucket: map<RecordRef, ()>, seen: set<RecordRef>, visited: nat)
      returns (r: Result<(set<RecordRef>, nat), GraphError>)
    requires visited <= MAX_TRAVERSAL_VISITS
    ensures r == if visited + |bucket.Keys| > MAX_TRAVERSAL_VISITS then Err(ResourceLimit)
                 else Ok((seen + bucket.Keys, visited + |bucket.Keys|))
  {
    hide Increasing;
    var found := Ascending(bucket.Keys);
    var ids, visits := seen, visited;
    for k := 0 to |found|
      invariant visits == visited + k <= MAX_TRAVERSAL_VISITS
      invariant forall x :: x in ids <==> x in seen || x in found[..k]
    {
      visits := visits + 1;
      if visits > MAX_TRAVERSAL_VISITS { return Err(ResourceLimit); }
      ids := ids + {found[k]};
      assert found[..k + 1] == found[..k] + [found[k]];
    }
    assert found[..|found|] == found;
    assert ids == seen + bucket.Keys;
    r := Ok((ids, visits));
  }

  method VisitBuckets(s: Snapshot, entity: RecordRef, direction: Direction)
      returns (r: Result<set<RecordRef>, GraphError>)
    requires Consistent(s)
    ensures r == if !WithinVisits(s, entity, direction) then Err(ResourceLimit)
      else Ok(Linking(s.records, entity, direction))
  {
    hide Consistent, Linking, Bucket;
    BucketsAreLinks(s, entity);
    ghost var out, in_ := Linking(s.records, entity, Outward), Linking(s.records, entity, Inward);
    var outgoing, incoming := Bucket(s.outgoing, entity), Bucket(s.incoming, entity);
    assert outgoing.Keys == out && incoming.Keys == in_;
    var ids: set<RecordRef>, visits: nat := {}, 0;
    if direction != Inward {
      var walked := VisitBucket(outgoing, ids, visits);
      if walked.Err? { return Err(ResourceLimit); }
      ids, visits := walked.value.0, walked.value.1;
      assert ids == out;
    }
    if direction != Outward {
      var walked := VisitBucket(incoming, ids, visits);
      if walked.Err? { return Err(ResourceLimit); }
      ids, visits := walked.value.0, walked.value.1;
      assert direction == Inward ==> ids == in_;
    }
    r := Ok(ids);
  }

  /** `adjacent_candidates`. */
  method AdjacentCandidates(s: Snapshot, entity: RecordRef, direction: Direction)
      returns (r: Result<seq<RecordRef>, GraphError>)
    requires Consistent(s)
    ensures r == if entity.scope != s.scope then Err(ScopeMismatch(entity))
                 else if !WithinVisits(s, entity, direction) then Err(ResourceLimit)
                 else Ok(Sorted(Linking(s.records, entity, direction)))
  {
    hide Consistent, Linking, WithinVisits, Increasing;
    if entity.scope != s.scope { return Err(ScopeMismatch(entity)); }
    var walked := VisitBuckets(s, entity, direction);
    if walked.Err? { return Err(ResourceLimit); }
    var found := Ascending(walked.value);
    for k := 0 to |found| {
      var id := found[k];
      assert id in found;
      assert Linked(s, entity, direction, id);
      if !(id in s.records && s.records[id].IsClaim(RelationshipKind)) { return Err(IndexCorrupt(id)); }
    }
    r := Ok(found);
  }

  ghost predicate Linked(s: Snapshot, entity: RecordRef, direction: Direction, id: RecordRef)
    ensures id in Linking(s.records, entity, direction) ==> Linked(s, entity, direction, id)
  {
    id in s.records && s.records[id].IsClaim(RelationshipKind)
  }

  /** One candidate of the loop: the relationship, its other end, and everything they mention must be readable. */
  method ExpandRelationship(s: Snapshot, entity: RecordRef, direction: Direction, id: RecordRef, grant: Grant)
      returns (r: Result<Option<GraphNeighbor>, GraphError>)
    requires Consistent(s) && id in Linking(s.records, entity, direction)
    ensures r == Ok(ShownNeighbor(s.records, entity, grant, id))
  {
    hide Consistent, ReferencesAllowed;
    OtherEndIsEntity(s, entity, direction, id);
    var relationship := s.records[id];
    if !ReferencesAllowed(relationship, grant) { return Ok(None); }
    if !grant(ReadRecord, relationship.id) || !grant(ExpandGraph, relationship.id) { return Ok(None); }
    var neighbor := if relationship.body.from == entity then relationship.body.to else relationship.body.from;
    if !grant(ReadRecord, neighbor) || !grant(ExpandGraph, neighbor) { return Ok(None); }
    if !(neighbor in s.records && s.records[neighbor].Entity?) { return Err(IndexCorrupt(neighbor)); }
    if !ReferencesAllowed(s.records[neighbor], grant) { return Ok(None); }
    r := Ok(Some(GraphNeighbor(relationship, s.records[neighbor])));
  }

  /** `read_authorized` for an adjacency request. */
  method ReadAdjacent(s: Snapshot, entity: RecordRef, direction: Direction, maximum: nat, grant: Grant)
      returns (r: Result<seq<GraphNeighbor>, GraphError>)
    requires Consistent(s)
    ensures r == if maximum > MAX_TRAVERSAL_RESULTS then Err(ResourceLimit)
                 else if entity.scope != s.scope then Err(ScopeMismatch(entity))
                 else if !WithinVisits(s, entity, direction) then Err(ResourceLimit)
                 else NeighborsShown(s, entity, direction, maximum, grant)
  {
    hide Consistent, Linking, WithinVisits, ShownNeighbor, Increasing;
    if maximum > MAX_TRAVERSAL_RESULTS { return Err(ResourceLimit); }
    var candidates := AdjacentCandidates(s, entity, direction);
    if candidates.Err? { return Err(candidates.error); }
    var ids := candidates.value;
    ghost var show := id => ShownNeighbor(s.records, entity, grant, id);
    var visible: seq<GraphNeighbor> := [];
    for k := 0 to |ids|
      invariant visible == Kept(ids[..k], show) && |visible| <= maximum
    {
      var id := ids[k];
      assert id in ids;
      var shown := ExpandRelationship(s, entity, direction, id, grant);
      KeptStep(ids, show, k);
      if shown.Err? { return Err(IndexCorrupt(id)); }
      if shown.value.None? { continue; }
      if |visible| == maximum {
        OverLimit(ids, show, k, maximum);
        return Err(ResultLimit(|visible| + 1, maximum));
      }
      visible := visible + [shown.value.value];
    }
    assert ids[..|ids|] == ids;
    r := Ok(visible);
  }

  method SupportedCandidates(s: Snapshot, evidence: RecordRef) returns (r: Result<seq<RecordRef>, GraphError>)
    requires Consistent(s)
    ensures r == if evidence.scope != s.scope then Err(ScopeMismatch(evidence))
                 else if |Citing(s.records, evidence)| > MAX_TRAVERSAL_VISITS then Err(ResourceLimit)
                 else Ok(Sorted(Citing(s.records, evidence)))
  {
    hide Consistent, Increasing, Bucket;
    if evidence.scope != s.scope { return Err(ScopeMismatch(evidence)); }
    BucketIsCiting(s, evidence);
    var found := Ascending(Bucket(s.provenance, evidence).Keys);
    var ids := [];
    for k := 0 to |found|
      invariant ids == found[..k] && k <= MAX_TRAVERSAL_VISITS
    {
      if k == MAX_TRAVERSAL_VISITS { return Err(ResourceLimit); }
      var id := found[k];
      assert id in found;
      if id !in s.records { return Err(IndexCorrupt(id)); }
      ids := ids + [id];
    }
    assert found[..|found|] == found;
    r := Ok(ids);
  }

  /** `read_authorized` for a provenance request. */
  method ReadSupported(s: Snapshot, evidence: RecordRef, maximum: nat, grant: Grant)
      returns (r: Result<seq<Record>, GraphError>)
    requires Consistent(s)
    ensures r == if maximum > MAX_TRAVERSAL_RESULTS then Err(ResourceLimit)
                 else if evidence.scope != s.scope then Err(ScopeMismatch(evidence))
                 else if |Citing(s.records, evidence)| > MAX_TRAVERSAL_VISITS then Err(ResourceLimit)
                 else ClaimsShown(s, evidence, maximum, grant)
  {
    hide Consistent, ReferencesAllowed;
    if maximum > MAX_TRAVERSAL_RESULTS { return Err(ResourceLimit); }
    var candidates := SupportedCandidates(s, evidence);
    if candidates.Err? { return Err(candidates.error); }
    var ids := candidates.value;
    ghost var show := id => ShownClaim(s.records, grant, id);
    var visible: seq<Record> := [];
    for k := 0 to |ids|
      invariant visible == Kept(ids[..k], show) && |visible| <= maximum
    {
      assert ids[k] in ids;
      KeyedRecord(s, ids[k]);
      KeptStep(ids, show, k);
      var record := s.records[ids[k]];
      if grant(ReadRecord, record.id) && ReferencesAllowed(record, grant) {
        if |visible| == maximum {
          OverLimit(ids, show, k, maximum);
          return Err(ResultLimit(|visible| + 1, maximum));
        }
        visible := visible + [record];
      }
    }
    assert ids[..|ids|] == ids;
    r := Ok(visible);
  }

  lemma KeyedRecord(s: Snapshot, id: RecordRef)
    requires Consistent(s) && id in s.records
    ensures s.records[id].id == id && id.scope == s.scope
  {
    assert ValidIn(s.scope, id, s.records);
  }
}
