/** The metadata counts of a consistent state are the sizes of its families
    (crates/uste-graph/src/state_disk.rs:5246-5257). */
module Counting {
  import opened Base
  import opened Records
  import opened Index
  import opened References
  import opened Reducer
  import opened Publication
  import opened Invariant
  import opened Checkpoint
  import opened Families

  // Sizes of images and of disjoint unions

  lemma {:induction false} BijectionSize<A, B>(source: set<A>, image: set<B>, f: A -> B, g: B -> A)
    requires forall x :: x in source ==> f(x) in image && g(f(x)) == x
    requires forall y :: y in image ==> g(y) in source && f(g(y)) == y
    ensures |image| == |source|
    decreases source
  {
    if source == {} {
      assert image == {};
    } else {
      var x :| x in source;
      BijectionSize(source - {x}, image - {f(x)}, f, g);
    }
  }

  function TotalSize<K, V>(buckets: map<K, set<V>>, keys: seq<K>): nat
    requires forall k :: k in keys ==> k in buckets
  {
    if keys == [] then 0 else |buckets[keys[0]]| + TotalSize(buckets, keys[1..])
  }

  function Pairs<K, V>(buckets: map<K, set<V>>, keys: seq<K>): set<(K, V)> {
    set k, v | k in keys && k in buckets && v in buckets[k] :: (k, v)
  }

  lemma {:induction false} PairsSize<K(!new), V(!new)>(buckets: map<K, set<V>>, keys: seq<K>)
    requires forall k :: k in keys ==> k in buckets
    requires forall i, j :: 0 <= i < j < |keys| ==> keys[i] != keys[j]
    ensures |Pairs(buckets, keys)| == TotalSize(buckets, keys)
  {
    if keys == [] {
      assert Pairs(buckets, keys) == {};
    } else {
      var first, rest := keys[0], keys[1..];
      PairsSize(buckets, rest);
      var own := set v | v in buckets[first] :: (first, v);
      BijectionSize(buckets[first], own, v => (first, v), (p: (K, V)) => p.1);
      assert keys == [first] + rest && first !in rest;
      assert Pairs(buckets, keys) == own + Pairs(buckets, rest) && own !! Pairs(buckets, rest);
    }
  }

  function Owners<V>(index: Index<V>): map<RecordRef, set<RecordRef>> {
    map key | key in index :: index[key].Keys
  }

  lemma {:induction false} TotalOwnersIsSize<V>(index: Index<V>, keys: seq<RecordRef>)
    requires forall key :: key in keys ==> key in index
    ensures TotalOwners(index, keys) == TotalSize(Owners(index), keys)
  {
    if keys != [] { TotalOwnersIsSize(index, keys[1..]); }
  }

  function Revisions(versions: seq<Record>): set<nat> {
    set k | 0 <= k < |versions| :: versions[k].ModifiedRevision()
  }

  lemma {:induction false} RevisionsSize(versions: seq<Record>)
    requires Chronological(versions)
    ensures |Revisions(versions)| == |versions|
  {
    if versions != [] {
      var n := |versions| - 1;
      RevisionsSize(versions[..n]);
      assert forall k :: 0 <= k < n ==> versions[..n][k] == versions[k];
      assert Revisions(versions) == Revisions(versions[..n]) + {versions[n].ModifiedRevision()};
      assert versions[n].ModifiedRevision() !in Revisions(versions[..n]);
    }
  }

  function RevisionBuckets(history: map<RecordRef, seq<Record>>): map<RecordRef, set<nat>> {
    map id | id in history :: Revisions(history[id])
  }

  ghost predicate AllAscend(history: map<RecordRef, seq<Record>>) {
    forall id :: id in history ==> Chronological(history[id])
  }

  lemma {:induction false} TotalVersionsIsSize(history: map<RecordRef, seq<Record>>, ids: seq<RecordRef>)
    requires AllAscend(history) && forall id :: id in ids ==> id in history
    ensures TotalVersions(history, ids) == TotalSize(RevisionBuckets(history), ids)
  {
    if ids != [] {
      TotalVersionsIsSize(history, ids[1..]);
      RevisionsSize(history[ids[0]]);
    }
  }

  // Slots of the entry map

  ghost predicate InScopeIndex<V(!new)>(scope: nat, index: Index<V>) {
    forall key, owner :: Has(index, key, owner) ==> key.scope == scope && owner.scope == scope
  }

  ghost predicate IndexServes<V(!new)>(s: Snapshot, family: Family, index: Index<V>) {
    forall l: nat, r: nat :: EntryAt(s, PairKey(family, l, r)).Some?
      <==> Has(index, RecordRef(s.scope, l), RecordRef(s.scope, r))
  }

  lemma IndexKey<V(!new)>(s: Snapshot, family: Family, index: Index<V>, k: Key)
    requires family in {Outgoing, Incoming, Provenance, Reverse} && IndexServes(s, family, index)
    ensures k in KeysIn(EntriesOf(s), SlotOf(PairKey(family, 0, 0)))
       <==> k.PairKey? && k.family == family && Has(index, RecordRef(s.scope, k.left), RecordRef(s.scope, k.right))
  {
    hide EntryAt, EntriesOf;
    EntriesLookup(s, k);
  }

  lemma IndexPairs<V>(index: Index<V>, l: RecordRef, r: RecordRef)
    ensures (l, r) in Pairs(Owners(index), Sorted(index.Keys)) <==> Has(index, l, r)
  {
    assert l in Sorted(index.Keys) <==> l in index.Keys;
  }

  lemma {:induction false} IndexSlot<V(!new)>(s: Snapshot, family: Family, index: Index<V>)
    requires family in {Outgoing, Incoming, Provenance, Reverse} && InScopeIndex(s.scope, index)
      && IndexServes(s, family, index)
    ensures |KeysIn(EntriesOf(s), SlotOf(PairKey(family, 0, 0)))| == TotalOwners(index, Sorted(index.Keys))
  {
    hide EntriesOf, IndexServes, KeysIn, Pairs;
    var keys := KeysIn(EntriesOf(s), SlotOf(PairKey(family, 0, 0)));
    var ids := Sorted(index.Keys);
    var pairs := Pairs(Owners(index), ids);
    var f := (x: (RecordRef, RecordRef)) => PairKey(family, x.0.record, x.1.record);
    var g := (k: Key) => if k.PairKey? then (RecordRef(s.scope, k.left), RecordRef(s.scope, k.right))
      else (RecordRef(0, 0), RecordRef(0, 0));
    forall x | x in pairs ensures f(x) in keys && g(f(x)) == x {
      IndexPairs(index, x.0, x.1);
      IndexKey(s, family, index, f(x));
    }
    forall k | k in keys ensures g(k) in pairs && f(g(k)) == k {
      IndexKey(s, family, index, k);
      IndexPairs(index, g(k).0, g(k).1);
    }
    BijectionSize(pairs, keys, f, g);
    SortedDistinct(index.Keys);
    PairsSize(Owners(index), ids);
    TotalOwnersIsSize(index, ids);
  }

  lemma SortedDistinct(ids: set<RecordRef>)
    ensures forall i, j :: 0 <= i < j < |Sorted(ids)| ==> Sorted(ids)[i] != Sorted(ids)[j]
  {
    var s := Sorted(ids);
    assert forall i, j :: 0 <= i < j < |s| ==> Less(s[i], s[j]);
  }

  lemma {:induction false} RecordSlot(s: Snapshot)
    requires forall id :: id in s.records ==> id.scope == s.scope
    ensures |KeysIn(EntriesOf(s), 0)| == |s.records|
  {
    hide EntriesOf;
    var keys := KeysIn(EntriesOf(s), 0);
    var f := (id: RecordRef) => RecordKey(id.record);
    var g := (k: Key) => if k.RecordKey? then RecordRef(s.scope, k.record) else RecordRef(0, 0);
    forall id | id in s.records.Keys ensures f(id) in keys && g(f(id)) == id { EntriesLookup(s, f(id)); }
    forall k | k in keys ensures g(k) in s.records.Keys && f(g(k)) == k { EntriesLookup(s, k); }
    BijectionSize(s.records.Keys, keys, f, g);
    assert |s.records.Keys| == |s.records|;
  }

  lemma {:induction false} VersionAtExists(versions: seq<Record>, k: nat)
    requires k < |versions|
    ensures VersionAt(versions, versions[k].ModifiedRevision()).Some?
  {
    if k < |versions| - 1 {
      assert versions[..|versions| - 1][k] == versions[k];
      VersionAtExists(versions[..|versions| - 1], k);
    }
  }

  lemma {:induction false} VersionIsAt(versions: seq<Record>, k: nat)
    requires Chronological(versions) && k < |versions|
    ensures VersionAt(versions, versions[k].ModifiedRevision()) == Some(versions[k])
  {
    if k < |versions| - 1 {
      var front := versions[..|versions| - 1];
      assert front[k] == versions[k];
      VersionIsAt(front, k);
    }
  }

  lemma VersionServed(versions: seq<Record>, revision: nat)
    ensures VersionAt(versions, revision).Some? <==> revision in Revisions(versions)
  {
    if VersionAt(versions, revision).Some? { VersionAtIsListed(versions, revision); }
    if revision in Revisions(versions) {
      var k :| 0 <= k < |versions| && versions[k].ModifiedRevision() == revision;
      VersionAtExists(versions, k);
    }
  }

  lemma {:induction false} VersionKeyServed(s: Snapshot, k: Key)
    ensures k in KeysIn(EntriesOf(s), 1)
       <==> k.VersionKey? && (RecordRef(s.scope, k.record), k.revision) in Pairs(RevisionBuckets(s.history),
         Sorted(s.history.Keys))
  {
    hide EntriesOf, VersionAt, Revisions;
    EntriesLookup(s, k);
    if k.VersionKey? {
      var id := RecordRef(s.scope, k.record);
      VersionServed(VersionsOf(s.history, id), k.revision);
      NoRevisions();
      assert id in Sorted(s.history.Keys) <==> id in s.history.Keys;
    }
  }

  lemma NoRevisions()
    ensures Revisions([]) == {}
  {
  }

  lemma {:induction false} VersionSlot(s: Snapshot)
    requires AllAscend(s.history) && forall id :: id in s.history ==> id.scope == s.scope
    ensures |KeysIn(EntriesOf(s), 1)| == TotalVersions(s.history, Sorted(s.history.Keys))
  {
    hide EntriesOf, KeysIn, AllAscend, Revisions;
    var keys, ids := KeysIn(EntriesOf(s), 1), Sorted(s.history.Keys);
    var pairs := Pairs(RevisionBuckets(s.history), ids);
    var f := (x: (RecordRef, nat)) => VersionKey(x.0.record, x.1);
    var g := (k: Key) => if k.VersionKey? then (RecordRef(s.scope, k.record), k.revision) else (RecordRef(0, 0), 0);
    forall x | x in pairs ensures f(x) in keys && g(f(x)) == x { VersionKeyServed(s, f(x)); }
    forall k | k in keys ensures g(k) in pairs && f(g(k)) == k { VersionKeyServed(s, k); }
    BijectionSize(pairs, keys, f, g);
    SortedDistinct(s.history.Keys);
    PairsSize(RevisionBuckets(s.history), ids);
    TotalVersionsIsSize(s.history, ids);
  }

  lemma {:induction false} PolicySlots(s: Snapshot)
    ensures |KeysIn(EntriesOf(s), 6)| == |s.policyHistory|
    ensures |KeysIn(EntriesOf(s), 7)| == if s.policy.Some? then 1 else 0
  {
    hide EntriesOf;
    var keys := KeysIn(EntriesOf(s), 6);
    var f := (r: nat) => PolicyKey(r);
    var g := (k: Key) => if k.PolicyKey? then k.revision else 0;
    forall r | r in s.policyHistory.Keys ensures f(r) in keys && g(f(r)) == r { EntriesLookup(s, f(r)); }
    forall k | k in keys ensures g(k) in s.policyHistory.Keys && f(g(k)) == k { EntriesLookup(s, k); }
    BijectionSize<nat, Key>(s.policyHistory.Keys, keys, f, g);
    EntriesLookup(s, CurrentPolicyKey);
    assert KeysIn(EntriesOf(s), 7) == if s.policy.Some? then {CurrentPolicyKey} else {};
  }

  // A consistent state is in scope

  lemma {:induction false} MentionsInScope(scope: nat, r: Record, t: RecordRef)
    requires HistoricalShape(scope, r) && t in ReverseOf(r)
    ensures t.scope == scope
  {
    var m :| m in RecordMentions(r) && m.target == t;
    if r.Claim? {
      assert m in EndpointMentions(r.body) ==> m.target in r.body.Endpoints();
      assert m in Mentions(ValueReferences(r.body.Payload()), PayloadRole(r.body)) ==>
        m.target in ValueReferences(r.body.Payload());
      assert m in Mentions(r.evidence, EvidenceRole) ==> m.target in r.evidence;
    }
  }

  lemma ContributionsInScope(scope: nat, r: Record)
    requires HistoricalShape(scope, r)
    ensures forall t :: t in OutgoingOf(r) || t in IncomingOf(r) || t in ProvenanceOf(r) || t in ReverseOf(r) ==>
      t.scope == scope
  {
    hide ReverseOf;
    forall t | t in ReverseOf(r) ensures t.scope == scope { MentionsInScope(scope, r, t); }
  }

  lemma IndexInScope<V(!new)>(s: Snapshot, index: Index<V>, contribution: Record -> map<RecordRef, V>)
    requires Matches(index, s.records, contribution)
    requires forall id :: id in s.records ==> id.scope == s.scope && forall t :: t in contribution(s.records[id]) ==>
      t.scope == s.scope
    ensures InScopeIndex(s.scope, index)
  {
  }

  lemma {:induction false} CurrentShape(s: Snapshot, id: RecordRef)
    requires HistoriesKept(s) && id in s.records
    ensures HistoricalShape(s.scope, s.records[id]) && id.scope == s.scope && s.records[id].id == id
  {
    assert GoodHistory(s.scope, id, s.history[id], s.revision);
  }

  lemma {:induction false} ConsistentInScope(s: Snapshot)
    requires HistoriesKept(s) && IndexesMatch(s)
    ensures InScopeIndex(s.scope, s.outgoing) && InScopeIndex(s.scope, s.incoming)
      && InScopeIndex(s.scope, s.provenance) && InScopeIndex(s.scope, s.reverse)
    ensures forall id :: id in s.records ==> id.scope == s.scope
  {
    hide HistoriesKept, Matches, OutgoingOf, IncomingOf, ProvenanceOf, ReverseOf, InScopeIndex;
    forall id | id in s.records
      ensures id.scope == s.scope
      ensures forall t :: t in OutgoingOf(s.records[id]) || t in IncomingOf(s.records[id]) ==> t.scope == s.scope
      ensures forall t :: t in ProvenanceOf(s.records[id]) || t in ReverseOf(s.records[id]) ==> t.scope == s.scope
    {
      CurrentShape(s, id);
      ContributionsInScope(s.scope, s.records[id]);
    }
    IndexInScope(s, s.outgoing, OutgoingOf);
    IndexInScope(s, s.incoming, IncomingOf);
    IndexInScope(s, s.provenance, ProvenanceOf);
    IndexInScope(s, s.reverse, ReverseOf);
  }

  lemma {:induction false} ConsistentServes(s: Snapshot)
    requires IndexesMatch(s) && WellKeyed(s.records)
    ensures IndexServes(s, Outgoing, s.outgoing) && IndexServes(s, Incoming, s.incoming)
    ensures IndexServes(s, Provenance, s.provenance) && IndexServes(s, Reverse, s.reverse)
  {
    hide Matches, WellKeyed, OutgoingOf, IncomingOf;
    forall l: nat, r: nat
      ensures EntryAt(s, PairKey(Outgoing, l, r)).Some?
        <==> Has(s.outgoing, RecordRef(s.scope, l), RecordRef(s.scope, r))
      ensures EntryAt(s, PairKey(Incoming, l, r)).Some?
        <==> Has(s.incoming, RecordRef(s.scope, l), RecordRef(s.scope, r))
    {
      NeighborIsThere(s, RecordRef(s.scope, l), RecordRef(s.scope, r));
    }
  }

  lemma NeighborIsThere(s: Snapshot, l: RecordRef, r: RecordRef)
    requires IndexesMatch(s)
    ensures Has(s.outgoing, l, r) || Has(s.incoming, l, r) ==> Neighbor(s.records, l, r).Some?
  {
  }

  lemma {:induction false} KeptAscend(s: Snapshot)
    requires HistoriesKept(s)
    ensures AllAscend(s.history)
  {
    forall id | id in s.history ensures Chronological(s.history[id]) {
      assert GoodHistory(s.scope, id, s.history[id], s.revision);
      IsAscending(s.history[id]);
    }
  }

  lemma {:induction false} IsAscending(versions: seq<Record>)
    requires forall k :: 0 < k < |versions| ==> versions[k - 1].ModifiedRevision() < versions[k].ModifiedRevision()
    ensures Chronological(versions)
  {
    if versions != [] {
      var n := |versions| - 1;
      IsAscending(versions[..n]);
      forall i | 0 <= i < n ensures versions[i].ModifiedRevision() < versions[n].ModifiedRevision() {
        assert versions[..n][i].ModifiedRevision() <= versions[..n][n - 1].ModifiedRevision();
      }
    }
  }

  function SizesOf(entries: Entries): Counts {
    [|KeysIn(entries, 0)|, |KeysIn(entries, 1)|, |KeysIn(entries, 2)|, |KeysIn(entries, 3)|,
     |KeysIn(entries, 4)|, |KeysIn(entries, 5)|, |KeysIn(entries, 6)|, |KeysIn(entries, 7)|]
  }

  /** Every metadata count is the number of entries in its slot. */
  lemma {:induction false} CountsAreSizes(s: Snapshot)
    requires HistoriesKept(s) && IndexesMatch(s) && WellKeyed(s.records)
    ensures MetadataCounts(s) == SizesOf(EntriesOf(s))
  {
    hide HistoriesKept, IndexesMatch, WellKeyed, EntriesOf, KeysIn, InScopeIndex, IndexServes, TotalOwners,
         TotalVersions, AllAscend;
    ConsistentInScope(s);
    RecordSlot(s);
    KeptAscend(s);
    SameKeys(s);
    VersionSlot(s);
    IndexSlots(s);
    PolicySlots(s);
  }

  lemma {:induction false} IndexSlots(s: Snapshot)
    requires HistoriesKept(s) && IndexesMatch(s) && WellKeyed(s.records)
    ensures |KeysIn(EntriesOf(s), 2)| == TotalOwners(s.outgoing, Sorted(s.outgoing.Keys))
    ensures |KeysIn(EntriesOf(s), 3)| == TotalOwners(s.incoming, Sorted(s.incoming.Keys))
    ensures |KeysIn(EntriesOf(s), 4)| == TotalOwners(s.provenance, Sorted(s.provenance.Keys))
    ensures |KeysIn(EntriesOf(s), 5)| == TotalOwners(s.reverse, Sorted(s.reverse.Keys))
  {
    hide HistoriesKept, IndexesMatch, WellKeyed, EntriesOf, KeysIn, TotalOwners, InScopeIndex, IndexServes;
    ConsistentInScope(s);
    ConsistentServes(s);
    IndexSlot(s, Outgoing, s.outgoing);
    IndexSlot(s, Incoming, s.incoming);
    IndexSlot(s, Provenance, s.provenance);
    IndexSlot(s, Reverse, s.reverse);
  }

  lemma SameKeys(s: Snapshot)
    requires HistoriesKept(s)
    ensures s.history.Keys == s.records.Keys
  {
  }
}
