/** Derived two-level indexes: a bucket of owners per key (crates/uste-graph/src/state.rs:2762-3096).
    A `BTreeSet` of owners is a bucket whose entries carry nothing, `map<RecordRef, ()>`. */
module Index {
  import opened Records

  type Index<V> = map<RecordRef, map<RecordRef, V>>

  function Bucket<V>(index: Index<V>, key: RecordRef): map<RecordRef, V> {
    if key in index then index[key] else map[]
  }

  predicate Has<V>(index: Index<V>, key: RecordRef, owner: RecordRef) {
    key in index && owner in index[key]
  }

  /** `entry(key).or_default().insert(owner, value)`. */
  function InsertEntry<V>(index: Index<V>, key: RecordRef, owner: RecordRef, value: V): Index<V> {
    index[key := Bucket(index, key)[owner := value]]
  }

  /** `remove_index_value`: drop one owner and an emptied bucket with it. */
  function RemoveEntry<V>(index: Index<V>, key: RecordRef, owner: RecordRef): Index<V> {
    if key !in index then index
    else
      var owners := index[key] - {owner};
      if owners.Keys == {} then index - {key} else index[key := owners]
  }

  /** All of one owner's entries added at once. */
  function AddContributions<V>(index: Index<V>, owner: RecordRef, entries: map<RecordRef, V>): Index<V> {
    map key | key in index.Keys + entries.Keys ::
      if key in entries then Bucket(index, key)[owner := entries[key]] else index[key]
  }

  /** All of one owner's entries under `keys` removed at once, without leaving an empty bucket. */
  function RemoveContributions<V>(index: Index<V>, owner: RecordRef, keys: set<RecordRef>): Index<V> {
    map key | key in index && (key in keys ==> (index[key] - {owner}).Keys != {}) ::
      if key in keys then index[key] - {owner} else index[key]
  }

  ghost predicate Compact<V>(index: Index<V>) {
    forall key :: key in index ==> index[key].Keys != {}
  }

  ghost predicate WellKeyed(records: map<RecordRef, Record>) {
    forall id :: id in records ==> records[id].id == id
  }

  /** `index` holds exactly what `contribution` assigns to the current records, and no empty bucket. */
  ghost predicate Matches<V(!new)>(index: Index<V>, records: map<RecordRef, Record>,
      contribution: Record -> map<RecordRef, V>) {
    && Compact(index)
    && (forall key, owner :: Has(index, key, owner) <==> owner in records && key in contribution(records[owner]))
    && (forall key, owner :: Has(index, key, owner) ==> index[key][owner] == contribution(records[owner])[key])
  }

  lemma {:induction false} MatchesUnique<V(!new)>(a: Index<V>, b: Index<V>, records: map<RecordRef, Record>,
      contribution: Record -> map<RecordRef, V>)
    requires Matches(a, records, contribution) && Matches(b, records, contribution)
    ensures a == b
  {
    forall key | key in a ensures key in b {
      var owner :| owner in a[key];
      assert Has(a, key, owner);
      assert Has(b, key, owner);
    }
    forall key | key in b ensures key in a {
      var owner :| owner in b[key];
      assert Has(b, key, owner);
      assert Has(a, key, owner);
    }
    forall key | key in a ensures a[key] == b[key] {
      assert forall owner :: owner in a[key] <==> Has(a, key, owner);
      assert forall owner :: owner in b[key] <==> Has(b, key, owner);
    }
  }

  function Before<V>(records: map<RecordRef, Record>, id: RecordRef,
      contribution: Record -> map<RecordRef, V>): map<RecordRef, V> {
    if id in records then contribution(records[id]) else map[]
  }

  /** Publishing one change by removing the old contribution and adding the new one keeps the index exact. */
  lemma {:induction false} ChangeKeepsMatch<V(!new)>(index: Index<V>, records: map<RecordRef, Record>,
      contribution: Record -> map<RecordRef, V>,
                                     id: RecordRef, after: Record)
    requires Matches(index, records, contribution)
    ensures Matches(AddContributions(RemoveContributions(index, id, Before(records, id, contribution).Keys), id,
      contribution(after)),
                    records[id := after], contribution)
  {
    var removed := RemoveContributions(index, id, Before(records, id, contribution).Keys);
    var added := AddContributions(removed, id, contribution(after));
    forall key, owner ensures Has(removed, key, owner) <==> Has(index, key, owner) && owner != id {
      assert Has(index, key, id) ==> key in Before(records, id, contribution);
      if Has(index, key, owner) && owner != id {
        assert owner in (index[key] - {id}).Keys;
      }
    }
    forall key, owner
      ensures Has(added, key, owner) <==> (owner == id && key in contribution(after)) || Has(removed, key, owner)
    {
    }
    forall key | key in added ensures added[key].Keys != {} {
      assert key in contribution(after) ==> id in added[key].Keys;
    }
  }

  /** Adding only, for a rebuild that meets each record once. */
  lemma {:induction false} InsertKeepsMatch<V(!new)>(index: Index<V>, records: map<RecordRef, Record>,
      contribution: Record -> map<RecordRef, V>,
                                     id: RecordRef, after: Record)
    requires Matches(index, records, contribution) && id !in records
    ensures Matches(AddContributions(index, id, contribution(after)), records[id := after], contribution)
  {
    ChangeKeepsMatch(index, records, contribution, id, after);
    assert RemoveContributions(index, id, Before(records, id, contribution).Keys) == index;
  }

  /** `rebuild_indexes` for one index: every record's contribution, in the order the map is walked. */
  function Rebuild<V>(records: map<RecordRef, Record>, ids: seq<RecordRef>,
      contribution: Record -> map<RecordRef, V>): Index<V> {
    if ids == [] then map[]
    else
      var front, last := Rebuild(records, ids[..|ids| - 1], contribution), ids[|ids| - 1];
      if last in records then AddContributions(front, last, contribution(records[last])) else front
  }

  lemma {:induction false} RebuildMatchesListed<V(!new)>(records: map<RecordRef, Record>, ids: seq<RecordRef>,
      contribution: Record -> map<RecordRef, V>)
    requires forall id :: id in ids ==> id in records
    requires forall i, j :: 0 <= i < j < |ids| ==> ids[i] != ids[j]
    ensures Matches(Rebuild(records, ids, contribution), map id | id in ids :: records[id], contribution)
  {
    if ids != [] {
      var front, last := ids[..|ids| - 1], ids[|ids| - 1];
      RebuildMatchesListed(records, front, contribution);
      var seen := map id | id in front :: records[id];
      assert last !in front;
      InsertKeepsMatch(Rebuild(records, front, contribution), seen, contribution, last, records[last]);
      assert ids == front + [last];
      assert seen[last := records[last]] == map id | id in ids :: records[id];
    }
  }

  /** The rebuilt index is the exact one, whatever order the records are visited in. */
  lemma {:induction false} RebuildMatches<V(!new)>(records: map<RecordRef, Record>,
      contribution: Record -> map<RecordRef, V>)
    ensures Matches(Rebuild(records, Sorted(records.Keys), contribution), records, contribution)
  {
    var ids := Sorted(records.Keys);
    RebuildMatchesListed(records, ids, contribution);
    assert (map id | id in ids :: records[id]) == records;
  }
}
