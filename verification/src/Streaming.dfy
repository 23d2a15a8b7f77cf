/** Fed the families of a consistent state in key order, the validator accepts and hashes exactly what the
    whole-snapshot digest hashes (crates/uste-graph/src/state_disk.rs:2639-2717, 2755-3062;
    crates/uste-graph/src/state.rs:751-820). */
module Streaming {
  import opened Base
  import opened Records
  import opened Index
  import opened References
  import opened Reducer
  import opened Publication
  import opened Invariant
  import opened Restore
  import opened Checkpoint
  import opened Families
  import opened Counting
  import opened Deltas
  import opened KeyOrder
  import opened DeltaBuilder
  import opened Validator

  /** What `digest_graph_snapshot` hashes, after its label. */
  ghost function DigestTokens(s: Snapshot): seq<Token> {
    [ScopeBytes(s.scope), Number(s.revision)] + RecordSection(s)
  }

  function FamilyKeys(entries: Entries, number: nat): set<Key> {
    set key | key in entries && FamilyNumber(FamilyOf(key)) == number
  }

  // Feeding a list of keys

  function ObserveAll(v: State, entries: Entries, keys: seq<Key>): Validator.Step {
    if keys == [] then Ok(v)
    else
      var n := |keys| - 1;
      var w :- ObserveAll(v, entries, keys[..n]);
      if keys[n] in entries && WellSized(w) then Observe(w, keys[n], entries[keys[n]]) else Err(CorruptIndex)
  }

  lemma ObserveNone(v: State, entries: Entries)
    ensures ObserveAll(v, entries, []) == Ok(v)
  {
  }

  lemma ObserveLast(v: State, entries: Entries, keys: seq<Key>, key: Key, w: State, content: Content)
    requires ObserveAll(v, entries, keys) == Ok(w) && WellSized(w) && Lookup(entries, key) == Some(content)
    ensures ObserveAll(v, entries, keys + [key]) == Observe(w, key, content)
  {
    assert (keys + [key])[..|keys|] == keys;
  }

  // Current records

  function RecordKeys(ids: seq<RecordRef>): seq<Key> {
    seq(|ids|, i requires 0 <= i < |ids| => RecordKey(ids[i].record))
  }

  lemma RecordTokensSnoc(records: map<RecordRef, Record>, ids: seq<RecordRef>, id: RecordRef)
    requires (forall i :: i in ids ==> i in records) && id in records
    ensures RecordTokens(records, ids + [id]) == RecordTokens(records, ids)
      + [Identity(id.record), RecordFrame(records[id])]
  {
    if ids == [] {
      assert ids + [id] == [id];
      assert RecordTokens(records, [id][1..]) == [];
    } else {
      assert (ids + [id])[1..] == ids[1..] + [id];
      RecordTokensSnoc(records, ids[1..], id);
    }
  }

  lemma {:induction false} RecordKeysMember(s: Snapshot, key: Key)
    requires forall id :: id in s.records ==> id.scope == s.scope
    ensures key in RecordKeys(Sorted(s.records.Keys)) <==> key.RecordKey? && RecordRef(s.scope, key.record) in s.records
  {
    var ids := Sorted(s.records.Keys);
    var keys := RecordKeys(ids);
    if key in keys {
      var i :| 0 <= i < |keys| && keys[i] == key;
      assert ids[i] in s.records.Keys;
    }
    if key.RecordKey? && RecordRef(s.scope, key.record) in s.records.Keys {
      assert RecordRef(s.scope, key.record) in ids;
      var i :| 0 <= i < |ids| && ids[i] == RecordRef(s.scope, key.record);
      assert keys[i] == key;
    }
  }

  lemma RecordKeysIncrease(s: Snapshot)
    requires forall id :: id in s.records ==> id.scope == s.scope
    ensures Increasing(RecordKeys(Sorted(s.records.Keys)), KeyLess)
  {
    var ids := Sorted(s.records.Keys);
    var keys := RecordKeys(ids);
    forall i, j | 0 <= i < j < |keys| ensures KeyLess(keys[i], keys[j]) {
      assert ids[i] in s.records.Keys && ids[j] in s.records.Keys && Less(ids[i], ids[j]);
    }
  }

  lemma {:induction false} RecordKeysSorted(s: Snapshot)
    requires forall id :: id in s.records ==> id.scope == s.scope
    ensures SortedKeys(FamilyKeys(EntriesOf(s), 2)) == RecordKeys(Sorted(s.records.Keys))
  {
    hide EntriesOf, KeyLess, RecordKeys, FamilyKeys;
    RecordKeysIncrease(s);
    var keys := RecordKeys(Sorted(s.records.Keys));
    forall key ensures key in keys <==> key in FamilyKeys(EntriesOf(s), 2) {
      RecordKeysMember(s, key);
      RecordFamilyKey(s, key);
    }
    SortedKeysUnique(keys, FamilyKeys(EntriesOf(s), 2));
  }

  lemma RecordFamilyKey(s: Snapshot, key: Key)
    ensures key in FamilyKeys(EntriesOf(s), 2) <==> key.RecordKey? && RecordRef(s.scope, key.record) in s.records
  {
    hide EntriesOf;
    EntriesLookup(s, key);
  }

  /** The current entry of `id` is there and passes the validator's checks. */
  ghost predicate RecordServed(s: Snapshot, id: RecordRef) {
    && id in s.records && Lookup(EntriesOf(s), RecordKey(id.record)) == Some(RecordContent(s.records[id]))
    && id.scope == s.scope && s.records[id].id == id && s.records[id].ModifiedRevision() <= s.revision
  }

  function AfterRecords(v: State, s: Snapshot, ids: seq<RecordRef>): State
    requires forall id :: id in ids ==> id in s.records
  {
    v.(digest := v.digest + RecordTokens(s.records, ids), currentSeen := v.currentSeen + |ids|)
  }

  lemma {:induction false} RecordObserved(v: State, s: Snapshot, ids: seq<RecordRef>, id: RecordRef)
    requires WellSized(v) && v.nextFamily == 2 && v.scope == s.scope && v.revision == s.revision
    requires (forall i :: i in ids ==> i in s.records) && RecordServed(s, id)
    ensures Observe(AfterRecords(v, s, ids), RecordKey(id.record), RecordContent(s.records[id]))
      == Ok(AfterRecords(v, s, ids + [id]))
  {
    hide EntriesOf, RecordTokens;
    RecordTokensSnoc(s.records, ids, id);
    var tail := [Identity(id.record), RecordFrame(s.records[id])];
    assert (v.digest + RecordTokens(s.records, ids)) + tail == v.digest + (RecordTokens(s.records, ids) + tail);
  }

  lemma {:induction false} CurrentObserved(v: State, s: Snapshot, ids: seq<RecordRef>)
    requires WellSized(v) && v.nextFamily == 2 && v.scope == s.scope && v.revision == s.revision
    requires forall id :: id in ids ==> id in s.records
    requires forall id :: id in ids ==> RecordServed(s, id)
    ensures ObserveAll(v, EntriesOf(s), RecordKeys(ids)) == Ok(AfterRecords(v, s, ids))
  {
    hide EntriesOf, Observe, ObserveAll;
    if ids == [] {
      assert v.digest + RecordTokens(s.records, []) == v.digest;
      ObserveNone(v, EntriesOf(s));
    } else {
      var front, id := ids[..|ids| - 1], ids[|ids| - 1];
      assert RecordServed(s, id);
      CurrentObserved(v, s, front);
      assert ids == front + [id] && RecordKeys(ids) == RecordKeys(front) + [RecordKey(id.record)];
      ObserveLast(v, EntriesOf(s), RecordKeys(front), RecordKey(id.record), AfterRecords(v, s, front),
        RecordContent(s.records[id]));
      RecordObserved(v, s, front, id);
    }
  }

  // Histories

  function VersionKeys(id: RecordRef, versions: seq<Record>): seq<Key> {
    seq(|versions|, i requires 0 <= i < |versions| => VersionKey(id.record, versions[i].ModifiedRevision()))
  }

  function HistoryKeys(history: map<RecordRef, seq<Record>>, ids: seq<RecordRef>): seq<Key>
    requires forall id :: id in ids ==> id in history
  {
    if ids == [] then []
    else HistoryKeys(history, ids[..|ids| - 1]) + VersionKeys(ids[|ids| - 1], history[ids[|ids| - 1]])
  }

  lemma {:induction false} HistoryTokensSnoc(history: map<RecordRef, seq<Record>>, ids: seq<RecordRef>, id: RecordRef)
    requires (forall i :: i in ids ==> i in history) && id in history
    ensures HistoryTokens(history, ids + [id]) == HistoryTokens(history, ids)
      + ([Identity(id.record), Number(|history[id]|)] + VersionTokens(history[id]))
  {
    if ids == [] {
      assert ids + [id] == [id];
      assert HistoryTokens(history, [id][1..]) == [];
    } else {
      assert (ids + [id])[1..] == ids[1..] + [id];
      HistoryTokensSnoc(history, ids[1..], id);
    }
  }

  lemma {:induction false} VersionTokensSnoc(versions: seq<Record>, r: Record)
    ensures VersionTokens(versions + [r]) == VersionTokens(versions) + [RecordFrame(r)]
  {
    if versions == [] {
      assert versions + [r] == [r];
      assert VersionTokens([r][1..]) == [];
    } else {
      assert (versions + [r])[1..] == versions[1..] + [r];
      VersionTokensSnoc(versions[1..], r);
    }
  }

  /** The validator part-way through the group of `id`, with everything before it flushed. */
  function InGroup(v: State, id: RecordRef, versions: seq<Record>): State {
    v.(groupId := Some(id.record), groupVersions := |versions|, groupTokens := VersionTokens(versions),
      historySeen := v.historySeen + |versions|)
  }

  ghost predicate VersionsServed(s: Snapshot, id: RecordRef) {
    && id in s.history && s.history[id] != [] && id.scope == s.scope
    && forall k :: 0 <= k < |s.history[id]| ==> VersionServedAt(s, id, k)
  }

  ghost predicate VersionServedAt(s: Snapshot, id: RecordRef, k: nat)
    requires id in s.history && k < |s.history[id]|
  {
    var r := s.history[id][k];
    && Lookup(EntriesOf(s), VersionKey(id.record, r.ModifiedRevision())) == Some(RecordContent(r))
    && r.id == id && 1 <= r.ModifiedRevision() <= s.revision
  }

  /** The validator between groups: the last group may still be buffered. */
  ghost predicate Flushes(v: State, w: State) {
    FlushHistoryGroup(v) == Ok(w) && w.groupId.None? && w.groupVersions == 0 && w.groupTokens == []
  }

  lemma {:induction false} FirstVersionObserved(v: State, w: State, s: Snapshot, id: RecordRef)
    requires v.nextFamily == 3 && WellSized(v) && v.scope == s.scope && v.revision == s.revision
    requires Flushes(v, w) && VersionsServed(s, id) && v.groupId != Some(id.record)
    ensures Observe(v, VersionKey(id.record, s.history[id][0].ModifiedRevision()), RecordContent(s.history[id][0]))
      == Ok(InGroup(w, id, s.history[id][..1]))
  {
    hide EntriesOf;
    assert VersionServedAt(s, id, 0);
    var r := s.history[id][0];
    assert s.history[id][..1] == [r];
    assert VersionTokens([r]) == [RecordFrame(r)] by { assert VersionTokens([r][1..]) == []; }
    assert [] + [RecordFrame(r)] == [RecordFrame(r)];
  }

  lemma {:induction false} NextVersionObserved(w: State, s: Snapshot, id: RecordRef, k: nat)
    requires w.nextFamily == 3 && WellSized(w) && w.scope == s.scope && w.revision == s.revision
    requires VersionsServed(s, id) && 0 < k < |s.history[id]|
    ensures Observe(InGroup(w, id, s.history[id][..k]), VersionKey(id.record, s.history[id][k].ModifiedRevision()),
      RecordContent(s.history[id][k]))
      == Ok(InGroup(w, id, s.history[id][..k + 1]))
  {
    hide EntriesOf, VersionTokens;
    assert VersionServedAt(s, id, k);
    assert s.history[id][..k + 1] == s.history[id][..k] + [s.history[id][k]];
    VersionTokensSnoc(s.history[id][..k], s.history[id][k]);
  }

  /** One whole group, read while the previous one may still be buffered. */
  lemma {:induction false} GroupObserved(u: State, v: State, w: State, s: Snapshot, id: RecordRef, keys: seq<Key>,
      k: nat)
    requires ObserveAll(u, EntriesOf(s), keys) == Ok(v) && v.nextFamily == 3 && WellSized(v) && v.scope == s.scope
      && v.revision == s.revision
    requires Flushes(v, w) && VersionsServed(s, id) && v.groupId != Some(id.record) && 0 < k <= |s.history[id]|
    ensures ObserveAll(u, EntriesOf(s), keys + VersionKeys(id, s.history[id][..k]))
      == Ok(InGroup(w, id, s.history[id][..k]))
    decreases k
  {
    hide EntriesOf, Observe, ObserveAll, VersionTokens;
    var versions := s.history[id];
    var key := VersionKey(id.record, versions[k - 1].ModifiedRevision());
    assert VersionServedAt(s, id, k - 1);
    assert VersionKeys(id, versions[..k]) == VersionKeys(id, versions[..k - 1]) + [key];
    assert keys + VersionKeys(id, versions[..k]) == (keys + VersionKeys(id, versions[..k - 1])) + [key];
    if k == 1 {
      assert keys + VersionKeys(id, versions[..0]) == keys;
      ObserveLast(u, EntriesOf(s), keys, key, v, RecordContent(versions[0]));
      FirstVersionObserved(v, w, s, id);
    } else {
      GroupObserved(u, v, w, s, id, keys, k - 1);
      ObserveLast(u, EntriesOf(s), keys + VersionKeys(id, versions[..k - 1]), key, InGroup(w, id, versions[..k - 1]),
        RecordContent(versions[k - 1]));
      NextVersionObserved(w, s, id, k - 1);
    }
  }

  /** The validator after all groups of `ids`, once the last buffered one is flushed. */
  function AfterHistories(v: State, s: Snapshot, ids: seq<RecordRef>): State
    requires forall id :: id in ids ==> id in s.history
  {
    v.(digest := v.digest + HistoryTokens(s.history, ids), historySeen := v.historySeen + TotalVersions(s.history, ids),
       historyGroups := v.historyGroups + |ids|)
  }

  lemma {:induction false} TotalVersionsSnoc(history: map<RecordRef, seq<Record>>, ids: seq<RecordRef>, id: RecordRef)
    requires (forall i :: i in ids ==> i in history) && id in history
    ensures TotalVersions(history, ids + [id]) == TotalVersions(history, ids) + |history[id]|
  {
    if ids == [] {
      assert ids + [id] == [id];
      assert TotalVersions(history, [id][1..]) == 0;
    } else {
      assert (ids + [id])[1..] == ids[1..] + [id];
      TotalVersionsSnoc(history, ids[1..], id);
    }
  }

  lemma {:induction false} GroupFlushes(v: State, s: Snapshot, ids: seq<RecordRef>, id: RecordRef)
    requires (forall i :: i in ids ==> i in s.history) && id in s.history && s.history[id] != []
    requires v.groupId.None? && v.groupVersions == 0 && v.groupTokens == []
    ensures Flushes(InGroup(AfterHistories(v, s, ids), id, s.history[id]), AfterHistories(v, s, ids + [id]))
  {
    hide HistoryTokens, TotalVersions, VersionTokens;
    HistoryTokensSnoc(s.history, ids, id);
    TotalVersionsSnoc(s.history, ids, id);
    var tail := [Identity(id.record), Number(|s.history[id]|)] + VersionTokens(s.history[id]);
    assert (v.digest + HistoryTokens(s.history, ids)) + tail == v.digest + (HistoryTokens(s.history, ids) + tail);
  }

  ghost predicate HistoriesObserved(v: State, s: Snapshot, ids: seq<RecordRef>, w: State)
    requires forall id :: id in ids ==> id in s.history
  {
    && ObserveAll(v, EntriesOf(s), HistoryKeys(s.history, ids)) == Ok(w)
    && Flushes(w, AfterHistories(v, s, ids))
    && w.nextFamily == 3 && WellSized(w) && w.scope == s.scope && w.revision == s.revision
    && (w.groupId.None? <==> ids == []) && (ids != [] ==> w.groupId == Some(ids[|ids| - 1].record))
  }

  lemma {:induction false} AllGroupsObserved(v: State, s: Snapshot, ids: seq<RecordRef>) returns (w: State)
    requires v.nextFamily == 3 && WellSized(v) && v.scope == s.scope && v.revision == s.revision
    requires v.groupId.None? && v.groupVersions == 0 && v.groupTokens == []
    requires forall id :: id in ids ==> id in s.history
    requires forall id :: id in ids ==> VersionsServed(s, id)
    requires forall i, j :: 0 <= i < j < |ids| ==> ids[i].record != ids[j].record
    ensures HistoriesObserved(v, s, ids, w)
  {
    hide EntriesOf, ObserveAll;
    if ids == [] {
      w := v;
      ObserveNone(v, EntriesOf(s));
      assert v.digest + HistoryTokens(s.history, []) == v.digest;
    } else {
      var front, id := ids[..|ids| - 1], ids[|ids| - 1];
      var before := AllGroupsObserved(v, s, front);
      hide AfterHistories, Flushes, VersionTokens;
      assert ids == front + [id];
      assert VersionsServed(s, id);
      assert before.groupId != Some(id.record);
      assert s.history[id][..|s.history[id]|] == s.history[id];
      GroupObserved(v, before, AfterHistories(v, s, front), s, id, HistoryKeys(s.history, front), |s.history[id]|);
      GroupFlushes(v, s, front, id);
      w := InGroup(AfterHistories(v, s, front), id, s.history[id]);
      AfterHistoriesShape(v, s, front);
    }
  }

  lemma AfterHistoriesShape(v: State, s: Snapshot, ids: seq<RecordRef>)
    requires forall id :: id in ids ==> id in s.history
    ensures var w := AfterHistories(v, s, ids);
      w.nextFamily == v.nextFamily && w.counts == v.counts && w.secondarySeen == v.secondarySeen && w.scope == v.scope
        && w.revision == v.revision
  {
  }

  // The history family lists its keys group by group

  lemma VersionKeysMember(id: RecordRef, versions: seq<Record>, key: Key)
    ensures key in VersionKeys(id, versions)
      <==> key.VersionKey? && key.record == id.record && key.revision in Revisions(versions)
  {
    var keys := VersionKeys(id, versions);
    if key in keys {
      var k :| 0 <= k < |keys| && keys[k] == key;
      assert versions[k].ModifiedRevision() == key.revision;
    }
    if key.VersionKey? && key.record == id.record && key.revision in Revisions(versions) {
      var k :| 0 <= k < |versions| && versions[k].ModifiedRevision() == key.revision;
      assert keys[k] == key;
    }
  }

  lemma {:induction false} HistoryKeysMember(history: map<RecordRef, seq<Record>>, ids: seq<RecordRef>, key: Key)
    requires forall id :: id in ids ==> id in history
    ensures key in HistoryKeys(history, ids)
      <==> key.VersionKey? && exists i ::
        0 <= i < |ids| && ids[i].record == key.record && key.revision in Revisions(history[ids[i]])
  {
    hide Revisions;
    if ids != [] {
      var n := |ids| - 1;
      var front := ids[..n];
      HistoryKeysMember(history, front, key);
      VersionKeysMember(ids[n], history[ids[n]], key);
      if i :|
        0 <= i < |ids| && key.VersionKey? && ids[i].record == key.record && key.revision in Revisions(history[ids[i]]) {
        assert i < n ==> front[i] == ids[i];
      }
      if i :|
        0 <= i < |front| && key.VersionKey? && front[i].record == key.record
        && key.revision in Revisions(history[front[i]]) {
        assert ids[i].record == key.record;
      }
    }
  }

  lemma {:induction false} HistoryKeysIncrease(history: map<RecordRef, seq<Record>>, ids: seq<RecordRef>)
    requires (forall id :: id in ids ==> id in history) && AllAscend(history)
    requires forall i, j :: 0 <= i < j < |ids| ==> ids[i].record < ids[j].record
    ensures Increasing(HistoryKeys(history, ids), KeyLess)
  {
    if ids != [] {
      var n := |ids| - 1;
      var front, last := ids[..n], VersionKeys(ids[n], history[ids[n]]);
      HistoryKeysIncrease(history, front);
      var a := HistoryKeys(history, front);
      forall k | 0 <= k < |a| ensures a[k].VersionKey? && a[k].record < ids[n].record {
        HistoryKeysMember(history, front, a[k]);
        assert a[k] in a;
      }
      forall i, j | 0 <= i < j < |a + last| ensures KeyLess((a + last)[i], (a + last)[j]) {}
    }
  }

  lemma {:induction false} HistoryKeysSorted(s: Snapshot)
    requires AllAscend(s.history) && forall id :: id in s.history ==> id.scope == s.scope
    ensures SortedKeys(FamilyKeys(EntriesOf(s), 3)) == HistoryKeys(s.history, Sorted(s.history.Keys))
  {
    hide EntriesOf, KeyLess, AllAscend, Revisions, FamilyKeys;
    var ids := Sorted(s.history.Keys);
    SortedRecords(s.history.Keys, s.scope);
    HistoryKeysIncrease(s.history, ids);
    forall key ensures key in HistoryKeys(s.history, ids) <==> key in FamilyKeys(EntriesOf(s), 3) {
      HistoryKeysMember(s.history, ids, key);
      HistoryFamilyKey(s, key);
      if key.VersionKey? && RecordRef(s.scope, key.record) in s.history {
        assert RecordRef(s.scope, key.record) in ids;
        var i :| 0 <= i < |ids| && ids[i] == RecordRef(s.scope, key.record);
      }
    }
    SortedKeysUnique(HistoryKeys(s.history, ids), FamilyKeys(EntriesOf(s), 3));
  }

  lemma SortedRecords(ids: set<RecordRef>, scope: nat)
    requires forall id :: id in ids ==> id.scope == scope
    ensures forall i, j :: 0 <= i < j < |Sorted(ids)| ==> Sorted(ids)[i].record < Sorted(ids)[j].record
    ensures forall i :: 0 <= i < |Sorted(ids)| ==> Sorted(ids)[i].scope == scope
  {
    var s := Sorted(ids);
    forall i, j | 0 <= i < j < |s| ensures s[i].record < s[j].record {
      assert s[i] in ids && s[j] in ids && Less(s[i], s[j]);
    }
    forall i | 0 <= i < |s| ensures s[i].scope == scope { assert s[i] in ids; }
  }

  lemma {:induction false} HistoryFamilyKey(s: Snapshot, key: Key)
    ensures key in FamilyKeys(EntriesOf(s), 3)
      <==> key.VersionKey? && RecordRef(s.scope, key.record) in s.history
           && key.revision in Revisions(s.history[RecordRef(s.scope, key.record)])
  {
    hide EntriesOf, Revisions, VersionAt;
    EntriesLookup(s, key);
    if key.VersionKey? {
      VersionServed(VersionsOf(s.history, RecordRef(s.scope, key.record)), key.revision);
      NoRevisions();
    }
  }

  // Secondary families: only shapes and counts matter

  ghost predicate SecondaryServed(v: State, entries: Entries, number: nat, key: Key) {
    && key.PairKey? && key in entries && 4 <= number <= 7 && FamilyNumber(key.family) == number
    && ValidSecondary(v, key.family, entries[key])
  }

  function AfterSecondary(v: State, number: nat, n: nat): State
    requires WellSized(v) && 4 <= number <= 7
  {
    v.(secondarySeen := v.secondarySeen[number - 4 := v.secondarySeen[number - 4] + n])
  }

  lemma {:induction false} SecondaryObserved(v: State, entries: Entries, number: nat, keys: seq<Key>)
    requires WellSized(v) && 4 <= number <= 7 && v.nextFamily == number
    requires forall key :: key in keys ==> SecondaryServed(v, entries, number, key)
    ensures ObserveAll(v, entries, keys) == Ok(AfterSecondary(v, number, |keys|))
  {
    hide ValidReverse;
    if keys == [] {
      assert v.secondarySeen[number - 4 := v.secondarySeen[number - 4]] == v.secondarySeen;
      ObserveNone(v, entries);
    } else {
      hide ObserveAll;
      var front, key := keys[..|keys| - 1], keys[|keys| - 1];
      assert SecondaryServed(v, entries, number, key);
      SecondaryObserved(v, entries, number, front);
      assert keys == front + [key];
      ObserveLast(v, entries, front, key, AfterSecondary(v, number, |front|), entries[key]);
      hide Observe;
      SecondaryStep(v, entries, number, key, |front|);
    }
  }

  lemma SecondaryStep(v: State, entries: Entries, number: nat, key: Key, n: nat)
    requires WellSized(v) && 4 <= number <= 7 && v.nextFamily == number && SecondaryServed(v, entries, number, key)
    ensures Observe(AfterSecondary(v, number, n), key, entries[key]) == Ok(AfterSecondary(v, number, n + 1))
  {
    hide ValidReverse;
    var seen, i := v.secondarySeen, number - 4;
    assert seen[i := seen[i] + n][i := seen[i] + n + 1] == seen[i := seen[i] + n + 1];
  }

  lemma {:induction false} MentionRolesAllowed(r: Record, m: Mention)
    requires m in RecordMentions(r)
    ensures AllowedRoles(Describe(r, {})).Some? && m.role in AllowedRoles(Describe(r, {})).value
  {
    if r.Claim? {
      assert m in EndpointMentions(r.body) ==> m.role in ClaimRolesAllowed(Describe(r, {}).ownerKind);
      assert m in Mentions(ValueReferences(r.body.Payload()), PayloadRole(r.body)) ==> m.role == PayloadRole(r.body);
      assert m in Mentions(r.evidence, EvidenceRole) ==> m.role == EvidenceRole;
    }
  }

  lemma {:induction false} ReverseIsValid(r: Record, t: RecordRef, revision: nat)
    requires t in ReverseOf(r) && r.version >= 1 && 1 <= r.ModifiedRevision() <= revision
    ensures ValidReverse(ReverseOf(r)[t], revision)
  {
    hide RecordMentions, AllowedRoles;
    var m :| m in RecordMentions(r) && m.target == t;
    assert m.role in Roles(r, t);
    MentionRolesAllowed(r, m);
    forall role | role in Roles(r, t) ensures role in AllowedRoles(Describe(r, {})).value {
      var n :| n in RecordMentions(r) && n.target == t && n.role == role;
      MentionRolesAllowed(r, n);
    }
    RolesDoNotMatter(r, Roles(r, t));
  }

  lemma RolesDoNotMatter(r: Record, roles: set<Role>)
    ensures AllowedRoles(Describe(r, roles)) == AllowedRoles(Describe(r, {}))
    ensures Describe(r, roles).roles == roles && Describe(r, roles).ownerVersion == r.version
      && Describe(r, roles).ownerRevision == r.ModifiedRevision()
  {
  }

  lemma {:induction false} SecondaryIsServed(v: State, s: Snapshot, number: nat, key: Key)
    requires HistoriesKept(s) && IndexesMatch(s) && WellKeyed(s.records) && v.revision == s.revision
    requires 4 <= number <= 7 && key in FamilyKeys(EntriesOf(s), number)
    ensures SecondaryServed(v, EntriesOf(s), number, key)
  {
    hide EntriesOf, IndexesMatch, WellKeyed, HistoriesKept, ReverseOf, OutgoingOf, IncomingOf, ProvenanceOf,
         ValidReverse;
    EntriesLookup(s, key);
    EntryIsOwned(s, key);
    var id := Owner(s.scope, key);
    if key.family == Reverse {
      KeptIsVersioned(s, id);
      ReverseIsValid(s.records[id], RecordRef(s.records[id].id.scope, key.left), s.revision);
    }
  }

  lemma KeptIsVersioned(s: Snapshot, id: RecordRef)
    requires HistoriesKept(s) && id in s.records
    ensures s.records[id].version >= 1 && 1 <= s.records[id].ModifiedRevision() <= s.revision
  {
    assert GoodHistory(s.scope, id, s.history[id], s.revision);
  }

  lemma FamilyIsSlot(entries: Entries, number: nat)
    requires 4 <= number <= 7
    ensures FamilyKeys(entries, number) == KeysIn(entries, number - 2)
  {
  }

  // Policy family

  function PolicyKeys(revisions: seq<nat>): seq<Key> {
    seq(|revisions|, i requires 0 <= i < |revisions| => PolicyKey(revisions[i]))
  }

  lemma {:induction false} PolicyTokensSnoc(policies: map<nat, NamespacePolicy>, revisions: seq<nat>, r: nat)
    requires (forall q :: q in revisions ==> q in policies) && r in policies
    ensures PolicyTokens(policies, revisions + [r])
      == PolicyTokens(policies, revisions) + [Number(r), PolicyFrame(Some(policies[r]))]
  {
    if revisions == [] {
      assert revisions + [r] == [r];
      assert PolicyTokens(policies, [r][1..]) == [];
    } else {
      assert (revisions + [r])[1..] == revisions[1..] + [r];
      PolicyTokensSnoc(policies, revisions[1..], r);
    }
  }

  function AfterPolicies(v: State, s: Snapshot, revisions: seq<nat>): State
    requires forall r :: r in revisions ==> r in s.policyHistory
  {
    v.(digest := v.digest + PolicyTokens(s.policyHistory, revisions), policyHistorySeen := v.policyHistorySeen
      + |revisions|)
  }

  lemma {:induction false} PolicyObserved(v: State, s: Snapshot, revisions: seq<nat>, r: nat)
    requires WellSized(v) && v.nextFamily == 8 && v.scope == s.scope && v.revision == s.revision && v.policyCurrentSeen
    requires (forall q :: q in revisions ==> q in s.policyHistory) && r in s.policyHistory && 1 <= r <= s.revision
      && s.policyHistory[r].scope == s.scope
    ensures Observe(AfterPolicies(v, s, revisions), PolicyKey(r), PolicyContent(s.policyHistory[r]))
      == Ok(AfterPolicies(v, s, revisions + [r]))
  {
    hide PolicyTokens;
    PolicyTokensSnoc(s.policyHistory, revisions, r);
    var tail := [Number(r), PolicyFrame(Some(s.policyHistory[r]))];
    assert (v.digest + PolicyTokens(s.policyHistory, revisions)) + tail
      == v.digest + (PolicyTokens(s.policyHistory, revisions) + tail);
  }

  lemma {:induction false} PoliciesObserved(u: State, v: State, s: Snapshot, keys: seq<Key>, revisions: seq<nat>)
    requires ObserveAll(u, EntriesOf(s), keys) == Ok(v)
    requires WellSized(v) && v.nextFamily == 8 && v.scope == s.scope && v.revision == s.revision && v.policyCurrentSeen
    requires forall r :: r in revisions ==> r in s.policyHistory
    requires forall r :: r in revisions ==> 1 <= r <= s.revision && s.policyHistory[r].scope == s.scope
    ensures ObserveAll(u, EntriesOf(s), keys + PolicyKeys(revisions)) == Ok(AfterPolicies(v, s, revisions))
  {
    hide EntriesOf, Observe, ObserveAll;
    if revisions == [] {
      assert keys + PolicyKeys([]) == keys && v.digest + PolicyTokens(s.policyHistory, []) == v.digest;
    } else {
      var front, r := revisions[..|revisions| - 1], revisions[|revisions| - 1];
      PoliciesObserved(u, v, s, keys, front);
      assert revisions == front + [r];
      assert keys + PolicyKeys(revisions) == (keys + PolicyKeys(front)) + [PolicyKey(r)];
      EntriesLookup(s, PolicyKey(r));
      ObserveLast(u, EntriesOf(s), keys + PolicyKeys(front), PolicyKey(r), AfterPolicies(v, s, front),
        PolicyContent(s.policyHistory[r]));
      PolicyObserved(v, s, front, r);
    }
  }

  ghost function PolicyKeyList(s: Snapshot): seq<Key> {
    (if s.policy.Some? then [CurrentPolicyKey] else []) + PolicyKeys(SortedRevisions(s.policyHistory.Keys))
  }

  lemma {:induction false} PolicyListMember(s: Snapshot, key: Key)
    ensures key in PolicyKeyList(s)
      <==> (key.CurrentPolicyKey? && s.policy.Some?) || (key.PolicyKey? && key.revision in s.policyHistory)
  {
    var revisions := SortedRevisions(s.policyHistory.Keys);
    var tail := PolicyKeys(revisions);
    if key in tail { var i :| 0 <= i < |tail| && tail[i] == key; assert revisions[i] in s.policyHistory.Keys; }
    if key.PolicyKey? && key.revision in s.policyHistory.Keys {
      assert key.revision in revisions;
      var i :| 0 <= i < |revisions| && revisions[i] == key.revision;
      assert tail[i] == key;
    }
    assert forall k :: k in PolicyKeyList(s) <==> (k in tail || (s.policy.Some? && k == CurrentPolicyKey));
  }

  lemma PolicyKeysIncrease(revisions: seq<nat>)
    requires Increasing(revisions, Earlier)
    ensures Increasing(PolicyKeys(revisions), KeyLess)
  {
    var keys := PolicyKeys(revisions);
    forall i, j | 0 <= i < j < |keys| ensures KeyLess(keys[i], keys[j]) { assert Earlier(revisions[i], revisions[j]); }
  }

  lemma PrependIncreases(x: Key, tail: seq<Key>)
    requires Increasing(tail, KeyLess) && forall k :: 0 <= k < |tail| ==> KeyLess(x, tail[k])
    ensures Increasing([x] + tail, KeyLess)
  {
    hide KeyLess;
    var keys := [x] + tail;
    assert forall j :: 0 < j < |keys| ==> keys[j] == tail[j - 1];
  }

  lemma PolicyListIncreases(s: Snapshot)
    ensures Increasing(PolicyKeyList(s), KeyLess)
  {
    var revisions := SortedRevisions(s.policyHistory.Keys);
    var tail := PolicyKeys(revisions);
    PolicyKeysIncrease(revisions);
    forall k | 0 <= k < |tail| ensures KeyLess(CurrentPolicyKey, tail[k]) { assert tail[k] == PolicyKey(revisions[k]); }
    hide Increasing, KeyLess;
    PrependIncreases(CurrentPolicyKey, tail);
    assert [] + tail == tail;
  }

  lemma {:induction false} PolicyKeysSorted(s: Snapshot)
    ensures SortedKeys(FamilyKeys(EntriesOf(s), 8)) == PolicyKeyList(s)
  {
    hide EntriesOf, PolicyKeyList, FamilyKeys, KeyLess;
    PolicyListIncreases(s);
    forall key ensures key in PolicyKeyList(s) <==> key in FamilyKeys(EntriesOf(s), 8) {
      PolicyListMember(s, key);
      PolicyFamilyKey(s, key);
    }
    SortedKeysUnique(PolicyKeyList(s), FamilyKeys(EntriesOf(s), 8));
  }

  lemma PolicyFamilyKey(s: Snapshot, key: Key)
    ensures key in FamilyKeys(EntriesOf(s), 8)
      <==> (key.CurrentPolicyKey? && s.policy.Some?) || (key.PolicyKey? && key.revision in s.policyHistory)
  {
    hide EntriesOf;
    EntriesLookup(s, key);
  }

  // All eight families

  ghost function StreamFamily(v: State, entries: Entries, number: nat): Validator.Step {
    var w :- ObserveAll(v, entries, SortedKeys(FamilyKeys(entries, number)));
    if WellSized(w) then FinishFamily(w, number) else Err(CorruptIndex)
  }

  /** The loop over the remaining families. */
  ghost function StreamFrom(v: State, entries: Entries, number: nat): Validator.Step
    decreases FAMILY_COUNT + 1 - number
  {
    if number > FAMILY_COUNT then Ok(v)
    else
      var w :- StreamFamily(v, entries, number);
      StreamFrom(w, entries, number + 1)
  }

  ghost function StreamedDigest(scope: nat, revision: nat, counts: Counts, entries: Entries): Result<seq<Token>,
      DiskError>
    requires |counts| == SLOTS
  {
    var v :- New(scope, revision, counts);
    var w :- StreamFrom(v, entries, 1);
    Finish(w)
  }

  /** The validator ready for family `number` of `s`, with nothing counted or buffered for it yet. */
  ghost predicate Ready(v: State, s: Snapshot, number: nat) {
    && WellSized(v) && v.scope == s.scope && v.revision == s.revision && v.counts == MetadataCounts(s)
    && v.nextFamily == number
    && (number <= 1 ==> v.metadataSeen == 0)
    && (number <= 2 ==> v.currentSeen == 0)
    && (number <= 3 ==> v.historySeen == 0 && v.historyGroups == 0)
    && v.groupId.None? && v.groupVersions == 0 && v.groupTokens == []
    && (forall i :: 0 <= i < 4 && number <= i + 4 ==> v.secondarySeen[i] == 0)
    && !v.policyCurrentSeen && v.policyHistorySeen == 0
  }

  /** What family `number` adds to the digest. */
  ghost function FamilyTokens(s: Snapshot, number: nat): seq<Token> {
    if number == 2 then RecordTokens(s.records, Sorted(s.records.Keys)) + [Number(|s.history|)]
    else if number == 3 then HistoryTokens(s.history, Sorted(s.history.Keys))
    else if number == 8
      then [PolicyFrame(s.policy), Number(|s.policyHistory|)]
      + PolicyTokens(s.policyHistory, SortedRevisions(s.policyHistory.Keys))
    else []
  }

  ghost predicate Streams(v: State, s: Snapshot, number: nat, w: State) {
    && StreamFamily(v, EntriesOf(s), number) == Ok(w)
    && w.digest == v.digest + FamilyTokens(s, number) && w.nextFamily == number + 1
    && (number < 8 ==> Ready(w, s, number + 1))
  }

  lemma MetadataFamilyKey(s: Snapshot, key: Key)
    ensures key in FamilyKeys(EntriesOf(s), 1) <==> key == MetadataKey
  {
    hide EntriesOf, MetadataCounts;
    EntriesLookup(s, key);
  }

  lemma {:induction false} MetadataKeysSorted(s: Snapshot)
    ensures SortedKeys(FamilyKeys(EntriesOf(s), 1)) == [MetadataKey]
  {
    hide EntriesOf, FamilyKeys;
    forall key ensures key in FamilyKeys(EntriesOf(s), 1) <==> key == MetadataKey { MetadataFamilyKey(s, key); }
    SortedKeysUnique([MetadataKey], FamilyKeys(EntriesOf(s), 1));
  }

  lemma {:induction false} MetadataFed(v: State, s: Snapshot)
    requires Ready(v, s, 1)
    ensures ObserveAll(v, EntriesOf(s), SortedKeys(FamilyKeys(EntriesOf(s), 1))) == Ok(v.(metadataSeen := 1))
  {
    hide EntriesOf, MetadataCounts, FamilyKeys, ObserveAll, KeyLess, Increasing;
    MetadataKeysSorted(s);
    EntriesLookup(s, MetadataKey);
    ObserveNone(v, EntriesOf(s));
    ObserveLast(v, EntriesOf(s), [], MetadataKey, v, MetadataContent(s.revision, MetadataCounts(s)));
    assert [] + [MetadataKey] == [MetadataKey];
  }

  lemma {:induction false} MetadataStreams(v: State, s: Snapshot) returns (w: State)
    requires Ready(v, s, 1)
    ensures Streams(v, s, 1, w)
  {
    hide EntriesOf, MetadataCounts, FamilyKeys, ObserveAll, KeyLess, Increasing;
    MetadataFed(v, s);
    w := v.(metadataSeen := 1, nextFamily := 2);
    assert v.digest + [] == v.digest;
  }

  lemma {:induction false} RecordIsServed(s: Snapshot, id: RecordRef)
    requires HistoriesKept(s) && id in s.records
    ensures RecordServed(s, id)
  {
    hide EntriesOf, HistoriesKept;
    CurrentShape(s, id);
    KeptIsVersioned(s, id);
    EntriesLookup(s, RecordKey(id.record));
  }

  lemma CountsHead(s: Snapshot)
    ensures |MetadataCounts(s)| == SLOTS && MetadataCounts(s)[0] == |s.records|
    ensures MetadataCounts(s)[1] == TotalVersions(s.history, Sorted(s.history.Keys))
    ensures MetadataCounts(s)[6] == |s.policyHistory| && MetadataCounts(s)[7] == if s.policy.Some? then 1 else 0
  {
  }

  lemma {:induction false} CurrentFed(v: State, s: Snapshot)
    requires Ready(v, s, 2) && HistoriesKept(s)
    ensures (forall id :: id in Sorted(s.records.Keys) ==> id in s.records)
    ensures ObserveAll(v, EntriesOf(s), SortedKeys(FamilyKeys(EntriesOf(s), 2)))
      == Ok(AfterRecords(v, s, Sorted(s.records.Keys)))
  {
    hide EntriesOf, MetadataCounts, KeyLess, HistoriesKept, RecordServed, ObserveAll, FamilyKeys, AfterRecords,
         Increasing, RecordKeys;
    var ids := Sorted(s.records.Keys);
    assert forall id :: id in ids ==> id in s.records.Keys;
    forall id | id in ids ensures RecordServed(s, id) { RecordIsServed(s, id); }
    forall id | id in s.records ensures id.scope == s.scope { CurrentShape(s, id); }
    RecordKeysSorted(s);
    CurrentObserved(v, s, ids);
  }

  lemma Associates(a: seq<Token>, b: seq<Token>, c: seq<Token>)
    ensures (a + b) + c == a + (b + c)
  {
  }

  lemma {:induction false} CurrentStreams(v: State, s: Snapshot) returns (w: State)
    requires Ready(v, s, 2) && HistoriesKept(s)
    ensures Streams(v, s, 2, w)
  {
    hide EntriesOf, MetadataCounts, HistoriesKept, ObserveAll, RecordTokens, FamilyKeys, Increasing;
    CurrentFed(v, s);
    CountsHead(s);
    SameKeys(s);
    var ids := Sorted(s.records.Keys);
    assert |s.history.Keys| == |s.history| && |s.records.Keys| == |s.records|;
    var tokens, count := RecordTokens(s.records, ids), [Number(|s.records|)];
    w := AfterRecords(v, s, ids).(digest := (v.digest + tokens) + count, nextFamily := 3);
    Associates(v.digest, tokens, count);
  }

  lemma {:induction false} HistoryIsServed(s: Snapshot, id: RecordRef)
    requires HistoriesKept(s) && id in s.history
    ensures VersionsServed(s, id)
  {
    hide EntriesOf, VersionAt;
    assert GoodHistory(s.scope, id, s.history[id], s.revision);
    var versions := s.history[id];
    IsAscending(versions);
    forall k | 0 <= k < |versions| ensures VersionServedAt(s, id, k) {
      VersionIsAt(versions, k);
      EntriesLookup(s, VersionKey(id.record, versions[k].ModifiedRevision()));
    }
  }

  lemma {:induction false} HistoryFed(v: State, s: Snapshot) returns (u: State)
    requires Ready(v, s, 3) && HistoriesKept(s)
    ensures (forall id :: id in Sorted(s.history.Keys) ==> id in s.history)
    ensures ObserveAll(v, EntriesOf(s), SortedKeys(FamilyKeys(EntriesOf(s), 3))) == Ok(u)
    ensures WellSized(u) && u.nextFamily == 3 && Flushes(u, AfterHistories(v, s, Sorted(s.history.Keys)))
  {
    hide EntriesOf, MetadataCounts, KeyLess, HistoriesKept, VersionsServed, ObserveAll, HistoryTokens, HistoryKeys,
         FamilyKeys, AllAscend, AfterHistories, Flushes, Increasing;
    var ids := Sorted(s.history.Keys);
    assert forall id :: id in ids ==> id in s.history.Keys;
    SameKeys(s);
    forall id | id in s.history
      ensures id.scope == s.scope && VersionsServed(s, id)
    {
      CurrentShape(s, id);
      HistoryIsServed(s, id);
    }
    KeptAscend(s);
    SortedRecords(s.history.Keys, s.scope);
    HistoryKeysSorted(s);
    u := AllGroupsObserved(v, s, ids);
  }

  lemma {:induction false} HistoryStreams(v: State, s: Snapshot) returns (w: State)
    requires Ready(v, s, 3) && HistoriesKept(s)
    ensures Streams(v, s, 3, w)
  {
    hide EntriesOf, MetadataCounts, HistoriesKept, ObserveAll, HistoryTokens, FamilyKeys, TotalVersions, Increasing;
    var u := HistoryFed(v, s);
    SameKeys(s);
    CountsHead(s);
    assert |s.history.Keys| == |s.history| && |s.records.Keys| == |s.records|;
    w := AfterHistories(v, s, Sorted(s.history.Keys)).(nextFamily := 4);
  }

  lemma {:induction false} SecondaryStreams(v: State, s: Snapshot, number: nat) returns (w: State)
    requires 4 <= number <= 7 && Ready(v, s, number) && HistoriesKept(s) && IndexesMatch(s) && WellKeyed(s.records)
    ensures Streams(v, s, number, w)
  {
    hide EntriesOf, MetadataCounts, KeyLess, HistoriesKept, IndexesMatch, WellKeyed, ObserveAll, FamilyKeys,
         SecondaryServed;
    var keys := SortedKeys(FamilyKeys(EntriesOf(s), number));
    forall key | key in keys ensures SecondaryServed(v, EntriesOf(s), number, key) {
      assert key in FamilyKeys(EntriesOf(s), number);
      SecondaryIsServed(v, s, number, key);
    }
    SecondaryObserved(v, EntriesOf(s), number, keys);
    FamilyIsSlot(EntriesOf(s), number);
    CountsAreSizes(s);
    SizesAt(EntriesOf(s), number - 2);
    w := AfterSecondary(v, number, |keys|).(nextFamily := number + 1);
    assert v.digest + [] == v.digest;
  }

  lemma {:induction false} NoPolicyNoHistory(s: Snapshot)
    requires PoliciesKept(s) && s.policy.None?
    ensures s.policyHistory == map[]
  {
    if r :| r in s.policyHistory {
      PolicyAtIsNewest(s.policyHistory, s.revision, r);
    }
  }

  lemma {:induction false} NoPolicyStreams(v: State, s: Snapshot) returns (w: State)
    requires Ready(v, s, 8) && PoliciesKept(s) && s.policy.None?
    ensures Streams(v, s, 8, w)
  {
    hide EntriesOf, MetadataCounts, KeyLess, ObserveAll, FamilyKeys, PoliciesKept, PolicyTokens;
    NoPolicyNoHistory(s);
    PolicyKeysSorted(s);
    CountsHead(s);
    ObserveNone(v, EntriesOf(s));
    assert SortedRevisions(s.policyHistory.Keys) == [];
    NoPolicyTokens(s.policyHistory);
    w := v.(digest := v.digest + [PolicyFrame(None), Number(0)], nextFamily := 9);
    assert [PolicyFrame(None), Number(0)] + [] == [PolicyFrame(None), Number(0)];
  }

  lemma {:induction false} CurrentPolicyObserved(v: State, s: Snapshot)
    requires Ready(v, s, 8) && s.policy.Some? && s.policy.value.scope == s.scope
    ensures ObserveAll(v, EntriesOf(s), [CurrentPolicyKey])
      == Ok(v.(digest := v.digest + [PolicyFrame(s.policy), Number(|s.policyHistory|)], policyCurrentSeen := true))
  {
    hide EntriesOf, MetadataCounts, ObserveAll;
    CountsHead(s);
    EntriesLookup(s, CurrentPolicyKey);
    ObserveNone(v, EntriesOf(s));
    ObserveLast(v, EntriesOf(s), [], CurrentPolicyKey, v, PolicyContent(s.policy.value));
    assert [] + [CurrentPolicyKey] == [CurrentPolicyKey];
  }

  lemma RecordedPoliciesServed(s: Snapshot)
    requires PoliciesKept(s)
    ensures forall r :: r in SortedRevisions(s.policyHistory.Keys) ==>
      r in s.policyHistory && 1 <= r <= s.revision && s.policyHistory[r].scope == s.scope
  {
    assert forall r :: r in SortedRevisions(s.policyHistory.Keys) ==> r in s.policyHistory.Keys;
  }

  lemma {:induction false} SomePolicyStreams(v: State, s: Snapshot) returns (w: State)
    requires Ready(v, s, 8) && PoliciesKept(s) && s.policy.Some?
    ensures Streams(v, s, 8, w)
  {
    hide EntriesOf, MetadataCounts, KeyLess, ObserveAll, FamilyKeys, PoliciesKept, PolicyTokens, Observe, Increasing,
         SortedKeys, SortedRevisions;
    var revisions := SortedRevisions(s.policyHistory.Keys);
    RecordedPoliciesServed(s);
    PolicyKeysSorted(s);
    CountsHead(s);
    CurrentPolicyHasScope(s);
    CurrentPolicyObserved(v, s);
    var head := [PolicyFrame(s.policy), Number(|s.policyHistory|)];
    var u := v.(digest := v.digest + head, policyCurrentSeen := true);
    PoliciesObserved(v, u, s, [CurrentPolicyKey], revisions);
    w := AfterPolicies(u, s, revisions).(nextFamily := 9);
    assert (v.digest + head) + PolicyTokens(s.policyHistory, revisions)
      == v.digest + (head + PolicyTokens(s.policyHistory, revisions));
  }

  lemma NoPolicyTokens(policies: map<nat, NamespacePolicy>)
    ensures PolicyTokens(policies, []) == []
  {
  }

  lemma {:induction false} FamilyStreams(v: State, s: Snapshot, number: nat) returns (w: State)
    requires 1 <= number <= 8 && Ready(v, s, number) && Consistent(s)
    ensures Streams(v, s, number, w)
  {
    hide Ready, Streams, Consistent;
    ConsistentIsIndexed(s);
    if number == 1 { w := MetadataStreams(v, s); }
    else if number == 2 { w := CurrentStreams(v, s); }
    else if number == 3 { w := HistoryStreams(v, s); }
    else if number < 8 { w := SecondaryStreams(v, s, number); }
    else if s.policy.None? { w := NoPolicyStreams(v, s); }
    else { w := SomePolicyStreams(v, s); }
  }

  ghost function TokensFrom(s: Snapshot, number: nat): seq<Token>
    decreases FAMILY_COUNT + 1 - number
  {
    if number > FAMILY_COUNT then [] else FamilyTokens(s, number) + TokensFrom(s, number + 1)
  }

  lemma {:induction false} AllStream(v: State, s: Snapshot, number: nat)
    requires 1 <= number <= 8 && Ready(v, s, number) && Consistent(s)
    ensures StreamFrom(v, EntriesOf(s), number).Ok?
    ensures var w := StreamFrom(v, EntriesOf(s), number).value;
      w.nextFamily == 9 && w.digest == v.digest + TokensFrom(s, number)
    decreases 8 - number
  {
    hide EntriesOf, Ready, StreamFamily, Consistent, FamilyTokens;
    var w := FamilyStreams(v, s, number);
    if number == 8 {
      assert TokensFrom(s, 9) == [];
      assert w.digest + [] == w.digest;
      assert StreamFrom(w, EntriesOf(s), 9) == Ok(w);
    } else {
      AllStream(w, s, number + 1);
    }
    assert (v.digest + FamilyTokens(s, number)) + TokensFrom(s, number + 1)
      == v.digest + (FamilyTokens(s, number) + TokensFrom(s, number + 1));
  }

  lemma {:induction false} SecondaryAddsNothing(s: Snapshot)
    ensures TokensFrom(s, 4) == FamilyTokens(s, 8)
  {
    assert TokensFrom(s, 9) == [];
    assert TokensFrom(s, 8) == FamilyTokens(s, 8) + [];
    hide FamilyTokens;
    NoSecondaryTokens(s);
    assert TokensFrom(s, 7) == [] + TokensFrom(s, 8);
    assert TokensFrom(s, 6) == [] + TokensFrom(s, 7);
    assert TokensFrom(s, 5) == [] + TokensFrom(s, 6);
    assert TokensFrom(s, 4) == [] + TokensFrom(s, 5);
  }

  lemma NoSecondaryTokens(s: Snapshot)
    ensures forall n :: n in {1, 4, 5, 6, 7} ==> FamilyTokens(s, n) == []
  {
  }

  lemma Regroup(head: seq<Token>, a: Token, records: seq<Token>, b: Token, history: seq<Token>, policy: seq<Token>)
    ensures (head + [a]) + ((records + [b]) + (history + policy))
      == head + ([a] + (records + ([b] + (history + policy))))
  {
  }

  lemma {:induction false} StreamedTokens(s: Snapshot)
    ensures [ScopeBytes(s.scope), Number(s.revision), Number(|s.records|)] + TokensFrom(s, 1) == DigestTokens(s)
  {
    hide RecordTokens, HistoryTokens, PolicyTokens, Increasing;
    var records, history := RecordTokens(s.records, Sorted(s.records.Keys)),
      HistoryTokens(s.history, Sorted(s.history.Keys));
    var head, policy := [ScopeBytes(s.scope), Number(s.revision)], PolicySection(s);
    SecondaryAddsNothing(s);
    NoSecondaryTokens(s);
    assert TokensFrom(s, 1) == [] + TokensFrom(s, 2) == TokensFrom(s, 2);
    Regroup(head, Number(|s.records|), records, Number(|s.history|), history, policy);
    assert head + [Number(|s.records|)] == [ScopeBytes(s.scope), Number(s.revision), Number(|s.records|)];
  }

  /** Streamed digest: the validator accepts every consistent state's families
      and hashes exactly the snapshot digest's fields. */
  lemma {:induction false} StreamedDigestIsSnapshotDigest(s: Snapshot)
    requires Consistent(s)
    ensures |MetadataCounts(s)| == SLOTS
    ensures StreamedDigest(s.scope, s.revision, MetadataCounts(s), EntriesOf(s)) == Ok(DigestTokens(s))
  {
    hide EntriesOf, StreamFrom, DigestTokens, TokensFrom, Consistent;
    CountsHead(s);
    ConsistentIsIndexed(s);
    if s.policy.None? { NoPolicyNoHistory(s); }
    var v := New(s.scope, s.revision, MetadataCounts(s)).value;
    StartIsReady(s, v);
    AllStream(v, s, 1);
    StreamedTokens(s);
  }

  lemma StartIsReady(s: Snapshot, v: State)
    requires |MetadataCounts(s)| == SLOTS && New(s.scope, s.revision, MetadataCounts(s)) == Ok(v)
    ensures Ready(v, s, 1)
  {
    hide MetadataCounts;
  }
}
