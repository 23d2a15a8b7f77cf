/** The graph state as an object that prepares and publishes in place
    (crates/uste-graph/src/state.rs:238-405, 641-665, 2762-2905, 3053-3108). */
module GraphStateObject {
  import opened Base
  import opened Records
  import opened Index
  import opened References
  import opened Reducer
  import opened Publication
  import opened OverlayObject

  // One owner's entries, key by key

  function KeySet(keys: seq<RecordRef>): set<RecordRef> {
    set key | key in keys
  }

  lemma RemoveStep<V>(index: Index<V>, owner: RecordRef, keys: set<RecordRef>, key: RecordRef)
    ensures RemoveEntry(RemoveContributions(index, owner, keys), key, owner)
      == RemoveContributions(index, owner, keys + {key})
  {
    if key in keys && key in RemoveContributions(index, owner, keys) {
      assert (index[key] - {owner}) - {owner} == index[key] - {owner};
    }
  }

  method RemoveEach<V>(index: Index<V>, owner: RecordRef, keys: seq<RecordRef>) returns (left: Index<V>)
    ensures left == RemoveContributions(index, owner, KeySet(keys))
  {
    left := index;
    assert RemoveContributions(index, owner, KeySet(keys[..0])) == index;
    for k := 0 to |keys|
      invariant left == RemoveContributions(index, owner, KeySet(keys[..k]))
    {
      RemoveStep(index, owner, KeySet(keys[..k]), keys[k]);
      assert KeySet(keys[..k + 1]) == KeySet(keys[..k]) + {keys[k]};
      left := RemoveEntry(left, keys[k], owner);
    }
    assert keys[..|keys|] == keys;
  }

  function Restricted<V>(entries: map<RecordRef, V>, keys: set<RecordRef>): map<RecordRef, V> {
    map key | key in entries && key in keys :: entries[key]
  }

  lemma InsertStepAt<V>(index: Index<V>, owner: RecordRef, entries: map<RecordRef, V>, keys: set<RecordRef>,
      key: RecordRef, at: RecordRef)
    requires key in entries
    ensures Lookup(InsertEntry(AddContributions(index, owner, Restricted(entries, keys)), key, owner, entries[key]), at)
      == Lookup(AddContributions(index, owner, Restricted(entries, keys + {key})), at)
  {
    if at == key {
      assert Bucket(index, key)[owner := entries[key]][owner := entries[key]]
        == Bucket(index, key)[owner := entries[key]];
    }
  }

  lemma InsertStep<V>(index: Index<V>, owner: RecordRef, entries: map<RecordRef, V>, keys: set<RecordRef>,
      key: RecordRef)
    requires key in entries
    ensures InsertEntry(AddContributions(index, owner, Restricted(entries, keys)), key, owner, entries[key])
      == AddContributions(index, owner, Restricted(entries, keys + {key}))
  {
    hide InsertEntry, AddContributions, Restricted;
    var a := InsertEntry(AddContributions(index, owner, Restricted(entries, keys)), key, owner, entries[key]);
    var b := AddContributions(index, owner, Restricted(entries, keys + {key}));
    forall at ensures Lookup(a, at) == Lookup(b, at) { InsertStepAt(index, owner, entries, keys, key, at); }
    SameLookups(a, b);
  }

  method InsertEach<V>(index: Index<V>, owner: RecordRef, entries: map<RecordRef, V>, keys: seq<RecordRef>)
      returns (more: Index<V>)
    requires KeySet(keys) == entries.Keys
    ensures more == AddContributions(index, owner, entries)
  {
    more := index;
    assert AddContributions(index, owner, Restricted(entries, KeySet(keys[..0]))) == index;
    for k := 0 to |keys|
      invariant more == AddContributions(index, owner, Restricted(entries, KeySet(keys[..k])))
    {
      assert keys[k] in KeySet(keys);
      InsertStep(index, owner, entries, KeySet(keys[..k]), keys[k]);
      assert KeySet(keys[..k + 1]) == KeySet(keys[..k]) + {keys[k]};
      more := InsertEntry(more, keys[k], owner, entries[keys[k]]);
    }
    assert keys[..|keys|] == keys;
    assert Restricted(entries, entries.Keys) == entries;
  }

  // Reverse references, aggregated mention by mention

  function RolesIn(mentions: seq<Mention>, target: RecordRef): set<Role> {
    set m | m in mentions && m.target == target :: m.role
  }

  function Aggregate(r: Record, mentions: seq<Mention>): map<RecordRef, ReverseReference> {
    map t | t in (set m | m in mentions :: m.target) :: Describe(r, RolesIn(mentions, t))
  }

  lemma DescribeRoles(r: Record, a: set<Role>, b: set<Role>)
    ensures Describe(r, a).(roles := b) == Describe(r, b)
  {
  }

  lemma {:induction false} AggregateStep(r: Record, mentions: seq<Mention>, m: Mention)
    ensures var before := Aggregate(r, mentions);
      Aggregate(r, mentions + [m]) ==
        before[m.target := if m.target in before then before[m.target].(roles := before[m.target].roles + {m.role})
          else Describe(r, {m.role})]
  {
    hide Describe;
    var all := mentions + [m];
    forall t ensures RolesIn(all, t) == if t == m.target then RolesIn(mentions, t) + {m.role}
      else RolesIn(mentions, t) {}
    var before := Aggregate(r, mentions);
    if m.target in before {
      DescribeHas(r, RolesIn(mentions, m.target));
      DescribeRoles(r, RolesIn(mentions, m.target), RolesIn(all, m.target));
    } else {
      assert RolesIn(mentions, m.target) == {};
      assert RolesIn(all, m.target) == {m.role};
    }
  }

  lemma DescribeHas(r: Record, roles: set<Role>)
    ensures Describe(r, roles).roles == roles
  {
  }

  /** `record_reverse_references`: insert the first role met, add the later ones. */
  method ReverseReferences(r: Record) returns (references: map<RecordRef, ReverseReference>)
    ensures references == ReverseOf(r)
  {
    hide Describe, Aggregate, RecordMentions, ReverseOf;
    references := map[];
    var mentions := RecordMentions(r);
    AggregateEnds(r);
    assert mentions[..0] == [];
    for k := 0 to |mentions|
      invariant references == Aggregate(r, mentions[..k])
    {
      var m := mentions[k];
      AggregateStep(r, mentions[..k], m);
      assert mentions[..k + 1] == mentions[..k] + [m];
      references := references[m.target :=
        if m.target in references then references[m.target].(roles := references[m.target].roles + {m.role})
          else Describe(r, {m.role})];
    }
    assert mentions[..|mentions|] == mentions;
  }

  lemma AggregateEnds(r: Record)
    ensures Aggregate(r, []) == map[]
    ensures Aggregate(r, RecordMentions(r)) == ReverseOf(r)
  {
    hide Describe, RecordMentions;
    assert forall t :: RolesIn(RecordMentions(r), t) == Roles(r, t);
  }

  // Historical lookup by bisection

  lemma {:induction false} LastAtCut(versions: seq<Record>, revision: nat, cut: nat)
    requires cut <= |versions|
    requires forall i :: 0 <= i < cut ==> versions[i].ModifiedRevision() <= revision
    requires forall i :: cut <= i < |versions| ==> versions[i].ModifiedRevision() > revision
    ensures LastAt(versions, revision) == if cut == 0 then None else Some(versions[cut - 1])
    decreases |versions|
  {
    if cut < |versions| {
      LastAtCut(versions[..|versions| - 1], revision, cut);
    }
  }

  /** `record_at`: `partition_point` on the version list, then the version just before it. */
  method FindRecordAt(history: map<RecordRef, seq<Record>>, id: RecordRef, revision: nat) returns (r: Option<Record>)
    requires forall key :: key in history ==> Chronological(history[key])
    ensures r == RecordAt(history, id, revision)
  {
    if id !in history { return None; }
    var versions := history[id];
    var low, high := 0, |versions|;
    while low < high
      invariant 0 <= low <= high <= |versions|
      invariant forall i :: 0 <= i < low ==> versions[i].ModifiedRevision() <= revision
      invariant forall i :: high <= i < |versions| ==> versions[i].ModifiedRevision() > revision
    {
      var middle := low + (high - low) / 2;
      assert Chronological(versions);
      if versions[middle].ModifiedRevision() <= revision { low := middle + 1; } else { high := middle; }
    }
    LastAtCut(versions, revision, low);
    r := if low == 0 then None else Some(versions[low - 1]);
  }

  // The keys one record contributes to, in the order it lists them

  function FromKeys(r: Record): seq<RecordRef> {
    if r.IsClaim(RelationshipKind) && r.status == Accepted then [r.body.from] else []
  }

  function ToKeys(r: Record): seq<RecordRef> {
    if r.IsClaim(RelationshipKind) && r.status == Accepted then [r.body.to] else []
  }

  function EvidenceKeys(r: Record): seq<RecordRef> {
    if r.Claim? then r.evidence else []
  }

  lemma ContributionKeys(r: Record)
    ensures KeySet(FromKeys(r)) == OutgoingOf(r).Keys && KeySet(ToKeys(r)) == IncomingOf(r).Keys
      && KeySet(EvidenceKeys(r)) == ProvenanceOf(r).Keys
  {
  }

  lemma SortedKeySet(ids: set<RecordRef>)
    ensures KeySet(Sorted(ids)) == ids
  {
  }

  /** All four indexes without the entries `r` contributed. */
  function WithoutContributions(s: Snapshot, r: Record): Snapshot {
    s.(outgoing := RemoveContributions(s.outgoing, r.id, OutgoingOf(r).Keys),
       incoming := RemoveContributions(s.incoming, r.id, IncomingOf(r).Keys),
       provenance := RemoveContributions(s.provenance, r.id, ProvenanceOf(r).Keys),
       reverse := RemoveContributions(s.reverse, r.id, ReverseOf(r).Keys))
  }

  /** All four indexes with the entries `r` contributes. */
  function WithContributions(s: Snapshot, r: Record): Snapshot {
    s.(outgoing := AddContributions(s.outgoing, r.id, OutgoingOf(r)),
       incoming := AddContributions(s.incoming, r.id, IncomingOf(r)),
       provenance := AddContributions(s.provenance, r.id, ProvenanceOf(r)),
       reverse := AddContributions(s.reverse, r.id, ReverseOf(r)))
  }

  /** The snapshot with all four indexes rebuilt from the listed records. */
  function Rebuilt(s: Snapshot, ids: seq<RecordRef>): Snapshot {
    s.(outgoing := Rebuild(s.records, ids, OutgoingOf), incoming := Rebuild(s.records, ids, IncomingOf),
       provenance := Rebuild(s.records, ids, ProvenanceOf), reverse := Rebuild(s.records, ids, ReverseOf))
  }

  lemma RebuiltEmpty(was: Snapshot, cleared: Snapshot, ids: seq<RecordRef>)
    requires cleared == was.(outgoing := map[], incoming := map[], provenance := map[], reverse := map[])
    ensures cleared == Rebuilt(was, ids[..0])
  {
  }

  lemma ContributionsKeepRecords(s: Snapshot, r: Record)
    ensures WithContributions(s, r).records == s.records
  {
  }

  lemma RebuiltStep(s: Snapshot, ids: seq<RecordRef>, k: nat)
    requires k < |ids| && ids[k] in s.records && s.records[ids[k]].id == ids[k]
    ensures Rebuilt(s, ids[..k + 1]) == WithContributions(Rebuilt(s, ids[..k]), s.records[ids[k]])
  {
    assert ids[..k + 1][..k] == ids[..k];
  }

  // The object

  class GraphState {
    const scope: nat
    var revision: nat
    var records: map<RecordRef, Record>
    var history: map<RecordRef, seq<Record>>
    var outgoing: Index<()>
    var incoming: Index<()>
    var provenance: Index<()>
    var reverse: Index<ReverseReference>
    var policy: Option<NamespacePolicy>
    var policyHistory: map<nat, NamespacePolicy>

    constructor (scope: nat)
      ensures View() == NewSnapshot(scope)
    {
      this.scope, revision, records, history := scope, 0, map[], map[];
      outgoing, incoming, provenance, reverse := map[], map[], map[], map[];
      policy, policyHistory := None, map[];
    }

    /** A state holding the given snapshot, as a restored or partial state does. */
    constructor Holding(s: Snapshot)
      ensures View() == s
    {
      scope, revision, records, history := s.scope, s.revision, s.records, s.history;
      outgoing, incoming, provenance, reverse := s.outgoing, s.incoming, s.provenance, s.reverse;
      policy, policyHistory := s.policy, s.policyHistory;
    }

    /** The state as an immutable snapshot. */
    function View(): Snapshot
      reads this
    {
      Snapshot(scope, revision, records, history, outgoing, incoming, provenance, reverse, policy, policyHistory)
    }

    method RemoveIndexContributions(r: Record)
      modifies this
      ensures View() == WithoutContributions(old(View()), r)
    {
      hide RemoveContributions, OutgoingOf, IncomingOf, ProvenanceOf, ReverseOf, KeySet, FromKeys, ToKeys, EvidenceKeys;
      ContributionKeys(r);
      outgoing := RemoveEach(outgoing, r.id, FromKeys(r));
      incoming := RemoveEach(incoming, r.id, ToKeys(r));
      provenance := RemoveEach(provenance, r.id, EvidenceKeys(r));
      var references := ReverseReferences(r);
      var targets := Ascending(references.Keys);
      SortedKeySet(references.Keys);
      reverse := RemoveEach(reverse, r.id, targets);
    }

    method AddIndexContributions(r: Record)
      modifies this
      ensures View() == WithContributions(old(View()), r)
    {
      hide AddContributions, OutgoingOf, IncomingOf, ProvenanceOf, ReverseOf, KeySet, FromKeys, ToKeys, EvidenceKeys;
      ContributionKeys(r);
      outgoing := InsertEach(outgoing, r.id, OutgoingOf(r), FromKeys(r));
      incoming := InsertEach(incoming, r.id, IncomingOf(r), ToKeys(r));
      provenance := InsertEach(provenance, r.id, ProvenanceOf(r), EvidenceKeys(r));
      var references := ReverseReferences(r);
      var targets := Ascending(references.Keys);
      SortedKeySet(references.Keys);
      reverse := InsertEach(reverse, r.id, references, targets);
    }

    /** One change: retire the old contributions, add the new ones, append the version, replace the record. */
    method PublishChange(c: RecordChange)
      requires c.after.id == c.id && (c.before.Some? ==> c.before.value.id == c.id)
      modifies this
      ensures View() == Reducer.PublishChange(old(View()), c)
    {
      hide RemoveContributions, AddContributions, OutgoingOf, IncomingOf, ProvenanceOf, ReverseOf;
      if c.before.Some? {
        RemoveIndexContributions(c.before.value);
      } else {
        NothingToRemove(outgoing, c.id, OutgoingOf);
        NothingToRemove(incoming, c.id, IncomingOf);
        NothingToRemove(provenance, c.id, ProvenanceOf);
        NothingToRemove(reverse, c.id, ReverseOf);
      }
      AddIndexContributions(c.after);
      history := history[c.id := VersionsOf(history, c.id) + [c.after]];
      records := records[c.id := c.after];
    }

    /** `publish`: the prepared changes in order, then the policy, then the revision. */
    method Publish(p: PreparedGraph)
      requires CanPublish(View(), p)
      requires forall i :: 0 <= i < |p.changes| ==>
        p.changes[i].after.id == p.changes[i].id && (p.changes[i].before.Some? ==>
        p.changes[i].before.value.id == p.changes[i].id)
      modifies this
      ensures View() == Reducer.Publish(old(View()), p)
    {
      hide Reducer.PublishChange;
      ghost var s := View();
      for k := 0 to |p.changes|
        invariant View() == PublishChanges(s, p.changes[..k])
      {
        PublishChange(p.changes[k]);
        assert p.changes[..k + 1][..k] == p.changes[..k];
      }
      assert p.changes[..|p.changes|] == p.changes;
      if p.policyChange.Some? {
        policy := p.policyChange;
        policyHistory := policyHistory[p.revision := p.policyChange.value];
      }
      revision := p.revision;
    }

    /** `rebuild_indexes`: clear all four, then add every record's contributions in order. */
    method RebuildIndexes()
      requires forall id :: id in records ==> records[id].id == id
      modifies this
      ensures View() == Rebuilt(old(View()), Sorted(old(records).Keys))
    {
      hide Rebuilt, WithContributions, Increasing;
      ghost var was := View();
      outgoing, incoming, provenance, reverse := map[], map[], map[], map[];
      var ids := Ascending(records.Keys);
      RebuiltEmpty(was, View(), ids);
      for k := 0 to |ids|
        invariant View() == Rebuilt(was, ids[..k]) && records == was.records
      {
        assert ids[k] in records.Keys;
        RebuiltStep(was, ids, k);
        AddIndexContributions(records[ids[k]]);
        ContributionsKeepRecords(Rebuilt(was, ids[..k]), was.records[ids[k]]);
      }
      assert ids[..|ids|] == ids;
    }

    /** `prepare_transaction`: checks on the base, then every operation on
        one overlay, then validation of what changed. */
    method PrepareTransaction(tx: Transaction, revision: nat) returns (r: Result<PreparedGraph, GraphError>)
      ensures r == Prepare(View(), tx, revision)
    {
      hide ValidateRequestLimits, CheckPreconditions, RunOperations, ValidateChanged, ChangesOf, ValidatePolicyMutation;
      if tx.scope != scope { return Err(TransactionScopeMismatch); }
      if this.revision >= MAX_U64 { return Err(RevisionExhausted); }
      if revision != this.revision + 1 { return Err(RevisionMismatch(this.revision + 1, revision)); }
      var limits := ValidateRequestLimits(tx);
      if limits.Err? { return Err(limits.error); }
      var conditions := CheckEach(View(), tx.operations);
      if conditions.Err? { return Err(conditions.error); }
      var mutation := ValidatePolicyMutation(scope, policy, tx.policyMutation);
      if mutation.Err? { return Err(mutation.error); }
      var run := ApplyEach(View(), tx.operations, revision);
      if run.Err? { return Err(run.error); }
      var valid := ValidateEach(scope, run.value.overlay.View(), run.value.affected);
      if valid.Err? { return Err(valid.error); }
      var changes := IntoChanges(run.value.overlay);
      var policyChange := PolicyAfter(tx.policyMutation);
      r := Ok(PreparedGraph(scope, this.revision, PolicyVersion(policy), revision, changes, policyChange,
                            ResultContent(revision, seq(|changes|, i requires 0 <= i < |changes| => changes[i].after),
                              NextPolicy(policyChange, policy))));
    }
  }

  method CheckEach(s: Snapshot, ops: seq<Operation>) returns (check: Check)
    ensures check == CheckPreconditions(s, ops)
  {
    hide ValidateExpected, ValidateCorrectionPrecondition;
    for k := 0 to |ops|
      invariant CheckPreconditions(s, ops) == CheckPreconditions(s, ops[k..])
    {
      assert ops[k..][0] == ops[k] && ops[k..][1..] == ops[k + 1..];
      var inScope := CheckScope(s.scope, ops[k].Target());
      if inScope.Err? { return inScope; }
      var expected := ValidateExpected(s, ops[k].Target(), ops[k].expected);
      if expected.Err? { return expected; }
      var correction := ValidateCorrectionPrecondition(s, ops[k]);
      if correction.Err? { return correction; }
    }
    check := Ok(());
  }

  lemma {:induction false} RunFails(s: Snapshot, ops: seq<Operation>, revision: nat, k: nat)
    requires k <= |ops| && RunOperations(s, ops[..k], revision).Err?
    ensures RunOperations(s, ops, revision) == Err(RunOperations(s, ops[..k], revision).error)
    decreases |ops|
  {
    hide ApplyNext;
    if k == |ops| {
      assert ops[..k] == ops;
    } else {
      assert ops[..|ops| - 1][..k] == ops[..k];
      RunFails(s, ops[..|ops| - 1], revision, k);
    }
  }

  lemma FirstIsLeast(ids: set<RecordRef>, m: RecordRef)
    requires m in ids && forall x :: x in ids ==> x == m || Less(m, x)
    ensures Sorted(ids)[0] == m
  {
    var s := Sorted(ids);
    var i :| 0 <= i < |s| && s[i] == m;
    assert s[0] in ids;
    assert i > 0 ==> Less(s[0], s[i]);
  }

  /** One operation on the overlay object, with the duplicate-mutation and correction guards. */
  method ApplyGuarded(overlay: RecordOverlay, op: Operation, revision: nat, affected: set<RecordRef>,
      protected_: set<RecordRef>)
    returns (r: Result<Progress, GraphError>)
    modifies overlay
    ensures r == ApplyNext(Progress(old(overlay.Value()), affected, protected_), op, revision)
    ensures r.Ok? ==> r.value.overlay == overlay.Value()
  {
    hide Reducer.ApplyOperation;
    var target := op.CorrectionTarget();
    if target.Some? && target.value in affected { return Err(DuplicateMutation(target.value)); }
    var outcome := overlay.ApplyOperation(op, revision);
    if outcome.Err? { return Err(outcome.error); }
    var repeated := outcome.value * (affected + protected_);
    if repeated != {} {
      LessIsStrictOrder();
      var first := LeastOf(repeated, Less);
      FirstIsLeast(repeated, first);
      return Err(DuplicateMutation(first));
    }
    r := Ok(Progress(overlay.Value(), affected + outcome.value, if target.Some? then protected_ + {target.value}
      else protected_));
  }

  method ApplyEach(s: Snapshot, ops: seq<Operation>, revision: nat) returns (r: Result<Progress, GraphError>)
    ensures r == RunOperations(s, ops, revision)
  {
    hide ApplyNext;
    var overlay := new RecordOverlay(s.records, s.reverse);
    var affected: set<RecordRef>, protected_: set<RecordRef> := {}, {};
    for k := 0 to |ops|
      invariant fresh(overlay)
      invariant RunOperations(s, ops[..k], revision) == Ok(Progress(overlay.Value(), affected, protected_))
    {
      assert ops[..k + 1][..k] == ops[..k];
      var next := ApplyGuarded(overlay, ops[k], revision, affected, protected_);
      assert RunOperations(s, ops[..k + 1], revision) == next;
      if next.Err? {
        RunFails(s, ops, revision, k + 1);
        return next;
      }
      affected, protected_ := next.value.affected, next.value.protected_;
    }
    assert ops[..|ops|] == ops;
    r := Ok(Progress(overlay.Value(), affected, protected_));
  }

  method ValidateEach(scope: nat, records: map<RecordRef, Record>, affected: set<RecordRef>) returns (check: Check)
    ensures check == ValidateChanged(scope, records, affected)
  {
    hide ValidateRecord;
    var ids := Ascending(affected);
    ghost var f := id => if id in records then ValidateRecord(scope, id, records[id], records)
      else Err(IndexCorrupt(id));
    FirstFailureAgrees(ids, f, id => if id in records then ValidateRecord(scope, id, records[id], records)
      else Err(IndexCorrupt(id)));
    for k := 0 to |ids|
      invariant FirstFailure(ids, f) == FirstFailure(ids[k..], f)
    {
      assert ids[k..][0] == ids[k] && ids[k..][1..] == ids[k + 1..];
      var one := if ids[k] in records then ValidateRecord(scope, ids[k], records[ids[k]], records)
        else Err(IndexCorrupt(ids[k]));
      if one.Err? { return one; }
    }
    check := Ok(());
  }

  method IntoChanges(o: Overlay) returns (changes: seq<RecordChange>)
    ensures changes == ChangesOf(o)
  {
    var ids := Ascending(o.changed.Keys);
    changes := [];
    for k := 0 to |ids|
      invariant |changes| == k
      invariant forall i :: 0 <= i < k ==> changes[i] == ChangesOf(o)[i]
    {
      assert ids[k] in o.changed.Keys;
      changes := changes + [RecordChange(ids[k], Lookup(o.base, ids[k]), o.changed[ids[k]])];
    }
  }

  lemma NothingToRemove<V>(index: Index<V>, owner: RecordRef, contribution: Record -> map<RecordRef, V>)
    ensures RemoveContributions(index, owner, Contributions(None, contribution).Keys) == index
  {
  }
}
