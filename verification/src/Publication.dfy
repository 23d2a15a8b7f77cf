/** Publishing a prepared transaction in place: the exact records, histories and indexes it leaves
    (crates/uste-graph/src/state.rs:641-665, 2762-3096). */
module Publication {
  import opened Base
  import opened Records
  import opened Index
  import opened References
  import opened Reducer
  import opened Integrity

  ghost predicate IndexesMatch(s: Snapshot) {
    && Matches(s.outgoing, s.records, OutgoingOf)
    && Matches(s.incoming, s.records, IncomingOf)
    && Matches(s.provenance, s.records, ProvenanceOf)
    && Matches(s.reverse, s.records, ReverseOf)
  }

  /** Changes in the form publication requires: one per record, each with the value it replaces. */
  ghost predicate Applicable(s: Snapshot, changes: seq<RecordChange>) {
    && (forall i, j :: 0 <= i < j < |changes| ==> changes[i].id != changes[j].id)
    && (forall i :: 0 <= i < |changes| ==> changes[i].before == Lookup(s.records, changes[i].id))
  }

  ghost predicate Touches(changes: seq<RecordChange>, id: RecordRef) {
    exists i :: 0 <= i < |changes| && changes[i].id == id
  }

  ghost predicate PublishedExactly(s: Snapshot, changes: seq<RecordChange>, t: Snapshot) {
    && t == s.(records := t.records, history := t.history, outgoing := t.outgoing, incoming := t.incoming,
               provenance := t.provenance, reverse := t.reverse)
    && (forall i :: 0 <= i < |changes| ==>
          && Lookup(t.records, changes[i].id) == Some(changes[i].after)
          && Lookup(t.history, changes[i].id) == Some(VersionsOf(s.history, changes[i].id) + [changes[i].after]))
    && (forall id :: !Touches(changes, id) ==>
          Lookup(t.records, id) == Lookup(s.records, id) && Lookup(t.history, id) == Lookup(s.history, id))
  }

  lemma {:induction false} PublishOneKeepsIndexes(s: Snapshot, c: RecordChange)
    requires IndexesMatch(s) && c.before == Lookup(s.records, c.id)
    ensures IndexesMatch(PublishChange(s, c))
  {
    ChangeKeepsMatch(s.outgoing, s.records, OutgoingOf, c.id, c.after);
    ChangeKeepsMatch(s.incoming, s.records, IncomingOf, c.id, c.after);
    ChangeKeepsMatch(s.provenance, s.records, ProvenanceOf, c.id, c.after);
    ChangeKeepsMatch(s.reverse, s.records, ReverseOf, c.id, c.after);
  }

  lemma {:induction false} PublishOneExact(s: Snapshot, front: seq<RecordChange>, t: Snapshot, c: RecordChange)
    requires PublishedExactly(s, front, t) && !Touches(front, c.id)
    ensures PublishedExactly(s, front + [c], PublishChange(t, c))
  {
    var all := front + [c];
    forall id ensures Touches(all, id) <==> Touches(front, id) || id == c.id {
      if id == c.id { assert all[|front|].id == id; }
      if Touches(front, id) { var i :| 0 <= i < |front| && front[i].id == id; assert all[i].id == id; }
    }
    forall i | 0 <= i < |front| ensures all[i].id != c.id { assert Touches(front, front[i].id); }
  }

  lemma {:induction false} PublishChangesExact(s: Snapshot, changes: seq<RecordChange>)
    requires Applicable(s, changes)
    ensures PublishedExactly(s, changes, PublishChanges(s, changes))
    decreases |changes|
  {
    if changes == [] {
      PublishNone(s);
    } else {
      hide PublishedExactly, PublishChange;
      var front, c := changes[..|changes| - 1], changes[|changes| - 1];
      PublishChangesExact(s, front);
      assert changes == front + [c];
      PublishOneExact(s, front, PublishChanges(s, front), c);
    }
  }

  lemma PublishNone(s: Snapshot)
    ensures PublishedExactly(s, [], s)
  {
  }

  lemma {:induction false} PublishChangesIndexes(s: Snapshot, changes: seq<RecordChange>)
    requires Applicable(s, changes) && IndexesMatch(s)
    ensures IndexesMatch(PublishChanges(s, changes))
    decreases |changes|
  {
    if changes != [] {
      var front, c := changes[..|changes| - 1], changes[|changes| - 1];
      PublishChangesIndexes(s, front);
      assert Lookup(PublishChanges(s, front).records, c.id) == c.before by {
        PublishChangesExact(s, front);
        assert !Touches(front, c.id);
      }
      PublishOneKeepsIndexes(PublishChanges(s, front), c);
    }
  }

  lemma {:induction false} ChangesOfExact(o: Overlay)
    ensures var changes := ChangesOf(o);
      && (forall i, j :: 0 <= i < j < |changes| ==> Less(changes[i].id, changes[j].id))
      && (forall i :: 0 <= i < |changes| ==>
         changes[i].id in o.changed && changes[i] == RecordChange(changes[i].id, Lookup(o.base, changes[i].id),
         o.changed[changes[i].id]))
      && (forall id :: Touches(changes, id) <==> id in o.changed)
  {
    var ids := Sorted(o.changed.Keys);
    var changes := ChangesOf(o);
    forall id | id in o.changed ensures Touches(changes, id) {
      assert id in ids;
      var i :| 0 <= i < |ids| && ids[i] == id;
      assert changes[i].id == id;
    }
  }

  /** Histories with one more version for each record in `changed`. */
  function AppendVersions(history: map<RecordRef, seq<Record>>,
      changed: map<RecordRef, Record>): map<RecordRef, seq<Record>> {
    map id | id in history.Keys + changed.Keys ::
      if id in changed then VersionsOf(history, id) + [changed[id]] else history[id]
  }

  /** The state `t` after publishing the overlay `changed` on `s`. */
  ghost predicate PublishedOverlay(s: Snapshot, changed: map<RecordRef, Record>, t: Snapshot) {
    t.scope == s.scope && t.records == s.records + changed && t.history == AppendVersions(s.history, changed)
  }

  lemma {:induction false} OverlayIsApplicable(s: Snapshot, o: Overlay)
    requires o.base == s.records
    ensures Applicable(s, ChangesOf(o))
  {
    ChangesOfExact(o);
  }

  lemma ChangeOfRecord(o: Overlay, id: RecordRef) returns (i: nat)
    ensures id in o.changed ==> i < |ChangesOf(o)| && ChangesOf(o)[i].id == id && ChangesOf(o)[i].after == o.changed[id]
    ensures id !in o.changed ==> !Touches(ChangesOf(o), id)
  {
    ChangesOfExact(o);
    i := 0;
    if id in o.changed {
      i :| 0 <= i < |ChangesOf(o)| && ChangesOf(o)[i].id == id;
    }
  }

  lemma {:induction false} PublishOverlayLookup(s: Snapshot, o: Overlay, id: RecordRef)
    requires PublishedExactly(s, ChangesOf(o), PublishChanges(s, ChangesOf(o)))
    ensures var t := PublishChanges(s, ChangesOf(o));
      && Lookup(t.records, id) == Lookup(s.records + o.changed, id)
      && Lookup(t.history, id) == Lookup(AppendVersions(s.history, o.changed), id)
  {
    var i := ChangeOfRecord(o, id);
  }

  lemma {:induction false} PublishOverlay(s: Snapshot, o: Overlay)
    requires o.base == s.records
    ensures PublishedOverlay(s, o.changed, PublishChanges(s, ChangesOf(o)))
  {
    var t := PublishChanges(s, ChangesOf(o));
    OverlayIsApplicable(s, o);
    PublishChangesExact(s, ChangesOf(o));
    forall id ensures Lookup(t.records, id) == Lookup(s.records + o.changed, id)
      ensures Lookup(t.history, id) == Lookup(AppendVersions(s.history, o.changed), id)
    {
      PublishOverlayLookup(s, o, id);
    }
    SameLookups(t.records, s.records + o.changed);
    SameLookups(t.history, AppendVersions(s.history, o.changed));
  }

  lemma SameLookups<V>(a: map<RecordRef, V>, b: map<RecordRef, V>)
    requires forall id :: Lookup(a, id) == Lookup(b, id)
    ensures a == b
  {
    forall id ensures id in a <==> id in b { assert Lookup(a, id) == Lookup(b, id); }
    forall id | id in a ensures a[id] == b[id] { assert Lookup(a, id) == Lookup(b, id); }
  }

  /** What an accepted preparation is made of. */
  lemma {:induction false} PreparedParts(s: Snapshot, tx: Transaction, p: PreparedGraph) returns (progress: Progress)
    requires Prepare(s, tx, s.revision + 1) == Ok(p)
    ensures RunOperations(s, tx.operations, s.revision + 1) == Ok(progress)
    ensures ValidateChanged(s.scope, progress.overlay.View(), progress.affected).Ok?
    ensures CheckPreconditions(s, tx.operations).Ok? && ValidatePolicyMutation(s.scope, s.policy, tx.policyMutation).Ok?
    ensures p.changes == ChangesOf(progress.overlay) && p.policyChange == PolicyAfter(tx.policyMutation)
    ensures p.scope == s.scope && p.baseRevision == s.revision && p.revision == s.revision + 1 <= MAX_U64
    ensures p.basePolicyVersion == PolicyVersion(s.policy)
  {
    progress := RunOperations(s, tx.operations, s.revision + 1).value;
  }

  lemma OverlayBase(s: Snapshot, p: Progress, revision: nat)
    requires LoopInvariant(s, p, revision)
    ensures p.overlay.base == s.records
  {
    hide AllLegal, NoDangling, CorrectsAccepted;
  }

  lemma PublishedAsOverlay(s: Snapshot, o: Overlay, p: PreparedGraph)
    requires o.base == s.records && p.changes == ChangesOf(o)
    ensures PublishedOverlay(s, o.changed, Publish(s, p)) && Publish(s, p).revision == p.revision
  {
    hide ChangesOf, PublishChanges, AppendVersions;
    PublishOverlay(s, o);
  }

  lemma ApplicableIsPublishable(s: Snapshot, p: PreparedGraph)
    requires Applicable(s, p.changes) && p.scope == s.scope && p.baseRevision == s.revision
      && p.basePolicyVersion == PolicyVersion(s.policy)
    ensures CanPublish(s, p)
  {
  }

  /** Every accepted commit publishes exactly its overlay, one revision later. */
  lemma {:induction false} CommitPublishesOverlay(s: Snapshot, tx: Transaction, p: PreparedGraph)
      returns (progress: Progress)
    requires Indexed(s)
    requires Prepare(s, tx, s.revision + 1) == Ok(p)
    ensures RunOperations(s, tx.operations, s.revision + 1) == Ok(progress)
      && LoopInvariant(s, progress, s.revision + 1)
    ensures ValidateChanged(s.scope, progress.overlay.View(), progress.affected).Ok?
    ensures p.changes == ChangesOf(progress.overlay)
    ensures PublishedOverlay(s, progress.overlay.changed, Publish(s, p)) && Publish(s, p).revision == s.revision + 1
  {
    hide *;
    progress := PreparedParts(s, tx, p);
    RunKeepsInvariant(s, tx.operations, s.revision + 1, progress);
    OverlayBase(s, progress, s.revision + 1);
    PublishedAsOverlay(s, progress.overlay, p);
  }

  /** A prepared transaction is always publishable on the state it was prepared on. */
  lemma {:induction false} PreparedIsPublishable(s: Snapshot, tx: Transaction, p: PreparedGraph)
    requires Indexed(s)
    requires Prepare(s, tx, s.revision + 1) == Ok(p)
    ensures CanPublish(s, p) && Applicable(s, p.changes)
  {
    hide *;
    var progress := PreparedParts(s, tx, p);
    RunKeepsInvariant(s, tx.operations, s.revision + 1, progress);
    OverlayBase(s, progress, s.revision + 1);
    OverlayIsApplicable(s, progress.overlay);
    ApplicableIsPublishable(s, p);
  }

  lemma {:induction false} CommitKeepsKeys(s: Snapshot, tx: Transaction, p: PreparedGraph)
    requires Indexed(s) && Prepare(s, tx, s.revision + 1) == Ok(p)
    ensures WellKeyed(Publish(s, p).records)
  {
    hide Matches, Publish, Prepare, RunOperations, ValidateChanged, NoDangling, CorrectsAccepted;
    var progress := CommitPublishesOverlay(s, tx, p);
  }

  /** Adjusting the four indexes change by change leaves exactly what the published records contribute. */
  lemma {:induction false} CommitKeepsIndexes(s: Snapshot, tx: Transaction, p: PreparedGraph)
    requires Indexed(s) && IndexesMatch(s)
    requires Prepare(s, tx, s.revision + 1) == Ok(p)
    ensures Indexed(Publish(s, p)) && IndexesMatch(Publish(s, p))
  {
    hide Prepare, RunOperations, Matches, PublishChanges;
    PreparedIsPublishable(s, tx, p);
    PublishChangesIndexes(s, p.changes);
    CommitKeepsKeys(s, tx, p);
  }
}
