/** What every run of the import ledger keeps: contiguous batches, exact row counts, one owner per source event,
    and jobs whose entity and bindings stay valid in the graph
    (crates/uste-ingest/src/state.rs:170-393, 510-586, 744-770, 860-872). */
module Ledger {
  import opened Base
  import opened Records
  import opened Reducer
  import opened Operations
  import opened Integrity
  import opened Publication
  import opened Invariant
  import opened Runs
  import opened Ingest

  // One job

  ghost predicate Contiguous(batches: map<nat, Receipt>) {
    forall k: nat :: k in batches <==> 1 <= k <= |batches|
  }

  ghost function ReceiptsOf(batches: map<nat, Receipt>): (r: seq<Receipt>)
    requires Contiguous(batches)
  {
    seq(|batches|, i requires 0 <= i < |batches| => batches[i + 1])
  }

  function Rows(receipts: seq<Receipt>): nat {
    if receipts == [] then 0 else Rows(receipts[..|receipts| - 1]) + receipts[|receipts| - 1].rowCount
  }

  /** What `ImportCheckpoint::from_parts` demands. */
  predicate CheckpointMade(c: ImportCheckpoint) {
    && c.acceptedRows <= MAX_IMPORT_ROWS && c.acceptedRows == c.nextRow
    && c.firstRevision <= c.lastRevision && c.version != 0 && c.nextBatch != 0
  }

  /** Batch `i + 1` of a job: it follows the batch before and records the job as of that batch. */
  predicate ReceiptGood(c: ImportCheckpoint, receipts: seq<Receipt>, revision: nat, i: nat)
    requires i < |receipts|
  {
    var r := receipts[i];
    && 1 <= r.rowCount <= MAX_ROWS_PER_BATCH
    && (if i == 0 then c.firstRevision else receipts[i - 1].revision) < r.revision <= revision
    && r.checkpoint.job == c.job && r.checkpoint.source == c.source && r.checkpoint.mapping == c.mapping
    && r.checkpoint.version == r.checkpoint.nextBatch == i + 2
    && r.checkpoint.acceptedRows == r.checkpoint.nextRow == Rows(receipts[..i + 1])
    && r.checkpoint.firstRevision == c.firstRevision && r.checkpoint.lastRevision == r.revision
    && (i + 1 < |receipts| ==> r.checkpoint.status == Open)
    && CheckpointMade(r.checkpoint)
  }

  predicate JobGood(c: ImportCheckpoint, receipts: seq<Receipt>, revision: nat) {
    && (forall i :: 0 <= i < |receipts| ==> ReceiptGood(c, receipts, revision, i))
    && (if receipts == [] then c == Started(c.job, c.source, c.mapping, c.firstRevision, c.chain)
       else c == receipts[|receipts| - 1].checkpoint)
    && 1 <= c.firstRevision && c.lastRevision <= revision && CheckpointMade(c)
  }

  /** The revisions at which a job changed the ledger. */
  function Marks(c: ImportCheckpoint, receipts: seq<Receipt>): set<nat> {
    {c.firstRevision} + (set r | r in receipts :: r.revision)
  }

  /** The graph as of an earlier revision. */
  function AsOf(g: Snapshot, revision: nat): RecordRef -> Option<Record> {
    id => var read := ReadRecordAt(g, revision, id); if read.Ok? then read.value else None
  }

  ghost predicate JobLedger(e: Engine, id: RecordRef)
    requires id in e.jobs
  {
    var job := e.jobs[id];
    && job.checkpoint.job == id && id.scope == e.scope
    && BindingScope(e.scope, job.checkpoint.source, job.checkpoint.mapping).Ok?
    && Contiguous(job.batches)
    && JobGood(job.checkpoint, ReceiptsOf(job.batches), e.revision)
    && |job.sourceEvents| == job.checkpoint.acceptedRows
    && (forall event :: event in job.sourceEvents ==> event.scope == e.scope)
    && JobBound(Current(e.graph), id, job.checkpoint).Ok?
    && JobBound(AsOf(e.graph, job.checkpoint.firstRevision), id, job.checkpoint).Ok?
  }

  // All jobs

  ghost function JobMarks(job: JobState): set<nat> {
    if Contiguous(job.batches) then Marks(job.checkpoint, ReceiptsOf(job.batches)) else {}
  }

  ghost predicate SeparateMarks(jobs: Jobs) {
    forall a, b :: a in jobs && b in jobs && a != b ==> JobMarks(jobs[a]) !! JobMarks(jobs[b])
  }

  /** The global event index is the union of the jobs' events, and it names one job per event. */
  ghost predicate EventsIndexed(jobs: Jobs, index: map<SourceEvent, RecordRef>) {
    && (forall event :: event in index ==> index[event] in jobs && event in jobs[index[event]].sourceEvents)
    && (forall id, event :: id in jobs && event in jobs[id].sourceEvents ==> event in index && index[event] == id)
  }

  function BatchIds(jobs: Jobs): set<(RecordRef, nat)> {
    set id, k | id in jobs && k in jobs[id].batches :: (id, k)
  }

  ghost predicate Ledgered(e: Engine) {
    && e.graph.scope == e.scope && e.graph.revision == e.revision && Consistent(e.graph)
    && |e.jobs| <= MAX_IMPORT_JOBS && e.batchCount == |BatchIds(e.jobs)| <= MAX_IMPORT_BATCHES
    && (forall id :: id in e.jobs ==> JobLedger(e, id))
    && SeparateMarks(e.jobs)
    && EventsIndexed(e.jobs, e.sourceEvents)
  }

  // The graph under the ledger

  lemma {:induction false} ChangeOfTouched(changes: seq<RecordChange>, id: RecordRef)
    ensures ChangeOf(changes, id).Some? <==> Touches(changes, id)
    ensures ChangeOf(changes, id).Some? ==>
      exists i :: 0 <= i < |changes| && changes[i].id == id && changes[i].after == ChangeOf(changes, id).value
    decreases |changes|
  {
    if changes != [] && changes[|changes| - 1].id != id {
      var front := changes[..|changes| - 1];
      ChangeOfTouched(front, id);
      if i :| 0 <= i < |front| && front[i].id == id && front[i].after == ChangeOf(front, id).value {
        assert changes[i] == front[i];
      }
      if i :| 0 <= i < |changes| && changes[i].id == id { assert front[i].id == id; }
    }
  }

  /** The prepared view shows each record as it will be once published. */
  lemma {:induction false} ViewIsPublished(g: Snapshot, tx: Transaction, p: PreparedGraph, id: RecordRef)
    requires Consistent(g) && Prepare(g, tx, g.revision + 1) == Ok(p)
    ensures PreparedView(g, p)(id) == Lookup(Publish(g, p).records, id)
  {
    hide Prepare, Consistent, ChangeOf, PublishChanges, Touches;
    assert Indexed(g) by { ConsistentIndexes(g); }
    PreparedIsPublishable(g, tx, p);
    PublishChangesExact(g, p.changes);
    ChangeOfTouched(p.changes, id);
  }

  lemma ConsistentIndexes(g: Snapshot)
    requires Consistent(g)
    ensures Indexed(g) && HistoriesKept(g)
  {
  }

  lemma {:induction false} NoDeletionHides(s: Snapshot, ops: seq<Operation>, revision: nat, p: Progress, id: RecordRef)
    requires Indexed(s) && RunOperations(s, ops, revision) == Ok(p) && !DeletesAny(ops) && id in p.overlay.changed
    ensures p.overlay.changed[id].IsVisible()
    decreases |ops|
  {
    hide ApplyOperation, Indexed;
    if ops != [] {
      var front, op := ops[..|ops| - 1], ops[|ops| - 1];
      var before := RunOperations(s, front, revision).value;
      assert !DeletesAny(front) by { if i :|
        0 <= i < |front| && front[i].DeleteEntity? { assert ops[i].DeleteEntity?; } }
      RunKeepsInvariant(s, front, revision, before);
      LoopOverlayIndexed(s, before, revision);
      var step := ApplyOperation(before.overlay, op, revision).value;
      OperationWrites(before.overlay, op, revision, step);
      if id in step.affected {
        if !step.overlay.changed[id].IsVisible() { OperationHides(before.overlay, op, revision, step, id); }
      } else {
        NoDeletionHides(s, front, revision, before, id);
      }
    }
  }

  /** A transaction that deletes nothing leaves every active entity active; no transaction changes evidence. */
  lemma {:induction false} GraphKeepsReferences(g: Snapshot, tx: Transaction, p: PreparedGraph, id: RecordRef)
    requires Consistent(g) && Prepare(g, tx, g.revision + 1) == Ok(p) && id in g.records
    ensures id in Publish(g, p).records
    ensures g.records[id].Evidence? ==> Publish(g, p).records[id] == g.records[id]
    ensures g.records[id].IsActiveEntity() && !DeletesAny(tx.operations) ==> Publish(g, p).records[id].IsActiveEntity()
  {
    hide Prepare, Consistent, RunOperations, Publish, Indexed, ValidateChanged, NoDangling, CorrectsAccepted,
         AppendVersions, DeletesAny;
    assert Indexed(g) by { ConsistentIndexes(g); }
    var progress := CommitPublishesOverlay(g, tx, p);
    var changed := progress.overlay.changed;
    if id in changed {
      assert LegalChange(Some(g.records[id]), changed[id], id, g.revision + 1);
      if !DeletesAny(tx.operations) { NoDeletionHides(g, tx.operations, g.revision + 1, progress, id); }
    }
  }

  lemma {:induction false} BindingStays(g: Snapshot, tx: Transaction, p: PreparedGraph, b: Binding)
    requires Consistent(g) && Prepare(g, tx, g.revision + 1) == Ok(p)
      && BoundEvidence(Lookup(g.records, b.evidence), b).Ok?
    ensures BoundEvidence(Lookup(Publish(g, p).records, b.evidence), b).Ok?
  {
    hide Prepare, Consistent, Publish;
    GraphKeepsReferences(g, tx, p, b.evidence);
  }

  /** An import step keeps every job bound, although it checks only its own. */
  lemma {:induction false} ImportKeepsBound(g: Snapshot, tx: Transaction, p: PreparedGraph, id: RecordRef,
      c: ImportCheckpoint)
    requires Consistent(g) && Prepare(g, tx, g.revision + 1) == Ok(p) && !DeletesAny(tx.operations)
    requires JobBound(Current(g), id, c).Ok?
    ensures JobBound(Current(Publish(g, p)), id, c).Ok?
  {
    hide Prepare, Consistent, Publish, DeletesAny;
    GraphKeepsReferences(g, tx, p, id);
    BindingStays(g, tx, p, c.source);
    BindingStays(g, tx, p, c.mapping);
  }

  lemma {:induction false} ViewBound(g: Snapshot, tx: Transaction, p: PreparedGraph, id: RecordRef, c: ImportCheckpoint)
    requires Consistent(g) && Prepare(g, tx, g.revision + 1) == Ok(p)
    ensures JobBound(PreparedView(g, p), id, c) == JobBound(Current(Publish(g, p)), id, c)
    ensures Bound(PreparedView(g, p), c.source, c.mapping) == Bound(Current(Publish(g, p)), c.source, c.mapping)
  {
    hide Prepare, Consistent, Publish, PreparedView;
    ViewIsPublished(g, tx, p, id);
    ViewIsPublished(g, tx, p, c.source.evidence);
    ViewIsPublished(g, tx, p, c.mapping.evidence);
  }

  lemma {:induction false} AsOfStays(g: Snapshot, tx: Transaction, p: PreparedGraph, revision: nat, id: RecordRef)
    requires Consistent(g) && Prepare(g, tx, g.revision + 1) == Ok(p) && revision <= g.revision
    ensures AsOf(Publish(g, p), revision)(id) == AsOf(g, revision)(id)
  {
    hide Prepare, Consistent, Publish, RecordAt;
    AcceptedKeepsPast(g, tx, p, id, revision);
    CommitAdvances(g, tx, p);
  }

  lemma {:induction false} BoundAsOfStays(g: Snapshot, tx: Transaction, p: PreparedGraph, revision: nat, id: RecordRef,
      c: ImportCheckpoint)
    requires Consistent(g) && Prepare(g, tx, g.revision + 1) == Ok(p) && revision <= g.revision
    ensures JobBound(AsOf(Publish(g, p), revision), id, c) == JobBound(AsOf(g, revision), id, c)
  {
    hide Prepare, Consistent, Publish, AsOf;
    AsOfStays(g, tx, p, revision, id);
    AsOfStays(g, tx, p, revision, c.source.evidence);
    AsOfStays(g, tx, p, revision, c.mapping.evidence);
  }

  lemma {:induction false} BoundAsOfNow(g: Snapshot, id: RecordRef, c: ImportCheckpoint)
    requires Consistent(g) && id.scope == g.scope && BindingScope(g.scope, c.source, c.mapping).Ok?
    ensures JobBound(AsOf(g, g.revision), id, c) == JobBound(Current(g), id, c)
  {
    hide Consistent, RecordAt;
    assert HistoriesKept(g) by { ConsistentIndexes(g); }
    RecordAtNow(g, id);
    RecordAtNow(g, c.source.evidence);
    RecordAtNow(g, c.mapping.evidence);
  }

  // Rows entering the ledger

  function RowEvents(rows: seq<MappedRow>): set<SourceEvent> {
    set row | row in rows :: row.event
  }

  lemma RowEventsStep(rows: seq<MappedRow>)
    requires rows != []
    ensures RowEvents(rows) == RowEvents(rows[..|rows| - 1]) + {rows[|rows| - 1].event}
  {
    var front, last := rows[..|rows| - 1], rows[|rows| - 1];
    assert rows == front + [last];
    assert forall row :: row in rows <==> row in front || row == last;
  }

  lemma {:induction false} EventsAdded(events: map<SourceEvent, nat>, rows: seq<MappedRow>)
    ensures WithEvents(events, rows).Keys == events.Keys + RowEvents(rows)
    decreases |rows|
  {
    if rows != [] {
      EventsAdded(events, rows[..|rows| - 1]);
      RowEventsStep(rows);
    }
  }

  lemma {:induction false} EventsCounted(events: map<SourceEvent, nat>, rows: seq<MappedRow>)
    requires forall i :: 0 <= i < |rows| ==> rows[i].event !in events
    requires forall i, j :: 0 <= i < j < |rows| ==> rows[i].event != rows[j].event
    ensures |WithEvents(events, rows)| == |events| + |rows|
    decreases |rows|
  {
    if rows != [] {
      var front, last := rows[..|rows| - 1], rows[|rows| - 1];
      EventsCounted(events, front);
      EventsAdded(events, front);
      assert last.event !in RowEvents(front);
      assert last.event !in WithEvents(events, front);
    }
  }

  lemma {:induction false} OwnersAdded(owners: map<SourceEvent, RecordRef>, rows: seq<MappedRow>, job: RecordRef)
    ensures forall event ::
      Lookup(WithOwners(owners, rows, job), event) == if event in RowEvents(rows) then Some(job)
      else Lookup(owners, event)
    decreases |rows|
  {
    if rows != [] {
      OwnersAdded(owners, rows[..|rows| - 1], job);
      RowEventsStep(rows);
    }
  }

  // One job, one step later

  lemma {:induction false} JobGoodLater(c: ImportCheckpoint, receipts: seq<Receipt>, revision: nat, later: nat)
    requires JobGood(c, receipts, revision) && revision <= later
    ensures JobGood(c, receipts, later)
  {
    forall i | 0 <= i < |receipts| ensures ReceiptGood(c, receipts, later, i) {
      assert ReceiptGood(c, receipts, revision, i);
    }
  }

  lemma {:induction false} MarksBounded(c: ImportCheckpoint, receipts: seq<Receipt>, revision: nat)
    requires JobGood(c, receipts, revision)
    ensures forall m :: m in Marks(c, receipts) ==> 1 <= m <= revision
  {
    forall r | r in receipts ensures 1 <= r.revision <= revision {
      var i :| 0 <= i < |receipts| && receipts[i] == r;
      assert ReceiptGood(c, receipts, revision, i);
    }
  }

  /** The sequence a job expects is the number of its next batch. */
  lemma NextSequence(c: ImportCheckpoint, receipts: seq<Receipt>, revision: nat)
    requires JobGood(c, receipts, revision)
    ensures c.nextBatch == c.version == |receipts| + 1 && c.acceptedRows == c.nextRow == Rows(receipts)
  {
    if receipts != [] {
      assert ReceiptGood(c, receipts, revision, |receipts| - 1);
      assert receipts[..|receipts|] == receipts;
    }
  }

  lemma {:induction false} JobGrows(c: ImportCheckpoint, receipts: seq<Receipt>, revision: nat, r: Receipt,
      completed: bool, chain: nat)
    requires JobGood(c, receipts, revision) && c.status == Open
    requires 1 <= r.rowCount <= MAX_ROWS_PER_BATCH && r.revision == revision + 1
    requires Advanced(c, r.rowCount, revision + 1, completed, chain) == Ok(r.checkpoint)
    ensures JobGood(r.checkpoint, receipts + [r], revision + 1)
  {
    var all, n, later := receipts + [r], |receipts|, revision + 1;
    NextSequence(c, receipts, revision);
    if n > 0 { assert ReceiptGood(c, receipts, revision, n - 1); }
    forall i | 0 <= i < |all| ensures ReceiptGood(r.checkpoint, all, later, i) {
      if i < n {
        assert ReceiptGood(c, receipts, revision, i);
        assert all[..i + 1] == receipts[..i + 1];
      } else {
        assert all[..n + 1] == all && all[..n] == receipts;
      }
    }
  }

  lemma {:induction false} ReceiptsGrow(batches: map<nat, Receipt>, r: Receipt)
    requires Contiguous(batches)
    ensures var next := batches[|batches| + 1 := r];
      && Contiguous(next) && ReceiptsOf(next) == ReceiptsOf(batches) + [r]
  {
    var next := batches[|batches| + 1 := r];
    BatchesGrow(batches, r);
    var was, now := ReceiptsOf(batches), ReceiptsOf(next);
    assert |now| == |was| + 1;
    forall i | 0 <= i < |now| ensures now[i] == (was + [r])[i] {
      if i < |was| { assert now[i] == batches[i + 1]; }
    }
  }

  lemma {:induction false} BatchesGrow(batches: map<nat, Receipt>, r: Receipt)
    requires Contiguous(batches)
    ensures var next := batches[|batches| + 1 := r]; |next| == |batches| + 1 && Contiguous(next)
  {
    var n := |batches| + 1;
    OneMoreKey(batches, n, r);
    assert |batches[n := r]| == n;
    assert forall k: nat :: k in batches[n := r] <==> k in batches || k == n;
  }

  lemma OneMoreKey(m: map<nat, Receipt>, k: nat, r: Receipt)
    requires k !in m
    ensures |m[k := r]| == |m| + 1
  {
    assert m[k := r].Keys == m.Keys + {k};
  }

  lemma MarksGrow(c: ImportCheckpoint, receipts: seq<Receipt>, r: Receipt, next: ImportCheckpoint)
    requires next.firstRevision == c.firstRevision
    ensures Marks(next, receipts + [r]) == Marks(c, receipts) + {r.revision}
  {
    assert forall x :: x in receipts + [r] <==> x in receipts || x == r;
  }

  // One step of the engine

  function GraphOf(tx: EngineTransaction): Transaction {
    match tx
    case GraphOnly(_, graph) => graph
    case StartJob(_, start) => start.graph
    case ApplyBatch(_, b) => b.graph
  }

  ghost predicate GraphPart(e: Engine, tx: EngineTransaction, p: PreparedIngest) {
    && Prepare(e.graph, GraphOf(tx), e.revision + 1) == Ok(p.graph) && CanPublish(e.graph, p.graph)
    && (!tx.GraphOnly? ==> !DeletesAny(GraphOf(tx).operations))
    && p.baseRevision == e.revision && p.revision == e.revision + 1
  }

  lemma StartGraphPart(e: Engine, start: ImportStart, request: Request, p: PreparedIngest)
    requires PrepareStart(e, start, request, e.revision + 1) == Ok(p) && request.tx == StartJob(e.scope, start)
    ensures GraphPart(e, request.tx, p)
  {
    hide Prepare, CanPublish, DeletesAny, JobBound;
  }

  lemma BatchGraphPart(e: Engine, b: ImportBatch, request: Request, p: PreparedIngest)
    requires PrepareBatch(e, b, request, e.revision + 1) == Ok(p) && request.tx == ApplyBatch(e.scope, b)
    ensures GraphPart(e, request.tx, p)
  {
    hide Prepare, CanPublish, DeletesAny, JobBound, Bound, CheckRows;
  }

  lemma PlainGraphPart(e: Engine, graph: Transaction, request: Request, p: PreparedIngest)
    requires PrepareGraphOnly(e, graph, request, e.revision + 1) == Ok(p) && request.tx == GraphOnly(e.scope, graph)
    ensures GraphPart(e, request.tx, p)
  {
    hide Prepare, CanPublish, JobsBound;
  }

  /** The graph side of an accepted request: one prepared transaction, without deletions when it is an import. */
  lemma {:induction false} PreparedGraphPart(e: Engine, request: Request, p: PreparedIngest)
    requires PrepareDomain(e, request, e.revision + 1) == Ok(p)
    ensures Prepare(e.graph, GraphOf(request.tx), e.revision + 1) == Ok(p.graph) && CanPublish(e.graph, p.graph)
    ensures !request.tx.GraphOnly? ==> !DeletesAny(GraphOf(request.tx).operations)
    ensures p.baseRevision == e.revision && p.revision == e.revision + 1
  {
    hide Prepare, CanPublish, DeletesAny, PrepareStart, PrepareBatch, PrepareGraphOnly;
    match request.tx
    case GraphOnly(_, graph) => PlainGraphPart(e, graph, request, p);
    case StartJob(_, start) => StartGraphPart(e, start, request, p);
    case ApplyBatch(_, b) => BatchGraphPart(e, b, request, p);
  }

  /** The new engine holds the published graph one revision later; its jobs are those of the mutation. */
  ghost predicate Follows(e: Engine, tx: Transaction, graph: PreparedGraph, next: Engine) {
    && Prepare(e.graph, tx, e.revision + 1) == Ok(graph)
    && next.scope == e.scope && next.revision == e.revision + 1 && next.graph == Publish(e.graph, graph)
  }

  lemma {:induction false} GraphFollows(e: Engine, tx: Transaction, graph: PreparedGraph, next: Engine)
    requires Ledgered(e) && Follows(e, tx, graph, next)
    ensures next.graph.scope == next.scope && next.graph.revision == next.revision && Consistent(next.graph)
  {
    hide Consistent, Prepare, Publish, JobLedger, SeparateMarks, EventsIndexed, BatchIds;
    CommitKeepsConsistent(e.graph, tx, graph);
    CommitAdvances(e.graph, tx, graph);
  }

  lemma {:induction false} OldJobStays(e: Engine, tx: Transaction, graph: PreparedGraph, next: Engine, id: RecordRef)
    requires Ledgered(e) && Follows(e, tx, graph, next) && id in e.jobs && id in next.jobs
      && next.jobs[id] == e.jobs[id]
    requires JobBound(Current(next.graph), id, e.jobs[id].checkpoint).Ok?
    ensures JobLedger(next, id)
  {
    hide Consistent, Prepare, Publish, SeparateMarks, EventsIndexed, BatchIds, JobBound, JobGood, Contiguous,
         BindingScope;
    assert JobLedger(e, id);
    var job := e.jobs[id];
    JobGoodLater(job.checkpoint, ReceiptsOf(job.batches), e.revision, next.revision);
    assert job.checkpoint.firstRevision <= e.revision by {
      FirstRevisionPast(job.checkpoint, ReceiptsOf(job.batches), e.revision);
    }
    BoundAsOfStays(e.graph, tx, graph, job.checkpoint.firstRevision, id, job.checkpoint);
  }

  lemma FirstRevisionPast(c: ImportCheckpoint, receipts: seq<Receipt>, revision: nat)
    requires JobGood(c, receipts, revision)
    ensures 1 <= c.firstRevision <= revision
  {
  }

  lemma {:induction false} ClosureMeaning(view: RecordRef -> Option<Record>, jobs: Jobs, ids: seq<RecordRef>)
    requires JobsBound(view, jobs, ids).Ok?
    ensures forall id :: id in ids && id in jobs ==> JobBound(view, id, jobs[id].checkpoint).Ok?
    decreases |ids|
  {
    hide JobBound;
    if ids != [] { ClosureMeaning(view, jobs, ids[1..]); }
  }

  lemma LedgeredJob(e: Engine, id: RecordRef)
    requires Ledgered(e) && id in e.jobs
    ensures Consistent(e.graph) && e.graph.revision == e.revision && e.graph.scope == e.scope
    ensures JobLedger(e, id) && JobBound(Current(e.graph), id, e.jobs[id].checkpoint).Ok?
  {
    hide Consistent, SeparateMarks, EventsIndexed, BatchIds;
  }

  /** Every job stays bound across any accepted request. */
  lemma {:induction false} JobsStayBound(e: Engine, request: Request, p: PreparedIngest, id: RecordRef)
    requires Ledgered(e) && PrepareDomain(e, request, e.revision + 1) == Ok(p) && id in e.jobs
    ensures JobBound(Current(Publish(e.graph, p.graph)), id, e.jobs[id].checkpoint).Ok?
  {
    hide Ledgered, Consistent, Prepare, Publish, PrepareDomain, JobsBound, JobBound, CanPublish, DeletesAny,
         PreparedView, Current;
    PreparedGraphPart(e, request, p);
    var tx := GraphOf(request.tx);
    LedgeredJob(e, id);
    if request.tx.GraphOnly? {
      ViewBound(e.graph, tx, p.graph, id, e.jobs[id].checkpoint);
      GraphOnlyClosed(e, request, p);
      ClosureMeaning(PreparedView(e.graph, p.graph), e.jobs, Sorted(e.jobs.Keys));
      assert id in Sorted(e.jobs.Keys);
    } else {
      ImportKeepsBound(e.graph, tx, p.graph, id, e.jobs[id].checkpoint);
    }
  }

  lemma GraphOnlyClosed(e: Engine, request: Request, p: PreparedIngest)
    requires PrepareDomain(e, request, e.revision + 1) == Ok(p) && request.tx.GraphOnly?
    ensures JobsBound(PreparedView(e.graph, p.graph), e.jobs, Sorted(e.jobs.Keys)).Ok? && p.mutation == NoMutation
  {
    hide Prepare, CanPublish, JobsBound, PreparedView;
  }

  lemma StartParts(e: Engine, request: Request, p: PreparedIngest)
    requires PrepareDomain(e, request, e.revision + 1) == Ok(p) && request.tx.StartJob?
    ensures var start := request.tx.start;
      var c := Started(start.job, start.source, start.mapping, e.revision + 1, request.chain);
      && p.mutation == Start(start.job, JobState(c, map[], map[]))
      && start.job.scope == e.scope && BindingScope(e.scope, c.source, c.mapping).Ok?
      && start.job !in e.jobs && |e.jobs| != MAX_IMPORT_JOBS
      && JobBound(PreparedView(e.graph, p.graph), start.job, c).Ok?
  {
    hide Prepare, CanPublish, JobBound, PreparedView, DeletesAny;
  }

  lemma BatchParts(e: Engine, request: Request, p: PreparedIngest)
    requires PrepareDomain(e, request, e.revision + 1) == Ok(p) && request.tx.ApplyBatch?
    ensures var b := request.tx.batch;
      && b.job in e.jobs
      && var c := e.jobs[b.job].checkpoint;
      && b.expected == c && b.sequence == c.nextBatch && c.status == Open && e.batchCount != MAX_IMPORT_BATCHES
      && 1 <= |b.rows| <= MAX_ROWS_PER_BATCH && RowsFresh(e.scope, b.rows, e.sourceEvents)
      && Advanced(c, |b.rows|, e.revision + 1, b.final, request.chain).Ok?
      && var after := Advanced(c, |b.rows|, e.revision + 1, b.final, request.chain).value;
      p.mutation == Batch(b.job, c, b.sequence, Receipt(request.digest, e.revision + 1, |b.rows|, after), b.rows)
  {
    hide Prepare, CanPublish, JobBound, PreparedView, DeletesAny, Bound, RowsFresh, Advanced;
  }

  lemma {:induction false} MutationFits(e: Engine, request: Request, p: PreparedIngest)
    requires Ledgered(e) && PrepareDomain(e, request, e.revision + 1) == Ok(p)
    ensures CanPublishIngest(e, p)
  {
    hide Consistent, Prepare, Publish, PrepareDomain, SeparateMarks, EventsIndexed, BatchIds, CanPublish, DeletesAny,
         JobBound, JobGood, ReceiptsOf;
    PreparedGraphPart(e, request, p);
    match request.tx
    case GraphOnly(_, _) => GraphOnlyClosed(e, request, p);
    case StartJob(_, _) => StartParts(e, request, p);
    case ApplyBatch(_, b) =>
      BatchParts(e, request, p);
      LedgeredJob(e, b.job);
      var job := e.jobs[b.job];
      NextSequence(job.checkpoint, ReceiptsOf(job.batches), e.revision);
      ReceiptCount(job.batches);
  }

  lemma ReceiptCount(batches: map<nat, Receipt>)
    requires Contiguous(batches)
    ensures |ReceiptsOf(batches)| == |batches| && |batches| + 1 !in batches
  {
  }

  // Each kind of step keeps the ledger

  /** Unchanged jobs: the whole ledger of jobs, seen on the next graph. */
  lemma {:induction false} OthersStay(e: Engine, request: Request, p: PreparedIngest, next: Engine, id: RecordRef)
    requires Ledgered(e) && PrepareDomain(e, request, e.revision + 1) == Ok(p)
    requires next.scope == e.scope && next.revision == e.revision + 1 && next.graph == Publish(e.graph, p.graph)
    requires id in e.jobs && id in next.jobs && next.jobs[id] == e.jobs[id]
    ensures JobLedger(next, id)
  {
    hide *;
    PreparedGraphPart(e, request, p);
    assert Follows(e, GraphOf(request.tx), p.graph, next) by { FollowsFrom(e, GraphOf(request.tx), p.graph, next); }
    JobsStayBound(e, request, p, id);
    OldJobStays(e, GraphOf(request.tx), p.graph, next, id);
  }

  lemma FollowsFrom(e: Engine, tx: Transaction, graph: PreparedGraph, next: Engine)
    requires Prepare(e.graph, tx, e.revision + 1) == Ok(graph)
    requires next.scope == e.scope && next.revision == e.revision + 1 && next.graph == Publish(e.graph, graph)
    ensures Follows(e, tx, graph, next)
  {
  }

  lemma {:induction false} NextGraph(e: Engine, request: Request, p: PreparedIngest)
    requires Ledgered(e) && PrepareDomain(e, request, e.revision + 1) == Ok(p)
    ensures var g := Publish(e.graph, p.graph); g.scope == e.scope && g.revision == e.revision + 1 && Consistent(g)
  {
    hide *;
    PreparedGraphPart(e, request, p);
    var next := e.(graph := Publish(e.graph, p.graph), revision := e.revision + 1);
    FollowsFrom(e, GraphOf(request.tx), p.graph, next);
    GraphFollows(e, GraphOf(request.tx), p.graph, next);
  }

  lemma {:induction false} GraphOnlyKeepsLedger(e: Engine, request: Request, p: PreparedIngest)
    requires Ledgered(e) && PrepareDomain(e, request, e.revision + 1) == Ok(p) && request.tx.GraphOnly?
      && CanPublishIngest(e, p)
    ensures Ledgered(PublishIngest(e, p))
  {
    hide Consistent, Prepare, Publish, PrepareDomain, SeparateMarks, EventsIndexed, BatchIds, CanPublish, JobLedger;
    GraphOnlyClosed(e, request, p);
    PreparedGraphPart(e, request, p);
    NextGraph(e, request, p);
    var next := PublishIngest(e, p);
    forall id | id in next.jobs ensures JobLedger(next, id) { OthersStay(e, request, p, next, id); }
  }

  lemma {:induction false} NewJob(e: Engine, request: Request, p: PreparedIngest, next: Engine)
    requires Ledgered(e) && PrepareDomain(e, request, e.revision + 1) == Ok(p) && request.tx.StartJob?
    requires CanPublishIngest(e, p) && next == PublishIngest(e, p)
    ensures request.tx.start.job in next.jobs && JobLedger(next, request.tx.start.job)
    ensures JobMarks(next.jobs[request.tx.start.job]) == {e.revision + 1}
  {
    hide Ledgered, Consistent, Prepare, Publish, PrepareDomain, CanPublish, JobBound, PreparedView, Current, AsOf,
         BindingScope;
    StartParts(e, request, p);
    PreparedGraphPart(e, request, p);
    NextGraph(e, request, p);
    var id := request.tx.start.job;
    var job := next.jobs[id];
    EngineGraph(e);
    ViewBound(e.graph, GraphOf(request.tx), p.graph, id, job.checkpoint);
    BoundAsOfNow(next.graph, id, job.checkpoint);
    assert ReceiptsOf(job.batches) == [];
  }

  lemma EngineGraph(e: Engine)
    requires Ledgered(e)
    ensures Consistent(e.graph) && e.graph.revision == e.revision && e.graph.scope == e.scope
  {
  }

  lemma {:induction false} MarksPast(e: Engine, id: RecordRef)
    requires Ledgered(e) && id in e.jobs
    ensures forall m :: m in JobMarks(e.jobs[id]) ==> m <= e.revision
  {
    hide Consistent, SeparateMarks, EventsIndexed, BatchIds, JobBound, JobGood, Contiguous, Marks, ReceiptsOf;
    LedgeredJob(e, id);
    MarksBounded(e.jobs[id].checkpoint, ReceiptsOf(e.jobs[id].batches), e.revision);
  }

  /** Changing one job's marks by adding the newest revision keeps all marks apart. */
  lemma {:induction false} MarksStaySeparate(e: Engine, id: RecordRef, job: JobState)
    requires Ledgered(e)
    requires JobMarks(job) == (if id in e.jobs then JobMarks(e.jobs[id]) else {}) + {e.revision + 1}
    ensures SeparateMarks(e.jobs[id := job])
  {
    hide Consistent, EventsIndexed, BatchIds, JobLedger, JobMarks;
    var jobs := e.jobs[id := job];
    forall a | a in e.jobs ensures forall m :: m in JobMarks(e.jobs[a]) ==> m <= e.revision { MarksPast(e, a); }
    forall a, b | a in jobs && b in jobs && a != b ensures JobMarks(jobs[a]) !! JobMarks(jobs[b]) {
      if a in e.jobs && b in e.jobs { assert JobMarks(e.jobs[a]) !! JobMarks(e.jobs[b]); }
    }
  }

  lemma {:induction false} FreshEvents(jobs: Jobs, index: map<SourceEvent, RecordRef>, id: RecordRef, job: JobState)
    requires id !in jobs && job.sourceEvents == map[] && EventsIndexed(jobs, index)
    ensures EventsIndexed(jobs[id := job], index)
  {
    var next := jobs[id := job];
    forall event | event in index ensures index[event] in next && event in next[index[event]].sourceEvents {
      assert index[event] in jobs;
    }
    forall other, event | other in next && event in next[other].sourceEvents
      ensures event in index && index[event] == other
    {
      assert other in jobs;
    }
  }

  lemma {:induction false} FreshJob(jobs: Jobs, index: map<SourceEvent, RecordRef>, id: RecordRef, job: JobState)
    requires id !in jobs && job.batches == map[] && job.sourceEvents == map[] && EventsIndexed(jobs, index)
    ensures BatchIds(jobs[id := job]) == BatchIds(jobs) && |jobs[id := job]| == |jobs| + 1
    ensures EventsIndexed(jobs[id := job], index)
  {
    hide *;
    assert jobs[id := job].Keys == jobs.Keys + {id};
    FreshBatches(jobs, id, job);
    FreshEvents(jobs, index, id, job);
  }

  lemma {:induction false} FreshBatches(jobs: Jobs, id: RecordRef, job: JobState)
    requires id !in jobs && job.batches == map[]
    ensures BatchIds(jobs[id := job]) == BatchIds(jobs)
  {
    var next := jobs[id := job];
    forall other, k ensures (other, k) in BatchIds(next) <==> (other, k) in BatchIds(jobs) {
    }
  }

  lemma {:induction false} StartKeepsLedger(e: Engine, request: Request, p: PreparedIngest)
    requires Ledgered(e) && PrepareDomain(e, request, e.revision + 1) == Ok(p) && request.tx.StartJob?
      && CanPublishIngest(e, p)
    ensures Ledgered(PublishIngest(e, p))
  {
    hide Consistent, Prepare, Publish, PrepareDomain, SeparateMarks, CanPublish, JobLedger, JobMarks, JobBound,
         BindingScope, PreparedView;
    hide EventsIndexed, BatchIds;
    var next, id := PublishIngest(e, p), request.tx.start.job;
    StartParts(e, request, p);
    PreparedGraphPart(e, request, p);
    NextGraph(e, request, p);
    NewJob(e, request, p, next);
    forall other | other in next.jobs ensures JobLedger(next, other) {
      if other != id { OthersStay(e, request, p, next, other); }
    }
    MarksStaySeparate(e, id, next.jobs[id]);
    FreshJob(e.jobs, e.sourceEvents, id, next.jobs[id]);
  }

  lemma {:induction false} GrownBatches(jobs: Jobs, id: RecordRef, sequence: nat, receipt: Receipt,
      rows: seq<MappedRow>)
    requires id in jobs && sequence !in jobs[id].batches
    ensures |BatchIds(jobs[id := AfterBatch(jobs[id], sequence, receipt, rows)])| == |BatchIds(jobs)| + 1
    ensures jobs[id := AfterBatch(jobs[id], sequence, receipt, rows)].Keys == jobs.Keys
  {
    hide WithEvents, BatchIds;
    var next := jobs[id := AfterBatch(jobs[id], sequence, receipt, rows)];
    forall x ensures x in BatchIds(next) <==> x in BatchIds(jobs) || x == (id, sequence) {
      BatchListed(jobs, x);
      BatchListed(next, x);
    }
    BatchListed(jobs, (id, sequence));
    assert BatchIds(next) == BatchIds(jobs) + {(id, sequence)};
    assert next.Keys == jobs.Keys;
  }

  lemma BatchListed(jobs: Jobs, x: (RecordRef, nat))
    ensures x in BatchIds(jobs) <==> x.0 in jobs && x.1 in jobs[x.0].batches
  {
    if x.0 in jobs && x.1 in jobs[x.0].batches { assert (x.0, x.1) == x; }
  }

  lemma {:induction false} GrownEvents(jobs: Jobs, index: map<SourceEvent, RecordRef>, id: RecordRef, sequence: nat,
      receipt: Receipt, rows: seq<MappedRow>)
    requires id in jobs && EventsIndexed(jobs, index)
    requires forall i :: 0 <= i < |rows| ==> rows[i].event !in index
    ensures EventsIndexed(jobs[id := AfterBatch(jobs[id], sequence, receipt, rows)], WithOwners(index, rows, id))
  {
    hide WithEvents, WithOwners;
    var next, owners := jobs[id := AfterBatch(jobs[id], sequence, receipt, rows)], WithOwners(index, rows, id);
    EventsAdded(jobs[id].sourceEvents, rows);
    OwnersAdded(index, rows, id);
    forall event ensures Lookup(owners, event) == if event in RowEvents(rows) then Some(id) else Lookup(index, event) {}
    forall event | event in RowEvents(rows) ensures event !in index {
      var row :| row in rows && row.event == event;
    }
    forall event | event in owners ensures owners[event] in next && event in next[owners[event]].sourceEvents {
      assert Lookup(owners, event) == if event in RowEvents(rows) then Some(id) else Lookup(index, event);
    }
    forall other, event | other in next && event in next[other].sourceEvents
      ensures event in owners && owners[event] == other
    {
      assert Lookup(owners, event) == if event in RowEvents(rows) then Some(id) else Lookup(index, event);
    }
  }

  lemma {:induction false} FreshForJob(e: Engine, id: RecordRef, rows: seq<MappedRow>)
    requires EventsIndexed(e.jobs, e.sourceEvents) && id in e.jobs && RowsFresh(e.scope, rows, e.sourceEvents)
    ensures |WithEvents(e.jobs[id].sourceEvents, rows)| == |e.jobs[id].sourceEvents| + |rows|
    ensures forall event :: event in WithEvents(e.jobs[id].sourceEvents, rows) ==>
      event in e.jobs[id].sourceEvents || event.scope == e.scope
  {
    EventsCounted(e.jobs[id].sourceEvents, rows);
    EventsAdded(e.jobs[id].sourceEvents, rows);
  }

  lemma LedgeredEvents(e: Engine)
    requires Ledgered(e)
    ensures EventsIndexed(e.jobs, e.sourceEvents)
  {
  }

  lemma AdvancedKeeps(c: ImportCheckpoint, rows: nat, revision: nat, completed: bool, chain: nat)
    requires Advanced(c, rows, revision, completed, chain).Ok?
    ensures var next := Advanced(c, rows, revision, completed, chain).value;
      next.job == c.job && next.source == c.source && next.mapping == c.mapping && next.firstRevision == c.firstRevision
      && next.acceptedRows == c.acceptedRows + rows
  {
  }

  /** The job a batch extends. */
  lemma {:induction false} GrownJob(e: Engine, request: Request, p: PreparedIngest, next: Engine)
    requires Ledgered(e) && PrepareDomain(e, request, e.revision + 1) == Ok(p) && request.tx.ApplyBatch?
    requires CanPublishIngest(e, p) && next == PublishIngest(e, p) && request.tx.batch.job in e.jobs
    ensures request.tx.batch.job in next.jobs && JobLedger(next, request.tx.batch.job)
    ensures JobMarks(next.jobs[request.tx.batch.job]) == JobMarks(e.jobs[request.tx.batch.job]) + {e.revision + 1}
  {
    hide Ledgered, Consistent, Prepare, Publish, PrepareDomain, CanPublish, JobBound, Current, AsOf, BindingScope,
         JobGood, Contiguous, ReceiptsOf, Marks, Advanced, WithEvents, WithOwners, EventsIndexed, RowsFresh, JobMarks;
    BatchParts(e, request, p);
    PreparedGraphPart(e, request, p);
    NextGraph(e, request, p);
    var b := request.tx.batch;
    var id, job := b.job, e.jobs[b.job];
    LedgeredJob(e, id);
    LedgeredEvents(e);
    JobsStayBound(e, request, p, id);
    var after := Advanced(job.checkpoint, |b.rows|, e.revision + 1, b.final, request.chain).value;
    AdvancedKeeps(job.checkpoint, |b.rows|, e.revision + 1, b.final, request.chain);
    var r := Receipt(request.digest, e.revision + 1, |b.rows|, after);
    NextSequence(job.checkpoint, ReceiptsOf(job.batches), e.revision);
    ReceiptCount(job.batches);
    ReceiptsGrow(job.batches, r);
    JobGrows(job.checkpoint, ReceiptsOf(job.batches), e.revision, r, b.final, request.chain);
    FreshForJob(e, id, b.rows);
    FirstRevisionPast(job.checkpoint, ReceiptsOf(job.batches), e.revision);
    BoundAsOfStays(e.graph, GraphOf(request.tx), p.graph, job.checkpoint.firstRevision, id, job.checkpoint);
    BoundAlike(e, next, id, job.checkpoint, after);
    GrownMarks(job, r, b.rows, after);
  }

  lemma BoundAlike(e: Engine, next: Engine, id: RecordRef, c: ImportCheckpoint, d: ImportCheckpoint)
    requires c.source == d.source && c.mapping == d.mapping && c.firstRevision == d.firstRevision
    ensures JobBound(Current(next.graph), id, c) == JobBound(Current(next.graph), id, d)
    ensures JobBound(AsOf(next.graph, c.firstRevision), id, c) == JobBound(AsOf(next.graph, c.firstRevision), id, d)
  {
    hide Current, AsOf;
  }

  lemma GrownMarks(job: JobState, r: Receipt, rows: seq<MappedRow>, after: ImportCheckpoint)
    requires Contiguous(job.batches) && r.checkpoint == after && after.firstRevision == job.checkpoint.firstRevision
    ensures JobMarks(AfterBatch(job, |job.batches| + 1, r, rows)) == JobMarks(job) + {r.revision}
  {
    hide WithEvents, Contiguous, ReceiptsOf, Marks;
    ReceiptsGrow(job.batches, r);
    MarksGrow(job.checkpoint, ReceiptsOf(job.batches), r, after);
  }

  lemma {:induction false} BatchKeepsLedger(e: Engine, request: Request, p: PreparedIngest)
    requires Ledgered(e) && PrepareDomain(e, request, e.revision + 1) == Ok(p) && request.tx.ApplyBatch?
      && CanPublishIngest(e, p)
    ensures Ledgered(PublishIngest(e, p))
  {
    hide Consistent, Prepare, Publish, PrepareDomain, SeparateMarks, CanPublish, JobLedger, JobMarks, Advanced,
         WithEvents, WithOwners;
    hide EventsIndexed, BatchIds, RowsFresh, AfterBatch;
    var next, b := PublishIngest(e, p), request.tx.batch;
    BatchParts(e, request, p);
    PreparedGraphPart(e, request, p);
    NextGraph(e, request, p);
    GrownJob(e, request, p, next);
    forall other | other in next.jobs ensures JobLedger(next, other) {
      if other != b.job { OthersStay(e, request, p, next, other); }
    }
    MarksStaySeparate(e, b.job, next.jobs[b.job]);
    GrownBatches(e.jobs, b.job, b.sequence, p.mutation.receipt, b.rows);
    GrownEvents(e.jobs, e.sourceEvents, b.job, b.sequence, p.mutation.receipt, b.rows);
  }

  // Every run

  lemma NewLedgered(scope: nat)
    ensures Ledgered(NewEngine(scope))
  {
    hide Consistent;
    NewIsConsistent(scope);
    assert BatchIds(NewEngine(scope).jobs) == {};
  }

  lemma {:induction false} StepKeepsLedger(e: Engine, request: Request)
    requires Ledgered(e)
    ensures Ledgered(StepEngine(e, request)) && StepEngine(e, request).scope == e.scope
  {
    hide Ledgered, PrepareDomain, PublishIngest, CanPublishIngest;
    match PrepareDomain(e, request, e.revision + 1)
    case Ok(p) =>
      MutationFits(e, request, p);
      PublishedScope(e, p);
      match request.tx {
        case GraphOnly(_, _) => GraphOnlyKeepsLedger(e, request, p);
        case StartJob(_, _) => StartKeepsLedger(e, request, p);
        case ApplyBatch(_, _) => BatchKeepsLedger(e, request, p);
      }
    case Err(_) =>
  }

  lemma PublishedScope(e: Engine, p: PreparedIngest)
    requires CanPublishIngest(e, p)
    ensures PublishIngest(e, p).scope == e.scope
  {
    hide Publish, WithEvents, WithOwners;
  }

  /** In every run batches are 1..n, accepted rows equal the cursor, the receipts' sum and the number of source
      events, every event has one owner, and every job's entity and bindings are valid now and were when it
      started. */
  lemma {:induction false} EveryRunIsLedgered(scope: nat, requests: seq<Request>)
    ensures Ledgered(RunEngine(scope, requests)) && RunEngine(scope, requests).scope == scope
    decreases |requests|
  {
    hide Ledgered, StepEngine;
    if requests == [] {
      NewLedgered(scope);
    } else {
      EveryRunIsLedgered(scope, requests[..|requests| - 1]);
      StepKeepsLedger(RunEngine(scope, requests[..|requests| - 1]), requests[|requests| - 1]);
    }
  }
}
