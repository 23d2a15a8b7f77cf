/** Exactly-once import over whole runs: no source event is accepted twice, and a repeated batch is refused
    (crates/uste-ingest/src/state.rs:283-393, 744-770). */
module Replay {
  import opened Base
  import opened Records
  import opened Reducer
  import opened Invariant
  import opened Ingest
  import opened Ledger

  /** Request `i` of the run was accepted and imported `event`. */
  ghost predicate Imports(scope: nat, requests: seq<Request>, i: nat, event: SourceEvent)
    requires i < |requests|
  {
    var e := RunEngine(scope, requests[..i]);
    && PrepareDomain(e, requests[i], e.revision + 1).Ok?
    && requests[i].tx.ApplyBatch? && event in RowEvents(requests[i].tx.batch.rows)
  }

  lemma {:induction false} EventsAreKept(e: Engine, request: Request, event: SourceEvent)
    requires Ledgered(e) && event in e.sourceEvents
    ensures event in StepEngine(e, request).sourceEvents
  {
    hide Ledgered, PrepareDomain, CanPublishIngest, Publish, WithOwners, WithEvents;
    match PrepareDomain(e, request, e.revision + 1)
    case Ok(p) =>
      if CanPublishIngest(e, p) {
        PublishedEvents(e, p);
        if p.mutation.Batch? { OwnersAdded(e.sourceEvents, p.mutation.rows, p.mutation.job); OwnerKept(e, p, event); }
      }
    case Err(_) =>
  }

  lemma PublishedEvents(e: Engine, p: PreparedIngest)
    requires CanPublishIngest(e, p)
    ensures PublishIngest(e, p).sourceEvents == if p.mutation.Batch?
      then WithOwners(e.sourceEvents, p.mutation.rows, p.mutation.job) else e.sourceEvents
  {
    hide Publish, WithOwners, WithEvents;
  }

  lemma OwnerKept(e: Engine, p: PreparedIngest, event: SourceEvent)
    requires p.mutation.Batch? && event in e.sourceEvents
    requires forall x ::
      Lookup(WithOwners(e.sourceEvents, p.mutation.rows, p.mutation.job), x) == if x in RowEvents(p.mutation.rows)
      then Some(p.mutation.job) else Lookup(e.sourceEvents, x)
    ensures event in WithOwners(e.sourceEvents, p.mutation.rows, p.mutation.job)
  {
    var owners := WithOwners(e.sourceEvents, p.mutation.rows, p.mutation.job);
    assert Lookup(owners, event).Some?;
  }

  lemma {:induction false} ImportedIsIndexed(e: Engine, request: Request, event: SourceEvent)
    requires Ledgered(e) && PrepareDomain(e, request, e.revision + 1).Ok? && request.tx.ApplyBatch?
      && event in RowEvents(request.tx.batch.rows)
    ensures event in StepEngine(e, request).sourceEvents && event !in e.sourceEvents
  {
    hide Ledgered, PrepareDomain, CanPublishIngest, Publish, WithOwners, WithEvents, Advanced;
    var p := PrepareDomain(e, request, e.revision + 1).value;
    BatchParts(e, request, p);
    MutationFits(e, request, p);
    PublishedEvents(e, p);
    OwnersAdded(e.sourceEvents, p.mutation.rows, p.mutation.job);
    assert Lookup(WithOwners(e.sourceEvents, p.mutation.rows, p.mutation.job), event) == Some(p.mutation.job);
    var row :| row in request.tx.batch.rows && row.event == event;
  }

  lemma {:induction false} StaysIndexed(scope: nat, requests: seq<Request>, n: nat, event: SourceEvent)
    requires n <= |requests| && event in RunEngine(scope, requests[..n]).sourceEvents
    ensures event in RunEngine(scope, requests).sourceEvents
    decreases |requests|
  {
    hide StepEngine;
    if n == |requests| {
      assert requests[..n] == requests;
    } else {
      var front := requests[..|requests| - 1];
      assert front[..n] == requests[..n];
      StaysIndexed(scope, front, n, event);
      EveryRunIsLedgered(scope, front);
      EventsAreKept(RunEngine(scope, front), requests[|requests| - 1], event);
    }
  }

  /** Exactly once: over any run, at most one accepted request imports a given source event. */
  lemma {:induction false} ExactlyOnce(scope: nat, requests: seq<Request>, i: nat, j: nat, event: SourceEvent)
    requires i < |requests| && j < |requests| && Imports(scope, requests, i, event)
      && Imports(scope, requests, j, event)
    ensures i == j
  {
    if i < j { NotAgain(scope, requests, i, j, event); }
    if j < i { NotAgain(scope, requests, j, i, event); }
  }

  lemma {:induction false} NotAgain(scope: nat, requests: seq<Request>, i: nat, j: nat, event: SourceEvent)
    requires i < j < |requests| && Imports(scope, requests, i, event)
    ensures !Imports(scope, requests, j, event)
  {
    hide PrepareDomain, StepEngine, Ledgered;
    var before, upTo := requests[..j], requests[..i + 1];
    assert upTo[..i] == requests[..i] && before[..i + 1] == upTo;
    EveryRunIsLedgered(scope, requests[..i]);
    ImportedIsIndexed(RunEngine(scope, requests[..i]), requests[i], event);
    StaysIndexed(scope, before, i + 1, event);
    if Imports(scope, requests, j, event) {
      EveryRunIsLedgered(scope, before);
      ImportedIsIndexed(RunEngine(scope, before), requests[j], event);
    }
  }

  /** The totals every run keeps for every job. */
  lemma {:induction false} RowsAreCounted(scope: nat, requests: seq<Request>, id: RecordRef)
    requires id in RunEngine(scope, requests).jobs
    ensures var job := RunEngine(scope, requests).jobs[id];
      && Contiguous(job.batches)
      && job.checkpoint.nextBatch == |job.batches| + 1
      && job.checkpoint.acceptedRows == job.checkpoint.nextRow == Rows(ReceiptsOf(job.batches)) == |job.sourceEvents|
  {
    hide RunEngine, Ledgered, JobGood;
    EveryRunIsLedgered(scope, requests);
    var e := RunEngine(scope, requests);
    LedgeredJob(e, id);
    NextSequence(e.jobs[id].checkpoint, ReceiptsOf(e.jobs[id].batches), e.revision);
  }

  // A repeated batch

  /** The batch lies before the checkpoint its job has reached, and names the source and mapping the job is bound to. */
  ghost predicate PastBatch(e: Engine, b: ImportBatch) {
    b.job in e.jobs &&
    var c := e.jobs[b.job].checkpoint;
    b.sequence < c.nextBatch && b.expected.source == c.source && b.expected.mapping == c.mapping
  }

  lemma {:induction false} BatchMovesOn(e: Engine, request: Request, p: PreparedIngest)
    requires PrepareDomain(e, request, e.revision + 1) == Ok(p) && request.tx.ApplyBatch? && CanPublishIngest(e, p)
    ensures PastBatch(PublishIngest(e, p), request.tx.batch)
  {
    hide Publish, WithOwners, WithEvents, RowsFresh, CanPublish, Prepare, PrepareDomain;
    BatchParts(e, request, p);
  }

  /** No accepted request moves a checkpoint back or rebinds a job. */
  lemma {:induction false} PastStays(e: Engine, request: Request, b: ImportBatch)
    requires PastBatch(e, b)
    ensures PastBatch(StepEngine(e, request), b) && StepEngine(e, request).scope == e.scope
  {
    hide Publish, WithOwners, WithEvents, RowsFresh, CanPublish, PrepareDomain;
    match PrepareDomain(e, request, e.revision + 1)
    case Err(_) =>
    case Ok(p) =>
      if CanPublishIngest(e, p) {
        if p.mutation.Batch? {
          OnlyBatchesAdvance(e, request, p);
          BatchParts(e, request, p);
        }
      }
  }

  lemma OnlyBatchesAdvance(e: Engine, request: Request, p: PreparedIngest)
    requires PrepareDomain(e, request, e.revision + 1) == Ok(p) && p.mutation.Batch?
    ensures request.tx.ApplyBatch?
  {
    hide Prepare, CanPublish, JobBound, PreparedView, DeletesAny, Bound, RowsFresh, Advanced, JobsBound;
  }

  lemma {:induction false} PastStaysInRun(scope: nat, requests: seq<Request>, n: nat, b: ImportBatch)
    requires n <= |requests| && PastBatch(RunEngine(scope, requests[..n]), b)
    ensures PastBatch(RunEngine(scope, requests), b)
      && RunEngine(scope, requests).scope == RunEngine(scope, requests[..n]).scope
    decreases |requests|
  {
    hide StepEngine, PastBatch;
    if n == |requests| {
      assert requests[..n] == requests;
    } else {
      var front := requests[..|requests| - 1];
      assert front[..n] == requests[..n];
      PastStaysInRun(scope, front, n, b);
      PastStays(RunEngine(scope, front), requests[|requests| - 1], b);
    }
  }

  lemma {:induction false} PastIsConflict(e: Engine, request: Request)
    requires Ledgered(e) && request.tx.ApplyBatch? && request.tx.scope == e.scope && MakeBatch(request.tx.batch).Ok?
      && PastBatch(e, request.tx.batch)
    ensures PrepareDomain(e, request, e.revision + 1)
         == if e.revision >= MAX_U64 then Err(VersionExhausted)
            else if request.inventory.Some? && request.inventory.value != {} then Err(InventoryMismatch)
            else Err(BatchConflict)
  {
    hide Ledgered, JobBound, Current, MakeBatch, PrepareGraph, CheckRows;
    LedgeredJob(e, request.tx.batch.job);
    assert request.tx.batch.job.scope == e.scope by { JobScope(e, request.tx.batch.job); }
  }

  lemma JobScope(e: Engine, id: RecordRef)
    requires Ledgered(e) && id in e.jobs
    ensures id.scope == e.scope
  {
    hide Consistent, SeparateMarks, EventsIndexed, BatchIds, JobGood, JobBound, Contiguous;
    LedgeredJob(e, id);
  }

  lemma AcceptedIsMade(e: Engine, request: Request)
    requires PrepareDomain(e, request, e.revision + 1).Ok? && request.tx.ApplyBatch?
    ensures MakeBatch(request.tx.batch).Ok? && request.tx.scope == e.scope
  {
    hide MakeBatch, JobBound, Current, PrepareGraph, CheckRows, Bound;
  }

  /** Over every run: once a batch has been accepted, the same transaction offered at any later point is refused as a
      conflict, unless revisions have run out or it brings blobs along. */
  lemma {:induction false} ReplayIsConflict(scope: nat, requests: seq<Request>, i: nat, j: nat)
    requires i < j < |requests| && requests[i].tx.ApplyBatch? && requests[j].tx == requests[i].tx
    requires var e := RunEngine(scope, requests[..i]); PrepareDomain(e, requests[i], e.revision + 1).Ok?
    ensures var e, again := RunEngine(scope, requests[..j]), requests[j];
      PrepareDomain(e, again, e.revision + 1)
      == if e.revision >= MAX_U64 then Err(VersionExhausted)
         else if again.inventory.Some? && again.inventory.value != {} then Err(InventoryMismatch)
         else Err(BatchConflict)
  {
    hide *;
    var before, upTo := requests[..j], requests[..i + 1];
    assert upTo[..i] == requests[..i] && before[..i + 1] == upTo;
    AcceptedMovesOn(scope, upTo);
    PastStaysInRun(scope, before, i + 1, requests[i].tx.batch);
    AcceptedIsMade(RunEngine(scope, requests[..i]), requests[i]);
    EveryRunIsLedgered(scope, before);
    PastIsConflict(RunEngine(scope, before), requests[j]);
  }

  lemma {:induction false} AcceptedMovesOn(scope: nat, requests: seq<Request>)
    requires requests != [] && requests[|requests| - 1].tx.ApplyBatch?
    requires var e := RunEngine(scope, requests[..|requests| - 1]);
      PrepareDomain(e, requests[|requests| - 1], e.revision + 1).Ok?
    ensures PastBatch(RunEngine(scope, requests), requests[|requests| - 1].tx.batch)
    ensures RunEngine(scope, requests).scope == RunEngine(scope, requests[..|requests| - 1]).scope
  {
    hide Ledgered, PublishIngest, PrepareDomain, CanPublishIngest, PastBatch;
    var e, request := RunEngine(scope, requests[..|requests| - 1]), requests[|requests| - 1];
    var p := PrepareDomain(e, request, e.revision + 1).value;
    EveryRunIsLedgered(scope, requests[..|requests| - 1]);
    MutationFits(e, request, p);
    BatchMovesOn(e, request, p);
    PublishKeepsScope(e, p);
  }

  lemma PublishKeepsScope(e: Engine, p: PreparedIngest)
    requires CanPublishIngest(e, p)
    ensures PublishIngest(e, p).scope == e.scope
  {
    hide Publish, WithOwners, WithEvents, CanPublish;
  }
}
