/** The engine state object: row validation, publication in place, and the checkpoint reader's loops
    (crates/uste-ingest/src/state.rs:510-586, 744-770, 1372-1523). */
module IngestObject {
  import opened Base
  import opened Records
  import opened Reducer
  import opened Ingest
  import opened Ledger
  import opened ImportImage

  // Row validation

  method ValidateRows(scope: nat, b: ImportBatch, existing: map<SourceEvent, RecordRef>) returns (r: Outcome)
    ensures r == CheckRows(scope, b, existing)
  {
    var seen: set<SourceEvent> := {};
    for k := 0 to |b.rows|
      invariant RowsFresh(scope, b.rows[..k], existing)
      invariant forall event :: event in seen <==> event in RowEvents(b.rows[..k])
    {
      var event := b.rows[k].event;
      FreshStep(scope, b.rows, existing, k);
      if event.scope != scope || event in seen || event in existing { return Err(SourceEventConflict); }
      seen := seen + {event};
    }
    assert b.rows[..|b.rows|] == b.rows;
    if b.start + |b.rows| > MAX_IMPORT_ROWS { return Err(ImportLimit); }
    r := Ok(());
  }

  /** One more row keeps the rows fresh exactly when it is in scope, new to the batch and new to the ledger. */
  lemma {:induction false} FreshStep(scope: nat, rows: seq<MappedRow>, existing: map<SourceEvent, RecordRef>, k: nat)
    requires k < |rows| && RowsFresh(scope, rows[..k], existing)
    ensures var event := rows[k].event;
      && (RowsFresh(scope, rows[..k + 1], existing)
         <==> event.scope == scope && event !in RowEvents(rows[..k]) && event !in existing)
      && (RowsFresh(scope, rows, existing) ==> RowsFresh(scope, rows[..k + 1], existing))
      && RowEvents(rows[..k + 1]) == RowEvents(rows[..k]) + {event}
  {
    var before, upTo, event := rows[..k], rows[..k + 1], rows[k].event;
    assert upTo[..k] == before;
    RowEventsStep(upTo);
    if event in RowEvents(before) {
      var row :| row in before && row.event == event;
      var i :| 0 <= i < k && before[i] == row;
      assert upTo[i].event == upTo[k].event;
    }
    forall i | 0 <= i < k ensures before[i].event in RowEvents(before) { assert before[i] in before; }
  }

  // Publication

  /** The row loop of `publish`: every event enters the job and the global index together. */
  method InsertRows(events: map<SourceEvent, nat>, owners: map<SourceEvent, RecordRef>, rows: seq<MappedRow>,
      job: RecordRef)
    returns (newEvents: map<SourceEvent, nat>, newOwners: map<SourceEvent, RecordRef>)
    ensures newEvents == WithEvents(events, rows) && newOwners == WithOwners(owners, rows, job)
  {
    newEvents, newOwners := events, owners;
    for k := 0 to |rows|
      invariant newEvents == WithEvents(events, rows[..k]) && newOwners == WithOwners(owners, rows[..k], job)
    {
      assert rows[..k + 1][..k] == rows[..k];
      newEvents, newOwners := newEvents[rows[k].event := rows[k].payload], newOwners[rows[k].event := job];
    }
    assert rows[..|rows|] == rows;
  }

  class IngestState {
    const scope: nat
    var revision: nat
    var graph: Snapshot
    var jobs: Jobs
    var sourceEvents: map<SourceEvent, RecordRef>
    var batchCount: nat

    constructor (scope_: nat)
      ensures scope == scope_ && View() == NewEngine(scope_)
    {
      scope, revision, graph, jobs, sourceEvents, batchCount := scope_, 0, NewSnapshot(scope_), map[], map[], 0;
    }

    function View(): Engine
      reads this
    {
      Engine(scope, revision, graph, jobs, sourceEvents, batchCount)
    }

    /** `publish`: the graph first, then the ledger row by row, then the revision. */
    method Publish(prepared: PreparedIngest)
      requires CanPublishIngest(View(), prepared)
      modifies this
      ensures View() == PublishIngest(old(View()), prepared)
    {
      hide Reducer.Publish, WithEvents, WithOwners, CanPublish;
      graph := Reducer.Publish(graph, prepared.graph);
      match prepared.mutation {
      case NoMutation =>
      case Start(job, state) => jobs := jobs[job := state];
      case Batch(job, _, sequence, receipt, rows) =>
        var state := jobs[job];
        var events, owners := InsertRows(state.sourceEvents, sourceEvents, rows, job);
        sourceEvents := owners;
        jobs := jobs[job := JobState(receipt.checkpoint, state.batches[sequence := receipt], events)];
        batchCount := batchCount + 1;
      }
      revision := prepared.revision;
    }
  }

  // The checkpoint reader

  /** The receipts read so far are good, and the running totals are theirs. */
  ghost predicate ReceiptsRead(c: ImportCheckpoint, batches: seq<(nat, Receipt)>, revision: nat, earlier: set<nat>,
      k: nat,
                               read: map<nat, Receipt>, accepted: nat, previous: nat, marks: set<nat>) {
    k <= |batches| &&
    var list := ReceiptList(batches);
    && Numbered(batches[..k]) && read == BatchMap(batches[..k])
    && (forall i :: 0 <= i < k ==> ReceiptGood(c, list, revision, i))
    && accepted == Rows(list[..k])
    && previous == (if k == 0 then c.firstRevision else list[k - 1].revision)
    && marks == earlier + Marks(c, list[..k]) && Marks(c, list[..k]) !! earlier
    && (forall m :: m in Marks(c, list[..k]) ==> m <= previous)
  }

  /** The per-receipt checks, as they are made on the running totals. */
  predicate ReceiptPasses(c: ImportCheckpoint, index: nat, count: nat, sequence: nat, r: Receipt, revision: nat,
      accepted: nat, previous: nat, marks: set<nat>) {
    && sequence == index + 1 && r.rowCount != 0 && r.rowCount <= MAX_ROWS_PER_BATCH
    && r.revision > previous && r.revision <= revision
    && r.checkpoint.job == c.job && r.checkpoint.source == c.source && r.checkpoint.mapping == c.mapping
    && r.checkpoint.version == sequence + 1 && r.checkpoint.nextBatch == sequence + 1
    && r.checkpoint.acceptedRows == accepted && r.checkpoint.nextRow == accepted
    && r.checkpoint.firstRevision == c.firstRevision && r.checkpoint.lastRevision == r.revision
    && (index + 1 < count ==> r.checkpoint.status == Open)
    && r.revision !in marks && CheckpointMade(r.checkpoint)
  }

  lemma {:induction false} ReceiptStep(c: ImportCheckpoint, batches: seq<(nat, Receipt)>, revision: nat,
      earlier: set<nat>, k: nat,
                                       read: map<nat, Receipt>, accepted: nat, previous: nat, marks: set<nat>)
    requires k < |batches| && ReceiptsRead(c, batches, revision, earlier, k, read, accepted, previous, marks)
    ensures var list, r := ReceiptList(batches), batches[k].1;
      var passes := ReceiptPasses(c, k, |batches|, batches[k].0, r, revision, accepted + r.rowCount, previous, marks);
      && (passes <==> batches[k].0 == k + 1 && ReceiptGood(c, list, revision, k) && r.revision !in earlier)
      && (passes ==>
         ReceiptsRead(c, batches, revision, earlier, k + 1, read[batches[k].0 := r], accepted
         + r.rowCount, r.revision, marks + {r.revision}))
  {
    hide CheckpointMade, BatchMap;
    var list, r := ReceiptList(batches), batches[k].1;
    assert list[k] == r && list[..k + 1][..k] == list[..k];
    assert batches[..k + 1][..k] == batches[..k];
    assert BatchMap(batches[..k + 1]) == BatchMap(batches[..k])[batches[k].0 := r] by { BatchMapStep(batches, k); }
    assert list[..k + 1] == list[..k] + [r];
    MarksGrow(c, list[..k], r, c);
    assert r.revision > previous ==> r.revision !in Marks(c, list[..k]);
  }

  lemma BatchMapStep(batches: seq<(nat, Receipt)>, k: nat)
    requires k < |batches|
    ensures BatchMap(batches[..k + 1]) == BatchMap(batches[..k])[batches[k].0 := batches[k].1]
  {
    assert batches[..k + 1][..k] == batches[..k];
  }

  /** The receipts of one job, read in order. */
  method ReadReceipts(c: ImportCheckpoint, batches: seq<(nat, Receipt)>, revision: nat, earlier: set<nat>)
    returns (r: Option<(map<nat, Receipt>, nat, set<nat>)>)
    requires c.firstRevision !in earlier
    ensures var list := ReceiptList(batches);
      && (r.Some?
         <==> Numbered(batches) && (forall i :: 0 <= i < |list| ==> ReceiptGood(c, list, revision, i))
              && Marks(c, list) !! earlier)
      && (r.Some? ==> r.value == (BatchMap(batches), Rows(list), earlier + Marks(c, list)))
  {
    hide ReceiptGood, ReceiptPasses;
    ghost var list := ReceiptList(batches);
    var read: map<nat, Receipt>, accepted: nat, previous, marks := map[], 0, c.firstRevision, earlier
      + {c.firstRevision};
    assert list[..0] == [];
    for k := 0 to |batches|
      invariant ReceiptsRead(c, batches, revision, earlier, k, read, accepted, previous, marks)
    {
      ReceiptStep(c, batches, revision, earlier, k, read, accepted, previous, marks);
      var receipt := batches[k].1;
      accepted := accepted + receipt.rowCount;
      if !ReceiptPasses(c, k, |batches|, batches[k].0, receipt, revision, accepted, previous, marks) {
        assert list[k] in list && list[k].revision in Marks(c, list);
        return None;
      }
      previous, marks := receipt.revision, marks + {receipt.revision};
      read := read[batches[k].0 := receipt];
    }
    assert list[..|list|] == list && batches[..|batches|] == batches;
    r := Some((read, accepted, marks));
  }

  lemma {:induction false} EventStep(scope: nat, events: seq<(SourceEvent, nat)>, index: map<SourceEvent, RecordRef>,
      job: RecordRef, k: nat)
    requires k < |events| && EventsOrdered(scope, events[..k])
    ensures EventMap(events[..k + 1]) == EventMap(events[..k])[events[k].0 := events[k].1]
    ensures index + OwnersOf(EventMap(events[..k + 1]), job)
      == (index + OwnersOf(EventMap(events[..k]), job))[events[k].0 := job]
    ensures EventsOrdered(scope, events[..k + 1])
      <==> events[k].0.scope == scope && (k > 0 ==> EventLess(events[k - 1].0, events[k].0))
    ensures EventsOrdered(scope, events) ==> EventsOrdered(scope, events[..k + 1])
    ensures (k > 0 ==> EventLess(events[k - 1].0, events[k].0)) ==> events[k].0 !in EventMap(events[..k])
  {
    hide EventMap;
    EventMapStep(events, k);
    assert events[..k + 1][..k] == events[..k];
    EventMapKeys(events[..k]);
    EventsAreOrdered();
    if k > 0 && EventLess(events[k - 1].0, events[k].0) {
      forall i | 0 <= i < k ensures EventLess(events[i].0, events[k].0) {
        assert i < k - 1 ==> EventLess(events[..k][i].0, events[..k][k - 1].0);
      }
    }
  }

  lemma EventMapStep(events: seq<(SourceEvent, nat)>, k: nat)
    requires k < |events|
    ensures EventMap(events[..k + 1]) == EventMap(events[..k])[events[k].0 := events[k].1]
  {
    assert events[..k + 1][..k] == events[..k];
  }

  /** The source events of one job, entered into the job and into the global index together. */
  method ReadEvents(scope: nat, events: seq<(SourceEvent, nat)>, index: map<SourceEvent, RecordRef>, job: RecordRef)
    returns (r: Option<(map<SourceEvent, nat>, map<SourceEvent, RecordRef>)>)
    ensures r.Some? <==> EventsOrdered(scope, events) && forall i :: 0 <= i < |events| ==> events[i].0 !in index
    ensures r.Some? ==> r.value == (EventMap(events), index + OwnersOf(EventMap(events), job))
  {
    hide EventMap, EventLess, EventsOrdered;
    var read: map<SourceEvent, nat>, owners := map[], index;
    assert EventMap(events[..0]) == map[] && EventsOrdered(scope, events[..0]) by { NoEvents(scope, events); }
    for k := 0 to |events|
      invariant read == EventMap(events[..k]) && owners == index + OwnersOf(EventMap(events[..k]), job)
      invariant EventsOrdered(scope, events[..k]) && forall i :: 0 <= i < k ==> events[i].0 !in index
    {
      EventStep(scope, events, index, job, k);
      var event := events[k].0;
      if event.scope != scope || (k > 0 && !EventLess(events[k - 1].0, event)) || event in owners { return None; }
      read, owners := read[event := events[k].1], owners[event := job];
    }
    assert events[..|events|] == events;
    r := Some((read, owners));
  }

  lemma NoEvents(scope: nat, events: seq<(SourceEvent, nat)>)
    ensures EventMap(events[..0]) == map[] && EventsOrdered(scope, events[..0])
  {
  }

  /** The checks on a job's own header. */
  method ReadHeader(scope: nat, revision: nat, graph: Snapshot, c: ImportCheckpoint) returns (good: bool)
    ensures good <==> HeaderGood(scope, revision, graph, c) && CheckpointMade(c) && 1 <= c.firstRevision
  {
    hide JobBound, AsOf, Current;
    if c.firstRevision == 0 || !CheckpointMade(c) { return false; }
    if c.job.scope != scope || BindingScope(scope, c.source, c.mapping).Err? || c.lastRevision > revision {
      return false;
    }
    good := JobBound(Current(graph), c.job, c).Ok? && JobBound(AsOf(graph, c.firstRevision), c.job, c).Ok?;
  }

  method ReadJob(scope: nat, revision: nat, graph: Snapshot, ghost front: seq<JobImage>, image: JobImage,
      previous: Option<RecordRef>,
                 marks: set<nat>, index: map<SourceEvent, RecordRef>)
    returns (r: Option<(JobState, set<nat>, map<SourceEvent, RecordRef>)>)
    requires marks == AllMarks(front) && index == AssembledEvents(front)
    requires previous == if front == [] then None else Some(front[|front| - 1].checkpoint.job)
    ensures r.Some? <==> LastGood(scope, revision, graph, front + [image])
    ensures r.Some? ==> r.value == (JobOf(image), AllMarks(front + [image]), AssembledEvents(front + [image]))
  {
    hide HeaderGood, Numbered, ReceiptGood, CheckpointMade, EventMap, BatchMap, EventsOrdered, Rows, Marks;
    var c, all := image.checkpoint, front + [image];
    ghost var list := ReceiptList(image.batches);
    assert all[..|all| - 1] == front && all[|all| - 1] == image;
    assert c.firstRevision in Marks(c, list) by { FirstIsMarked(c, list); }
    var good := ReadHeader(scope, revision, graph, c);
    if !good || (previous.Some? && !Less(previous.value, c.job)) || c.firstRevision in marks { return None; }
    var receipts := ReadReceipts(c, image.batches, revision, marks);
    if receipts.None? { return None; }
    if image.batches == [] {
      if c != Started(c.job, c.source, c.mapping, c.firstRevision, c.chain) { return None; }
    } else if c != image.batches[|image.batches| - 1].1.checkpoint { return None; }
    assert JobGood(c, list, revision) by { HeaderRevision(scope, revision, graph, c); }
    NextSequence(c, list, revision);
    if |image.events| != receipts.value.1 { return None; }
    var events := ReadEvents(scope, image.events, index, c.job);
    if events.None? { return None; }
    r := Some((JobState(c, receipts.value.0, events.value.0), receipts.value.2, events.value.1));
  }

  lemma FirstIsMarked(c: ImportCheckpoint, list: seq<Receipt>)
    ensures c.firstRevision in Marks(c, list)
  {
  }

  lemma HeaderRevision(scope: nat, revision: nat, graph: Snapshot, c: ImportCheckpoint)
    requires HeaderGood(scope, revision, graph, c)
    ensures c.lastRevision <= revision
  {
  }

  /** The job part of `decode_ingest_checkpoint`. */
  method ReadJobs(scope: nat, revision: nat, graph: Snapshot, images: seq<JobImage>, declared: nat)
      returns (r: Option<Engine>)
    ensures r.Some? <==> Readable(scope, revision, graph, images, declared)
    ensures r.Some? ==> r.value == EngineOf(scope, revision, graph, images)
  {
    hide LastGood, JobOf, Marks;
    if |images| > MAX_IMPORT_JOBS || declared > MAX_IMPORT_BATCHES { return None; }
    var jobs: Jobs, index: map<SourceEvent, RecordRef>, marks: set<nat>, count: nat := map[], map[], {}, 0;
    var previous: Option<RecordRef> := None;
    for k := 0 to |images|
      invariant jobs == Assembled(images[..k]) && index == AssembledEvents(images[..k])
        && marks == AllMarks(images[..k])
      invariant previous == if k == 0 then None else Some(images[k - 1].checkpoint.job)
      invariant ImagesGood(scope, revision, graph, images[..k])
        && count == TotalBatches(images[..k]) <= MAX_IMPORT_BATCHES
    {
      ghost var front := images[..k];
      assert images[..k + 1] == front + [images[k]] && images[..k + 1][..k] == front;
      if ImagesGood(scope, revision, graph, images) { PrefixesGood(scope, revision, graph, images, k + 1); }
      BatchesGrow(images, k + 1);
      var job := ReadJob(scope, revision, graph, front, images[k], previous, marks, index);
      if job.None? { return None; }
      count := count + |images[k].batches|;
      if count > MAX_IMPORT_BATCHES { return None; }
      previous := Some(images[k].checkpoint.job);
      jobs, marks, index := jobs[images[k].checkpoint.job := job.value.0], job.value.1, job.value.2;
    }
    assert images[..|images|] == images;
    if count != declared { return None; }
    r := Some(Engine(scope, revision, graph, jobs, index, count));
  }

  lemma {:induction false} PrefixesGood(scope: nat, revision: nat, graph: Snapshot, images: seq<JobImage>, k: nat)
    requires k <= |images| && ImagesGood(scope, revision, graph, images)
    ensures ImagesGood(scope, revision, graph, images[..k])
    decreases |images|
  {
    hide LastGood;
    if k == |images| {
      assert images[..k] == images;
    } else {
      assert images[..|images| - 1][..k] == images[..k];
      PrefixesGood(scope, revision, graph, images[..|images| - 1], k);
    }
  }

  lemma {:induction false} BatchesGrow(images: seq<JobImage>, k: nat)
    requires k <= |images|
    ensures TotalBatches(images[..k]) <= TotalBatches(images)
    decreases |images|
  {
    if k == |images| {
      assert images[..k] == images;
    } else {
      assert images[..|images| - 1][..k] == images[..k];
      BatchesGrow(images[..|images| - 1], k);
    }
  }
}
