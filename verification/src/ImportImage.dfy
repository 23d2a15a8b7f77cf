/** The job part of an engine checkpoint: what is written for each job, and the checks made when it is read back
    (crates/uste-ingest/src/state.rs:1295-1345, 1372-1523). */
module ImportImage {
  import opened Base
  import opened Records
  import opened Reducer
  import opened Invariant
  import opened Ingest
  import opened Ledger

  datatype JobImage = JobImage(checkpoint: ImportCheckpoint, batches: seq<(nat, Receipt)>,
      events: seq<(SourceEvent, nat)>)

  function ReceiptList(batches: seq<(nat, Receipt)>): seq<Receipt> {
    seq(|batches|, i requires 0 <= i < |batches| => batches[i].1)
  }

  // What the reader builds

  function BatchMap(batches: seq<(nat, Receipt)>): map<nat, Receipt> {
    if batches == [] then map[]
      else BatchMap(batches[..|batches| - 1])[batches[|batches| - 1].0 := batches[|batches| - 1].1]
  }

  function EventMap(events: seq<(SourceEvent, nat)>): map<SourceEvent, nat> {
    if events == [] then map[] else EventMap(events[..|events| - 1])[events[|events| - 1].0 := events[|events| - 1].1]
  }

  function JobOf(image: JobImage): JobState {
    JobState(image.checkpoint, BatchMap(image.batches), EventMap(image.events))
  }

  function Assembled(images: seq<JobImage>): Jobs {
    if images == [] then map[]
    else Assembled(images[..|images| - 1])[images[|images| - 1].checkpoint.job := JobOf(images[|images| - 1])]
  }

  function OwnersOf(events: map<SourceEvent, nat>, job: RecordRef): map<SourceEvent, RecordRef> {
    map event | event in events :: job
  }

  function AssembledEvents(images: seq<JobImage>): map<SourceEvent, RecordRef> {
    if images == [] then map[]
    else
      var last := images[|images| - 1];
      AssembledEvents(images[..|images| - 1]) + OwnersOf(EventMap(last.events), last.checkpoint.job)
  }

  function AllMarks(images: seq<JobImage>): set<nat> {
    if images == [] then {}
    else
      var last := images[|images| - 1];
      AllMarks(images[..|images| - 1]) + Marks(last.checkpoint, ReceiptList(last.batches))
  }

  function TotalBatches(images: seq<JobImage>): nat {
    if images == [] then 0 else TotalBatches(images[..|images| - 1]) + |images[|images| - 1].batches|
  }

  // What the reader accepts

  predicate Numbered(batches: seq<(nat, Receipt)>) {
    forall i :: 0 <= i < |batches| ==> batches[i].0 == i + 1
  }

  predicate EventsOrdered(scope: nat, events: seq<(SourceEvent, nat)>) {
    && (forall i :: 0 <= i < |events| ==> events[i].0.scope == scope)
    && (forall i, j :: 0 <= i < j < |events| ==> EventLess(events[i].0, events[j].0))
  }

  predicate HeaderGood(scope: nat, revision: nat, graph: Snapshot, c: ImportCheckpoint) {
    && c.job.scope == scope && BindingScope(scope, c.source, c.mapping).Ok? && c.lastRevision <= revision
    && JobBound(Current(graph), c.job, c).Ok? && JobBound(AsOf(graph, c.firstRevision), c.job, c).Ok?
  }

  predicate JobImageGood(scope: nat, revision: nat, graph: Snapshot, image: JobImage) {
    && HeaderGood(scope, revision, graph, image.checkpoint)
    && Numbered(image.batches) && JobGood(image.checkpoint, ReceiptList(image.batches), revision)
    && |image.events| == image.checkpoint.acceptedRows && EventsOrdered(scope, image.events)
  }

  /** The last job is good on its own, comes after the others, and shares no revision and no event with them. */
  predicate LastGood(scope: nat, revision: nat, graph: Snapshot, images: seq<JobImage>)
    requires images != []
  {
    var front, last := images[..|images| - 1], images[|images| - 1];
    && JobImageGood(scope, revision, graph, last)
    && (front != [] ==> Less(front[|front| - 1].checkpoint.job, last.checkpoint.job))
    && Marks(last.checkpoint, ReceiptList(last.batches)) !! AllMarks(front)
    && (forall i :: 0 <= i < |last.events| ==> last.events[i].0 !in AssembledEvents(front))
  }

  predicate ImagesGood(scope: nat, revision: nat, graph: Snapshot, images: seq<JobImage>) {
    images == [] || (ImagesGood(scope, revision, graph, images[..|images| - 1])
      && LastGood(scope, revision, graph, images))
  }

  predicate Readable(scope: nat, revision: nat, graph: Snapshot, images: seq<JobImage>, declared: nat) {
    && |images| <= MAX_IMPORT_JOBS && declared <= MAX_IMPORT_BATCHES && TotalBatches(images) == declared
    && ImagesGood(scope, revision, graph, images)
  }

  // One job

  lemma {:induction false} BatchMapLookup(batches: seq<(nat, Receipt)>)
    requires Numbered(batches)
    ensures |BatchMap(batches)| == |batches|
    ensures forall k: nat :: k in BatchMap(batches) <==> 1 <= k <= |batches|
    ensures forall i :: 0 <= i < |batches| ==> BatchMap(batches)[i + 1] == batches[i].1
    decreases |batches|
  {
    if batches != [] {
      BatchMapLookup(batches[..|batches| - 1]);
    }
  }

  lemma {:induction false} BatchMapReceipts(batches: seq<(nat, Receipt)>)
    requires Numbered(batches)
    ensures Contiguous(BatchMap(batches)) && ReceiptsOf(BatchMap(batches)) == ReceiptList(batches)
      && |BatchMap(batches)| == |batches|
  {
    hide BatchMap;
    BatchMapLookup(batches);
  }

  function EventKeys(events: seq<(SourceEvent, nat)>): set<SourceEvent> {
    set pair | pair in events :: pair.0
  }

  lemma EventKeysStep(events: seq<(SourceEvent, nat)>)
    requires events != []
    ensures EventKeys(events) == EventKeys(events[..|events| - 1]) + {events[|events| - 1].0}
  {
    var front, last := events[..|events| - 1], events[|events| - 1];
    assert events == front + [last];
    assert forall pair :: pair in events <==> pair in front || pair == last;
  }

  lemma {:induction false} EventMapKeys(events: seq<(SourceEvent, nat)>)
    ensures EventMap(events).Keys == EventKeys(events)
    decreases |events|
  {
    if events != [] {
      EventMapKeys(events[..|events| - 1]);
      EventKeysStep(events);
    }
  }

  lemma {:induction false} EventMapSize(scope: nat, events: seq<(SourceEvent, nat)>)
    requires EventsOrdered(scope, events)
    ensures |EventMap(events)| == |events|
    decreases |events|
  {
    if events != [] {
      var front, last := events[..|events| - 1], events[|events| - 1];
      EventMapSize(scope, front);
      EventMapKeys(front);
      assert forall i :: 0 <= i < |front| ==> front[i].0 != last.0;
      assert last.0 !in EventMap(front).Keys;
    }
  }

  lemma {:induction false} EventMapValue(scope: nat, events: seq<(SourceEvent, nat)>, i: nat)
    requires EventsOrdered(scope, events) && i < |events|
    ensures Lookup(EventMap(events), events[i].0) == Some(events[i].1)
    decreases |events|
  {
    if i < |events| - 1 { EventMapValue(scope, events[..|events| - 1], i); }
  }

  // What was written can be read back: the writer

  lemma EventsAreOrdered()
    ensures StrictOrder(EventLess)
  {
  }

  ghost function EventList(events: map<SourceEvent, nat>): (list: seq<(SourceEvent, nat)>) {
    EventsAreOrdered();
    var keys := SortBy(events.Keys, EventLess);
    assert forall i :: 0 <= i < |keys| ==> keys[i] in events;
    seq(|keys|, i requires 0 <= i < |keys| => (keys[i], events[keys[i]]))
  }

  ghost function BatchList(batches: map<nat, Receipt>): seq<(nat, Receipt)>
    requires Contiguous(batches)
  {
    seq(|batches|, i requires 0 <= i < |batches| => (i + 1, batches[i + 1]))
  }

  ghost function ImageOf(job: JobState): JobImage
    requires Contiguous(job.batches)
  {
    JobImage(job.checkpoint, BatchList(job.batches), EventList(job.sourceEvents))
  }

  lemma {:induction false} BatchListReads(batches: map<nat, Receipt>)
    requires Contiguous(batches)
    ensures Numbered(BatchList(batches)) && ReceiptList(BatchList(batches)) == ReceiptsOf(batches)
    ensures BatchMap(BatchList(batches)) == batches
  {
    hide BatchMap;
    var list := BatchList(batches);
    BatchMapLookup(list);
    forall k | k in batches ensures BatchMap(list)[k] == batches[k] { assert list[k - 1].1 == batches[k]; }
  }

  lemma {:induction false} EventListOrdered(scope: nat, events: map<SourceEvent, nat>)
    requires forall event :: event in events ==> event.scope == scope
    ensures EventsOrdered(scope, EventList(events)) && |EventList(events)| == |events|
    ensures forall pair :: pair in EventList(events) ==> pair.0 in events
  {
    EventsAreOrdered();
    var keys := SortBy(events.Keys, EventLess);
    assert forall i :: 0 <= i < |keys| ==> keys[i] in keys;
  }

  lemma EventListHas(events: map<SourceEvent, nat>, event: SourceEvent) returns (i: nat)
    requires event in events
    ensures i < |EventList(events)| && EventList(events)[i] == (event, events[event])
  {
    EventsAreOrdered();
    var keys := SortBy(events.Keys, EventLess);
    assert event in keys;
    i :| 0 <= i < |keys| && keys[i] == event;
  }

  lemma {:induction false} EventListReads(scope: nat, events: map<SourceEvent, nat>)
    requires forall event :: event in events ==> event.scope == scope
    ensures EventsOrdered(scope, EventList(events)) && |EventList(events)| == |events|
    ensures EventMap(EventList(events)) == events
  {
    hide EventMap, EventList, EventsOrdered;
    var list := EventList(events);
    EventListOrdered(scope, events);
    EventMapKeys(list);
    forall event | event in events ensures event in EventMap(list) && EventMap(list)[event] == events[event] {
      var i := EventListHas(events, event);
      EventMapValue(scope, list, i);
    }
  }

  /** One job's image is accepted and reads back as the job. */
  lemma {:induction false} JobReadsBack(e: Engine, id: RecordRef)
    requires Ledgered(e) && id in e.jobs
    ensures Contiguous(e.jobs[id].batches)
    ensures JobImageGood(e.scope, e.revision, e.graph, ImageOf(e.jobs[id])) && JobOf(ImageOf(e.jobs[id])) == e.jobs[id]
  {
    hide Ledgered, JobBound, BindingScope, EventMap, BatchMap, Contiguous, ReceiptsOf, EventsOrdered, Numbered,
         EventList, BatchList, ReceiptList;
    LedgeredJob(e, id);
    var job := e.jobs[id];
    BatchListReads(job.batches);
    EventListReads(e.scope, job.sourceEvents);
    assert job.checkpoint.lastRevision <= e.revision by {
      LastRevisionPast(job.checkpoint, ReceiptsOf(job.batches), e.revision);
    }
  }

  lemma LastRevisionPast(c: ImportCheckpoint, receipts: seq<Receipt>, revision: nat)
    requires JobGood(c, receipts, revision)
    ensures c.lastRevision <= revision
  {
  }

  // What accepted images amount to

  function IdsOf(images: seq<JobImage>): seq<RecordRef> {
    seq(|images|, i requires 0 <= i < |images| => images[i].checkpoint.job)
  }

  function EngineOf(scope: nat, revision: nat, graph: Snapshot, images: seq<JobImage>): Engine {
    Engine(scope, revision, graph, Assembled(images), AssembledEvents(images), TotalBatches(images))
  }

  ghost predicate Marked(jobs: Jobs, m: nat) {
    exists id :: id in jobs && m in JobMarks(jobs[id])
  }

  /** The jobs read so far form a ledger, listed by identity, with exactly the collected revisions and events. */
  ghost predicate Held(scope: nat, revision: nat, graph: Snapshot, images: seq<JobImage>) {
    var e := EngineOf(scope, revision, graph, images);
    && Enumerates(IdsOf(images), e.jobs.Keys, Less)
    && (forall id :: id in e.jobs ==> JobLedger(e, id))
    && (forall m :: m in AllMarks(images) <==> Marked(e.jobs, m))
    && SeparateMarks(e.jobs)
    && EventsIndexed(e.jobs, e.sourceEvents)
    && e.batchCount == |BatchIds(e.jobs)|
  }

  lemma {:induction false} AddedId(front: seq<RecordRef>, keys: set<RecordRef>, id: RecordRef)
    requires Enumerates(front, keys, Less) && (front != [] ==> Less(front[|front| - 1], id))
    ensures id !in keys && Enumerates(front + [id], keys + {id}, Less)
  {
    var all := front + [id];
    forall i | 0 <= i < |front| ensures Less(front[i], id) {
      assert i < |front| - 1 ==> Less(front[i], front[|front| - 1]);
    }
    assert forall x :: x in all <==> x in front || x == id;
  }

  lemma {:induction false} AddedMarks(jobs: Jobs, marks: set<nat>, id: RecordRef, job: JobState)
    requires id !in jobs && SeparateMarks(jobs) && (forall m :: m in marks <==> Marked(jobs, m))
      && JobMarks(job) !! marks
    ensures SeparateMarks(jobs[id := job])
    ensures forall m :: m in marks + JobMarks(job) <==> Marked(jobs[id := job], m)
  {
    hide JobMarks;
    var next := jobs[id := job];
    forall a, b | a in next && b in next && a != b ensures JobMarks(next[a]) !! JobMarks(next[b]) {
      if a == id { ApartFromAll(jobs, marks, b, job); }
      else if b == id { ApartFromAll(jobs, marks, a, job); }
      else { assert JobMarks(jobs[a]) !! JobMarks(jobs[b]); }
    }
    forall m ensures m in marks + JobMarks(job) <==> Marked(next, m) {
      if m in marks {
        var a :| a in jobs && m in JobMarks(jobs[a]);
        assert a in next && next[a] == jobs[a];
      }
      if m in JobMarks(job) { assert id in next && m in JobMarks(next[id]); }
      if Marked(next, m) {
        var a :| a in next && m in JobMarks(next[a]);
        if a != id { assert a in jobs && m in JobMarks(jobs[a]); assert Marked(jobs, m); }
      }
    }
  }

  lemma ApartFromAll(jobs: Jobs, marks: set<nat>, a: RecordRef, job: JobState)
    requires a in jobs && (forall m :: m in marks <==> Marked(jobs, m)) && JobMarks(job) !! marks
    ensures JobMarks(job) !! JobMarks(jobs[a])
  {
    hide JobMarks;
    forall m | m in JobMarks(jobs[a]) ensures m !in JobMarks(job) { assert Marked(jobs, m); }
  }

  lemma {:induction false} AddedEvents(jobs: Jobs, index: map<SourceEvent, RecordRef>, id: RecordRef, job: JobState)
    requires id !in jobs && EventsIndexed(jobs, index) && job.sourceEvents.Keys !! index.Keys
    ensures EventsIndexed(jobs[id := job], index + OwnersOf(job.sourceEvents, id))
  {
    var next, owners := jobs[id := job], index + OwnersOf(job.sourceEvents, id);
    forall event | event in owners ensures owners[event] in next && event in next[owners[event]].sourceEvents {
      if event !in job.sourceEvents { assert index[event] in jobs; }
    }
    forall other, event | other in next && event in next[other].sourceEvents
      ensures event in owners && owners[event] == other
    {
      if other != id { assert other in jobs && event in index; }
    }
  }

  function Paired(id: RecordRef, keys: set<nat>): set<(RecordRef, nat)> {
    set k | k in keys :: (id, k)
  }

  lemma {:induction false} PairedSize(id: RecordRef, keys: set<nat>)
    ensures |Paired(id, keys)| == |keys|
    decreases |keys|
  {
    if keys == {} {
      assert Paired(id, keys) == {};
    } else {
      var k :| k in keys;
      PairedSize(id, keys - {k});
      assert Paired(id, keys) == Paired(id, keys - {k}) + {(id, k)};
    }
  }

  lemma {:induction false} AddedPairs(jobs: Jobs, id: RecordRef, job: JobState)
    requires id !in jobs
    ensures BatchIds(jobs[id := job]) == BatchIds(jobs) + Paired(id, job.batches.Keys)
      && BatchIds(jobs) !! Paired(id, job.batches.Keys)
  {
    var next := jobs[id := job];
    forall other, k
      ensures (other, k) in BatchIds(next)
        <==> (other, k) in BatchIds(jobs) || (other, k) in Paired(id, job.batches.Keys)
    {
    }
  }

  lemma {:induction false} AddedBatches(jobs: Jobs, id: RecordRef, job: JobState)
    requires id !in jobs
    ensures |BatchIds(jobs[id := job])| == |BatchIds(jobs)| + |job.batches|
  {
    hide *;
    AddedPairs(jobs, id, job);
    PairedSize(id, job.batches.Keys);
  }

  lemma JobLedgerAlike(e: Engine, f: Engine, id: RecordRef)
    requires id in e.jobs && id in f.jobs && e.jobs[id] == f.jobs[id] && JobLedger(e, id)
    requires e.scope == f.scope && e.revision == f.revision && e.graph == f.graph
    ensures JobLedger(f, id)
  {
    hide JobBound, BindingScope, JobGood, ReceiptsOf, Contiguous;
  }

  ghost predicate Shows(e: Engine, scope: nat, revision: nat, graph: Snapshot, image: JobImage) {
    && e.scope == scope && e.revision == revision && e.graph == graph
    && image.checkpoint.job in e.jobs && e.jobs[image.checkpoint.job] == JobOf(image)
  }

  lemma {:induction false} ReadJobHolds(scope: nat, revision: nat, graph: Snapshot, image: JobImage)
    requires JobImageGood(scope, revision, graph, image)
    ensures forall e: Engine :: Shows(e, scope, revision, graph, image) ==> JobLedger(e, image.checkpoint.job)
    ensures JobMarks(JobOf(image)) == Marks(image.checkpoint, ReceiptList(image.batches))
    ensures |JobOf(image).batches| == |image.batches|
  {
    hide JobBound, BindingScope, EventMap, BatchMap, Contiguous, ReceiptsOf, ReceiptList, JobGood, Marks;
    BatchMapReceipts(image.batches);
    EventMapSize(scope, image.events);
    EventMapKeys(image.events);
    forall event | event in EventMap(image.events) ensures event.scope == scope {
      assert event in EventKeys(image.events);
    }
  }

  lemma {:induction false} GrownEngine(scope: nat, revision: nat, graph: Snapshot, images: seq<JobImage>)
    requires images != []
    ensures var front, last := images[..|images| - 1], images[|images| - 1];
      var id, job := last.checkpoint.job, JobOf(last);
      var e, f := EngineOf(scope, revision, graph, front), EngineOf(scope, revision, graph, images);
      && f.jobs == e.jobs[id := job] && f.sourceEvents == e.sourceEvents + OwnersOf(job.sourceEvents, id)
      && f.batchCount == e.batchCount + |last.batches|
      && IdsOf(images) == IdsOf(front) + [id] && Shows(f, scope, revision, graph, last)
      && AllMarks(images) == AllMarks(front) + Marks(last.checkpoint, ReceiptList(last.batches))
      && (front != [] ==> IdsOf(front)[|front| - 1] == front[|front| - 1].checkpoint.job)
  {
    hide Marks, ReceiptList, BatchMap, EventMap;
  }

  lemma {:induction false} HeldGrows(scope: nat, revision: nat, graph: Snapshot, images: seq<JobImage>)
    requires images != [] && Held(scope, revision, graph, images[..|images| - 1])
      && LastGood(scope, revision, graph, images)
    ensures Held(scope, revision, graph, images)
  {
    hide JobImageGood, JobLedger, SeparateMarks, EventsIndexed, BatchIds, Marked, JobMarks, Marks, EngineOf, IdsOf,
         AllMarks, Enumerates, ReceiptList, AssembledEvents, OwnersOf;
    var front, last := images[..|images| - 1], images[|images| - 1];
    var id, job := last.checkpoint.job, JobOf(last);
    var e, f := EngineOf(scope, revision, graph, front), EngineOf(scope, revision, graph, images);
    GrownEngine(scope, revision, graph, images);
    EngineParts(scope, revision, graph, front);
    EngineParts(scope, revision, graph, images);
    AddedId(IdsOf(front), e.jobs.Keys, id);
    assert f.jobs.Keys == e.jobs.Keys + {id};
    ReadJobHolds(scope, revision, graph, last);
    forall other | other in f.jobs ensures JobLedger(f, other) {
      if other != id { JobLedgerAlike(e, f, other); }
    }
    AddedMarks(e.jobs, AllMarks(front), id, job);
    EventMapKeys(last.events);
    assert job.sourceEvents.Keys !! e.sourceEvents.Keys by { ApartEvents(last.events, AssembledEvents(front)); }
    AddedEvents(e.jobs, e.sourceEvents, id, job);
    AddedBatches(e.jobs, id, job);
  }

  lemma EngineParts(scope: nat, revision: nat, graph: Snapshot, images: seq<JobImage>)
    ensures var e := EngineOf(scope, revision, graph, images);
      e.scope == scope && e.revision == revision && e.graph == graph && e.sourceEvents == AssembledEvents(images)
        && |IdsOf(images)| == |images|
  {
  }

  lemma ApartEvents(events: seq<(SourceEvent, nat)>, index: map<SourceEvent, RecordRef>)
    requires forall i :: 0 <= i < |events| ==> events[i].0 !in index
    ensures EventKeys(events) !! index.Keys
  {
  }

  /** Whatever the reader accepts is a ledger. */
  lemma {:induction false} GoodImagesHold(scope: nat, revision: nat, graph: Snapshot, images: seq<JobImage>)
    requires ImagesGood(scope, revision, graph, images)
    ensures Held(scope, revision, graph, images)
    decreases |images|
  {
    hide LastGood;
    if images == [] {
      assert BatchIds(Assembled(images)) == {};
    } else {
      hide Held;
      GoodImagesHold(scope, revision, graph, images[..|images| - 1]);
      HeldGrows(scope, revision, graph, images);
    }
  }

  /** Soundness of the reader: accepted images over a consistent graph of the same
      revision make a state with every ledger property. */
  lemma {:induction false} ReadableIsLedgered(scope: nat, revision: nat, graph: Snapshot, images: seq<JobImage>,
      declared: nat)
    requires Consistent(graph) && graph.scope == scope && graph.revision == revision
    requires Readable(scope, revision, graph, images, declared)
    ensures Ledgered(EngineOf(scope, revision, graph, images))
  {
    hide Consistent, ImagesGood, JobLedger, SeparateMarks, EventsIndexed, BatchIds;
    GoodImagesHold(scope, revision, graph, images);
    LessIsStrictOrder();
    EnumerationLength(IdsOf(images), Assembled(images).Keys, Less);
  }

  // What every ledger writes is accepted

  ghost predicate Listable(jobs: Jobs, ids: seq<RecordRef>) {
    forall id :: id in ids ==> id in jobs && Contiguous(jobs[id].batches)
  }

  ghost function Images(jobs: Jobs, ids: seq<RecordRef>): seq<JobImage>
    requires Listable(jobs, ids)
  {
    seq(|ids|, i requires 0 <= i < |ids| => assert ids[i] in ids; ImageOf(jobs[ids[i]]))
  }

  function Among(jobs: Jobs, ids: seq<RecordRef>): Jobs {
    map id | id in jobs && id in ids :: jobs[id]
  }

  lemma {:induction false} SortedStep(jobs: Jobs, k: nat)
    requires k < |Sorted(jobs.Keys)|
    ensures var ids := Sorted(jobs.Keys);
      && ids[k] in jobs && ids[k] !in ids[..k]
      && Among(jobs, ids[..k + 1]) == Among(jobs, ids[..k])[ids[k] := jobs[ids[k]]]
      && (k > 0 ==> Less(ids[k - 1], ids[k]))
  {
    var ids := Sorted(jobs.Keys);
    assert ids[k] in ids;
    assert forall i :: 0 <= i < k ==> Less(ids[i], ids[k]);
    assert ids[..k + 1] == ids[..k] + [ids[k]];
  }

  /** A job apart from the ones already read shares none of their revisions or events. */
  lemma {:induction false} NextIsApart(e: Engine, ids: seq<RecordRef>, images: seq<JobImage>, id: RecordRef)
    requires Ledgered(e) && Held(e.scope, e.revision, e.graph, images) && Assembled(images) == Among(e.jobs, ids)
    requires id in e.jobs && id !in ids
    ensures JobMarks(e.jobs[id]) !! AllMarks(images)
    ensures e.jobs[id].sourceEvents.Keys !! AssembledEvents(images).Keys
  {
    hide Consistent, JobLedger, JobMarks, BatchIds, AllMarks, Assembled, AssembledEvents, TotalBatches, IdsOf,
         Enumerates;
    forall m | m in AllMarks(images) ensures m !in JobMarks(e.jobs[id]) {
      var other :| other in Assembled(images) && m in JobMarks(Assembled(images)[other]);
      assert JobMarks(e.jobs[id]) !! JobMarks(e.jobs[other]);
    }
    forall event | event in AssembledEvents(images) ensures event !in e.jobs[id].sourceEvents {
      var other := AssembledEvents(images)[event];
      assert other in Assembled(images) && event in Assembled(images)[other].sourceEvents;
      assert e.sourceEvents[event] == other;
    }
  }

  lemma {:induction false} NextIsGood(e: Engine, ids: seq<RecordRef>, images: seq<JobImage>, id: RecordRef)
    requires Ledgered(e) && Held(e.scope, e.revision, e.graph, images) && Assembled(images) == Among(e.jobs, ids)
    requires id in e.jobs && id !in ids && Contiguous(e.jobs[id].batches)
    requires images != [] ==> Less(images[|images| - 1].checkpoint.job, id)
    ensures LastGood(e.scope, e.revision, e.graph, images + [ImageOf(e.jobs[id])])
    ensures e.jobs[id].checkpoint.job == id && JobOf(ImageOf(e.jobs[id])) == e.jobs[id]
  {
    hide Ledgered, Held, JobImageGood, JobMarks, AllMarks, Assembled, AssembledEvents, JobLedger, Marks, EventMap,
         BatchMap, EventList, BatchList, ReceiptList;
    NextIsApart(e, ids, images, id);
    JobReadsBack(e, id);
    JobIsKeyed(e, id);
    var image := ImageOf(e.jobs[id]);
    ReadJobHolds(e.scope, e.revision, e.graph, image);
    EventMapKeys(image.events);
    var all := images + [image];
    assert all[..|all| - 1] == images && all[|all| - 1] == image;
    assert JobOf(image).sourceEvents.Keys == EventKeys(image.events);
    forall i | 0 <= i < |image.events| ensures image.events[i].0 !in AssembledEvents(images) {
      assert image.events[i] in image.events;
    }
  }

  lemma JobIsKeyed(e: Engine, id: RecordRef)
    requires Ledgered(e) && id in e.jobs
    ensures e.jobs[id].checkpoint.job == id && Contiguous(e.jobs[id].batches)
  {
    hide Consistent, SeparateMarks, EventsIndexed, BatchIds;
    LedgeredJob(e, id);
  }

  lemma ListedJobs(e: Engine, ids: seq<RecordRef>)
    requires Ledgered(e) && (forall id :: id in ids ==> id in e.jobs)
    ensures Listable(e.jobs, ids)
  {
    hide Ledgered;
    forall id | id in ids ensures Contiguous(e.jobs[id].batches) { JobIsKeyed(e, id); }
  }

  lemma GoodStep(scope: nat, revision: nat, graph: Snapshot, images: seq<JobImage>, image: JobImage)
    requires ImagesGood(scope, revision, graph, images) && LastGood(scope, revision, graph, images + [image])
    ensures ImagesGood(scope, revision, graph, images + [image])
  {
    hide LastGood;
    var all := images + [image];
    assert all[..|all| - 1] == images;
  }

  lemma ImagesStep(jobs: Jobs, ids: seq<RecordRef>, k: nat)
    requires k < |ids| && Listable(jobs, ids[..k + 1])
    ensures Listable(jobs, ids[..k]) && ids[k] in jobs && Contiguous(jobs[ids[k]].batches)
    ensures Images(jobs, ids[..k + 1]) == Images(jobs, ids[..k]) + [ImageOf(jobs[ids[k]])]
  {
    hide ImageOf, Contiguous;
    assert ids[..k + 1] == ids[..k] + [ids[k]];
    assert ids[..k + 1][k] in ids[..k + 1];
    assert forall id :: id in ids[..k] ==> id in ids[..k + 1];
  }

  lemma SortedAreListed(e: Engine, k: nat)
    requires Ledgered(e) && k <= |e.jobs|
    ensures Listable(e.jobs, Sorted(e.jobs.Keys)[..k])
  {
    hide Ledgered, Contiguous;
    var ids := Sorted(e.jobs.Keys);
    assert forall id :: id in ids[..k] ==> id in ids;
    ListedJobs(e, ids[..k]);
  }

  /** The first `k` jobs are written acceptably and read back as themselves. */
  ghost predicate PrefixGood(e: Engine, k: nat) {
    k <= |e.jobs| &&
    var ids := Sorted(e.jobs.Keys)[..k];
    && Listable(e.jobs, ids)
    && ImagesGood(e.scope, e.revision, e.graph, Images(e.jobs, ids))
    && Assembled(Images(e.jobs, ids)) == Among(e.jobs, ids)
    && (k > 0 ==> Images(e.jobs, ids)[k - 1].checkpoint.job == Sorted(e.jobs.Keys)[k - 1])
  }

  lemma NoPrefixGood(e: Engine)
    ensures PrefixGood(e, 0)
  {
    hide JobLedger;
    assert Sorted(e.jobs.Keys)[..0] == [];
    assert Among(e.jobs, []) == map[];
  }

  lemma {:induction false} PrefixStep(e: Engine, k: nat)
    requires Ledgered(e) && k < |e.jobs| && PrefixGood(e, k)
    ensures PrefixGood(e, k + 1)
  {
    hide Ledgered, LastGood, ImageOf, JobOf, Contiguous, ImagesGood, Assembled, Among, Held, Listable, Enumerates;
    var sorted := Sorted(e.jobs.Keys);
    var id := sorted[k];
    SortedAreListed(e, k + 1);
    SortedStep(e.jobs, k);
    ImagesStep(e.jobs, sorted, k);
    var images := Images(e.jobs, sorted[..k]);
    GoodImagesHold(e.scope, e.revision, e.graph, images);
    NextIsGood(e, sorted[..k], images, id);
    GoodStep(e.scope, e.revision, e.graph, images, ImageOf(e.jobs[id]));
    AssembledStep(images, ImageOf(e.jobs[id]));
    ImageKeeps(e.jobs[id]);
  }

  lemma {:induction false} PrefixIsGood(e: Engine, k: nat)
    requires Ledgered(e) && k <= |e.jobs|
    ensures PrefixGood(e, k)
    decreases k
  {
    hide Ledgered, PrefixGood;
    if k == 0 {
      NoPrefixGood(e);
    } else {
      PrefixIsGood(e, k - 1);
      PrefixStep(e, k - 1);
    }
  }

  lemma AssembledStep(images: seq<JobImage>, image: JobImage)
    ensures Assembled(images + [image]) == Assembled(images)[image.checkpoint.job := JobOf(image)]
  {
    var all := images + [image];
    assert all[..|all| - 1] == images;
  }

  lemma ImageKeeps(job: JobState)
    requires Contiguous(job.batches)
    ensures ImageOf(job).checkpoint == job.checkpoint
  {
  }

  lemma {:induction false} IndexUnique(jobs: Jobs, a: map<SourceEvent, RecordRef>, b: map<SourceEvent, RecordRef>)
    requires EventsIndexed(jobs, a) && EventsIndexed(jobs, b)
    ensures a == b
  {
  }

  /** Every ledger's image is accepted, and reads back as the same jobs, event index and batch count. */
  lemma {:induction false} LedgerReadsBack(e: Engine)
    requires Ledgered(e)
    ensures var ids := Sorted(e.jobs.Keys);
      && Listable(e.jobs, ids)
      && Readable(e.scope, e.revision, e.graph, Images(e.jobs, ids), e.batchCount)
      && EngineOf(e.scope, e.revision, e.graph, Images(e.jobs, ids)) == e
  {
    hide Consistent, ImagesGood, JobLedger, SeparateMarks, EventsIndexed, BatchIds, Assembled, AssembledEvents,
         TotalBatches, Listable, AllMarks, Marked, Enumerates;
    var ids := Sorted(e.jobs.Keys);
    assert ids[..|e.jobs|] == ids;
    PrefixIsGood(e, |e.jobs|);
    var images := Images(e.jobs, ids);
    AmongAll(e.jobs);
    GoodImagesHold(e.scope, e.revision, e.graph, images);
    IndexUnique(e.jobs, AssembledEvents(images), e.sourceEvents);
  }

  lemma AmongAll(jobs: Jobs)
    ensures Among(jobs, Sorted(jobs.Keys)) == jobs
  {
    assert forall id :: id in jobs ==> id in Sorted(jobs.Keys);
  }

  /** The checkpoint of every run passes all job checks and restores the identical engine state. */
  lemma {:induction false} EveryRunReadsBack(scope: nat, requests: seq<Request>)
    ensures var e := RunEngine(scope, requests);
      var ids := Sorted(e.jobs.Keys);
      && Listable(e.jobs, ids)
      && Readable(scope, e.revision, e.graph, Images(e.jobs, ids), e.batchCount)
      && EngineOf(scope, e.revision, e.graph, Images(e.jobs, ids)) == e
  {
    hide Ledgered, RunEngine, Readable, Images, EngineOf, Listable;
    EveryRunIsLedgered(scope, requests);
    LedgerReadsBack(RunEngine(scope, requests));
  }
}
