/** The import ledger layered on the graph reducer: jobs, batches and the source-event index
    (crates/uste-ingest/src/state.rs:143-586, 690-860; crates/uste-ingest/src/model.rs:243-402). */
module Ingest {
  import opened Base
  import opened Records
  import opened Reducer

  const MAX_ROWS_PER_BATCH := 10_000
  const MAX_IMPORT_ROWS := 1_000_000_000
  const MAX_IMPORT_JOBS := 10_000
  const MAX_IMPORT_BATCHES := 1_000_000

  datatype SourceEvent = SourceEvent(scope: nat, event: nat)

  predicate EventLess(a: SourceEvent, b: SourceEvent) {
    a.scope < b.scope || (a.scope == b.scope && a.event < b.event)
  }

  datatype Blob = Blob(scope: nat, id: nat, digest: nat)

  /** A source or a mapping: an evidence record at one version, and the blob with its content. */
  datatype Binding = Binding(evidence: RecordRef, version: nat, blob: Blob)

  datatype JobStatus = Open | Completed

  datatype ImportCheckpoint = ImportCheckpoint(
    job: RecordRef, version: nat, source: Binding, mapping: Binding, nextBatch: nat, nextRow: nat,
    acceptedRows: nat, firstRevision: nat, lastRevision: nat, status: JobStatus, chain: nat)

  datatype MappedRow = MappedRow(event: SourceEvent, payload: nat)

  datatype ImportBatch = ImportBatch(
    job: RecordRef, sequence: nat, expected: ImportCheckpoint, start: nat, rows: seq<MappedRow>,
    graph: Transaction, final: bool)

  datatype ImportStart = ImportStart(job: RecordRef, source: Binding, mapping: Binding, graph: Transaction)

  datatype EngineTransaction =
    | GraphOnly(scope: nat, graph: Transaction)
    | StartJob(scope: nat, start: ImportStart)
    | ApplyBatch(scope: nat, batch: ImportBatch)

  /** A transaction with what reaches the reducer from outside: the staged blobs, the digests of the request and of
      the extended chain, and whether the spatial component accepts its part. */
  datatype Request = Request(tx: EngineTransaction, inventory: Option<set<Blob>>, digest: nat, chain: nat,
      spatialAccepts: bool)

  datatype ImportError =
    | VersionExhausted | ForeignScope | InvalidBatch | InvalidCheckpoint | MissingJob | JobExists | JobCompleted
    | SourceChanged | BatchConflict | SourceEventConflict | MissingReference | WrongReferenceKind
    | InventoryMismatch | ImportLimit | GraphRefused(reason: GraphError) | SpatialRefused

  type Outcome = Result<(), ImportError>

  datatype Receipt = Receipt(request: nat, revision: nat, rowCount: nat, checkpoint: ImportCheckpoint)

  datatype JobState = JobState(checkpoint: ImportCheckpoint, batches: map<nat, Receipt>,
      sourceEvents: map<SourceEvent, nat>)

  type Jobs = map<RecordRef, JobState>

  datatype Engine = Engine(scope: nat, revision: nat, graph: Snapshot, jobs: Jobs,
                           sourceEvents: map<SourceEvent, RecordRef>, batchCount: nat)

  function NewEngine(scope: nat): Engine {
    Engine(scope, 0, NewSnapshot(scope), map[], map[], 0)
  }

  datatype JobMutation =
    | NoMutation
    | Start(job: RecordRef, state: JobState)
    | Batch(job: RecordRef, expected: ImportCheckpoint, sequence: nat, receipt: Receipt, rows: seq<MappedRow>)

  datatype PreparedIngest = PreparedIngest(baseRevision: nat, revision: nat, graph: PreparedGraph,
      mutation: JobMutation)

  // Checkpoints and batches

  function Started(job: RecordRef, source: Binding, mapping: Binding, revision: nat, chain: nat): ImportCheckpoint {
    ImportCheckpoint(job, 1, source, mapping, 1, 0, 0, revision, revision, Open, chain)
  }

  function Advanced(c: ImportCheckpoint, rows: nat, revision: nat, completed: bool,
      chain: nat): Result<ImportCheckpoint, ImportError> {
    if c.acceptedRows + rows > MAX_IMPORT_ROWS || c.nextRow + rows > MAX_IMPORT_ROWS then Err(ImportLimit)
    else if c.version >= MAX_U64 || c.nextBatch >= MAX_U64 then Err(VersionExhausted)
    else Ok(c.(version := c.version + 1, nextBatch := c.nextBatch + 1, nextRow := c.nextRow + rows,
               acceptedRows := c.acceptedRows + rows, lastRevision := revision,
               status := if completed then Completed else Open, chain := chain))
  }

  /** `ImportBatch::new`. */
  function MakeBatch(b: ImportBatch): Outcome {
    if b.rows == [] || |b.rows| > MAX_ROWS_PER_BATCH then Err(ImportLimit)
    else if b.job != b.expected.job || b.start != b.expected.nextRow then Err(InvalidBatch)
    else Ok(())
  }

  // What the ledger asks of the graph

  function ActiveEntity(r: Option<Record>): Outcome {
    match r
    case Some(record) => if record.IsActiveEntity() then Ok(()) else Err(WrongReferenceKind)
    case None => Err(MissingReference)
  }

  function BoundEvidence(r: Option<Record>, binding: Binding): Outcome {
    match r
    case Some(record) =>
      if record.Evidence? && record.version == binding.version && record.digest == binding.blob.digest then Ok(())
        else Err(WrongReferenceKind)
    case None => Err(MissingReference)
  }

  function Bound(view: RecordRef -> Option<Record>, source: Binding, mapping: Binding): Outcome {
    var _ :- BoundEvidence(view(source.evidence), source);
    BoundEvidence(view(mapping.evidence), mapping)
  }

  function JobBound(view: RecordRef -> Option<Record>, id: RecordRef, c: ImportCheckpoint): Outcome {
    var _ :- ActiveEntity(view(id));
    Bound(view, c.source, c.mapping)
  }

  function Current(g: Snapshot): RecordRef -> Option<Record> {
    id => Lookup(g.records, id)
  }

  /** The version a prepared delta writes for a record, if it changes the record. */
  function ChangeOf(changes: seq<RecordChange>, id: RecordRef): Option<Record> {
    if changes == [] then None
    else if changes[|changes| - 1].id == id then Some(changes[|changes| - 1].after)
    else ChangeOf(changes[..|changes| - 1], id)
  }

  /** `PreparedGraphView`. */
  function PreparedView(g: Snapshot, p: PreparedGraph): RecordRef -> Option<Record> {
    id => if ChangeOf(p.changes, id).Some? then ChangeOf(p.changes, id) else Lookup(g.records, id)
  }

  /** `validate_job_closure`, over the jobs in their order. */
  function JobsBound(view: RecordRef -> Option<Record>, jobs: Jobs, ids: seq<RecordRef>): Outcome {
    if ids == [] then Ok(())
    else if ids[0] !in jobs then JobsBound(view, jobs, ids[1..])
    else
      var _ :- JobBound(view, ids[0], jobs[ids[0]].checkpoint);
      JobsBound(view, jobs, ids[1..])
  }

  predicate DeletesAny(ops: seq<Operation>) {
    exists i :: 0 <= i < |ops| && ops[i].DeleteEntity?
  }

  /** `prepare_graph`: inside an import no policy may change and no entity may be deleted. */
  ghost function PrepareGraph(g: Snapshot, scope: nat, tx: Transaction, revision: nat,
      unrestricted: bool): Result<PreparedGraph, ImportError> {
    if tx.scope != scope || (!unrestricted && (tx.policyMutation.Some? || DeletesAny(tx.operations)))
      then Err(InvalidBatch)
    else
      match Prepare(g, tx, revision)
      case Err(reason) => Err(GraphRefused(reason))
      case Ok(p) => if CanPublish(g, p) then Ok(p) else Err(InvalidCheckpoint)
  }

  // Preparing

  function RequireScope(scope: nat, id: RecordRef): Outcome {
    if id.scope == scope then Ok(()) else Err(ForeignScope)
  }

  function BindingScope(scope: nat, source: Binding, mapping: Binding): Outcome {
    var _ :- RequireScope(scope, source.evidence);
    var _ :- RequireScope(scope, mapping.evidence);
    if source.blob.scope != scope || mapping.blob.scope != scope then Err(ForeignScope) else Ok(())
  }

  function CheckInventory(inventory: Option<set<Blob>>, a: Blob, b: Blob): Outcome {
    if inventory.None? || (a.id == b.id && a != b) || inventory.value != {a, b} then Err(InventoryMismatch) else Ok(())
  }

  ghost function PrepareStart(e: Engine, start: ImportStart, request: Request,
      revision: nat): Result<PreparedIngest, ImportError> {
    var _ :- RequireScope(e.scope, start.job);
    var _ :- BindingScope(e.scope, start.source, start.mapping);
    if start.job in e.jobs then Err(JobExists)
    else if |e.jobs| == MAX_IMPORT_JOBS then Err(ImportLimit)
    else
      var _ :- CheckInventory(request.inventory, start.source.blob, start.mapping.blob);
      var graph :- PrepareGraph(e.graph, e.scope, start.graph, revision, false);
      var checkpoint := Started(start.job, start.source, start.mapping, revision, request.chain);
      var _ :- JobBound(PreparedView(e.graph, graph), start.job, checkpoint);
      Ok(PreparedIngest(e.revision, revision, graph, Start(start.job, JobState(checkpoint, map[], map[]))))
  }

  /** What `validate_rows` accepts: distinct events of this scope, none of them ever imported. */
  predicate RowsFresh(scope: nat, rows: seq<MappedRow>, existing: map<SourceEvent, RecordRef>) {
    && (forall i :: 0 <= i < |rows| ==> rows[i].event.scope == scope && rows[i].event !in existing)
    && (forall i, j :: 0 <= i < j < |rows| ==> rows[i].event != rows[j].event)
  }

  function CheckRows(scope: nat, b: ImportBatch, existing: map<SourceEvent, RecordRef>): Outcome {
    if !RowsFresh(scope, b.rows, existing) then Err(SourceEventConflict)
    else if b.start + |b.rows| > MAX_IMPORT_ROWS then Err(ImportLimit)
    else Ok(())
  }

  ghost function PrepareBatch(e: Engine, b: ImportBatch, request: Request,
      revision: nat): Result<PreparedIngest, ImportError> {
    if request.inventory.Some? && request.inventory.value != {} then Err(InventoryMismatch)
    else
      var _ :- RequireScope(e.scope, b.job);
      if b.job !in e.jobs then Err(MissingJob)
      else
        var current := e.jobs[b.job].checkpoint;
        var _ :- JobBound(Current(e.graph), b.job, current);
        if b.expected.source != current.source || b.expected.mapping != current.mapping then Err(SourceChanged)
        else if b.sequence < current.nextBatch then Err(BatchConflict)
        else if b.sequence != current.nextBatch || b.expected != current || b.start != current.nextRow
          then Err(InvalidCheckpoint)
        else if current.status != Open then Err(JobCompleted)
        else if e.batchCount == MAX_IMPORT_BATCHES then Err(ImportLimit)
        else
          var _ :- CheckRows(e.scope, b, e.sourceEvents);
          var graph :- PrepareGraph(e.graph, e.scope, b.graph, revision, false);
          if !request.spatialAccepts then Err(SpatialRefused)
          else
            var _ :- Bound(PreparedView(e.graph, graph), current.source, current.mapping);
            var checkpoint :- Advanced(current, |b.rows|, revision, b.final, request.chain);
            Ok(PreparedIngest(e.revision, revision, graph,
                              Batch(b.job, current, b.sequence, Receipt(request.digest, revision, |b.rows|, checkpoint),
                                b.rows)))
  }

  ghost function PrepareGraphOnly(e: Engine, graph: Transaction, request: Request,
      revision: nat): Result<PreparedIngest, ImportError> {
    if request.inventory.Some? then Err(InventoryMismatch)
    else
      var p :- PrepareGraph(e.graph, e.scope, graph, revision, true);
      if !request.spatialAccepts then Err(SpatialRefused)
      else
        var _ :- JobsBound(PreparedView(e.graph, p), e.jobs, Sorted(e.jobs.Keys));
        Ok(PreparedIngest(e.revision, revision, p, NoMutation))
  }

  /** `prepare_domain`. */
  ghost function PrepareDomain(e: Engine, request: Request, revision: nat): Result<PreparedIngest, ImportError> {
    if e.revision >= MAX_U64 then Err(VersionExhausted)
    else if request.tx.scope != e.scope || revision != e.revision + 1 then Err(InvalidCheckpoint)
    else
      match request.tx
      case GraphOnly(_, graph) => PrepareGraphOnly(e, graph, request, revision)
      case StartJob(_, start) => PrepareStart(e, start, request, revision)
      case ApplyBatch(_, b) =>
        var _ :- MakeBatch(b);
        PrepareBatch(e, b, request, revision)
  }

  // Publishing

  function WithEvents(events: map<SourceEvent, nat>, rows: seq<MappedRow>): map<SourceEvent, nat> {
    if rows == [] then events
    else WithEvents(events, rows[..|rows| - 1])[rows[|rows| - 1].event := rows[|rows| - 1].payload]
  }

  function WithOwners(owners: map<SourceEvent, RecordRef>, rows: seq<MappedRow>,
      job: RecordRef): map<SourceEvent, RecordRef> {
    if rows == [] then owners
    else WithOwners(owners, rows[..|rows| - 1], job)[rows[|rows| - 1].event := job]
  }

  function AfterBatch(job: JobState, sequence: nat, receipt: Receipt, rows: seq<MappedRow>): JobState {
    JobState(receipt.checkpoint, job.batches[sequence := receipt], WithEvents(job.sourceEvents, rows))
  }

  /** What publication checks of the ledger before it changes anything. */
  predicate MutationApplies(e: Engine, m: JobMutation) {
    match m
    case NoMutation => true
    case Start(job, _) => job !in e.jobs
    case Batch(job, expected, sequence, _, rows) =>
      && job in e.jobs && e.jobs[job].checkpoint == expected && sequence !in e.jobs[job].batches
      && forall i :: 0 <= i < |rows| ==> rows[i].event !in e.sourceEvents
  }

  predicate CanPublishIngest(e: Engine, p: PreparedIngest) {
    p.baseRevision == e.revision == e.graph.revision && CanPublish(e.graph, p.graph) && MutationApplies(e, p.mutation)
  }

  function Mutated(e: Engine, m: JobMutation): Engine
    requires MutationApplies(e, m)
  {
    match m
    case NoMutation => e
    case Start(job, state) => e.(jobs := e.jobs[job := state])
    case Batch(job, _, sequence, receipt, rows) =>
      e.(jobs := e.jobs[job := AfterBatch(e.jobs[job], sequence, receipt, rows)],
         sourceEvents := WithOwners(e.sourceEvents, rows, job), batchCount := e.batchCount + 1)
  }

  function PublishIngest(e: Engine, p: PreparedIngest): Engine
    requires CanPublishIngest(e, p)
  {
    Mutated(e, p.mutation).(graph := Publish(e.graph, p.graph), revision := p.revision)
  }

  // Runs

  /** One commit attempt at the next revision; a refused request changes nothing. */
  ghost function StepEngine(e: Engine, request: Request): Engine {
    match PrepareDomain(e, request, e.revision + 1)
    case Ok(p) => if CanPublishIngest(e, p) then PublishIngest(e, p) else e
    case Err(_) => e
  }

  ghost function RunEngine(scope: nat, requests: seq<Request>): Engine
    decreases |requests|
  {
    if requests == [] then NewEngine(scope)
    else StepEngine(RunEngine(scope, requests[..|requests| - 1]), requests[|requests| - 1])
  }
}
