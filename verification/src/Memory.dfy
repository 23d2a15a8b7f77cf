/** The bounded memory pilot: source versions, facts, corrections and as-of queries
    (crates/uste-memory/src/state.rs:212-446, 580-700; crates/uste-memory/src/query.rs:232-305). */
module Memory {
  import opened Base
  import opened Records

  const MAXIMUM_COMMITS := 4_096
  const MAXIMUM_SOURCE_VERSIONS := 256
  const MAXIMUM_FACTS := 2_048
  const MAXIMUM_SOURCE_BYTES := 32 * 1024 * 1024
  const MAXIMUM_SOURCE_BYTES_PER_VERSION := 1024 * 1024
  const MAXIMUM_TEXT_BYTES_PER_VERSION := 64 * 1024
  const MAXIMUM_FACT_FIELD_BYTES := 4 * 1024
  const MAXIMUM_FACT_LINKS := 8
  const MAXIMUM_LOGICAL_STATE_BYTES := 16 * 1024 * 1024
  const MAX_U32 := 0xFFFF_FFFF

  const TEXT_MEDIA_TYPE := "text/plain; charset=utf-8"
  const OPAQUE_MEDIA_TYPE := "application/octet-stream"

  type Bytes = seq<nat>

  datatype SourceId = SourceId(source: RecordRef, version: nat)

  datatype Locator =
    | ByteRange(start: nat, end: nat)
    | Utf8Lines(start: nat, end: nat, firstLine: nat, lastLine: nat)

  /** A stored blob; its content digest is the hashed byte sequence. */
  datatype StoredBlob = StoredBlob(scope: nat, id: nat, byteLen: nat, digest: Bytes)

  datatype SourceInput = SourceInput(id: SourceId, blob: StoredBlob, mediaType: string, text: Option<Bytes>,
      eventTime: Option<int>)

  datatype FactInput = FactInput(id: RecordRef, subject: Bytes, predicateName: Bytes, value: Bytes,
      links: seq<RecordRef>,
                                 source: SourceId, locator: Locator, eventTime: Option<int>)

  datatype Mutation =
    | BeginRebuild(nextGeneration: nat)
    | PutSource(source: SourceInput)
    | PutFact(fact: FactInput)
    | CorrectFact(target: RecordRef, replacement: FactInput)
    | RetractFact(target: RecordRef)
    | RevokeSource(revoked: SourceId)
    | CompleteRebuild

  datatype MemoryTransaction = MemoryTransaction(scope: nat, generation: nat, mutation: Mutation)

  datatype SourceRecord = SourceRecord(input: SourceInput, recorded: nat, superseded: Option<nat>, revoked: Option<nat>)

  datatype Terminal = SupersededAt(revision: nat) | RetractedAt(revision: nat)

  datatype FactRecord = FactRecord(input: FactInput, recorded: nat, corrects: Option<RecordRef>,
      terminal: Option<Terminal>)

  type Sources = map<SourceId, SourceRecord>
  type Facts = map<RecordRef, FactRecord>

  datatype State = State(scope: nat, generation: Option<nat>, ready: bool, retainedFrom: nat, current: nat,
                         sources: Sources, facts: Facts, sourceBytes: nat, logicalBytes: nat)

  function NewState(scope: nat): State {
    State(scope, None, false, 0, 0, map[], map[], 0, 0)
  }

  datatype ApplyError = InvalidRequest | Conflicting | OverLimit | SourceMoved

  type Verdict = Result<(), ApplyError>
  type Applied = Result<State, ApplyError>

  // Sizes

  function SourceWeight(s: SourceInput): nat {
    160 + |s.mediaType| + (if s.text.Some? then |s.text.value| else 0)
  }

  function FactWeight(f: FactInput): nat {
    192 + |f.subject| + |f.predicateName| + |f.value| + |f.links| * 16
  }

  // Validation

  function InScope(scope: nat, id: RecordRef): Verdict {
    if id.scope == scope then Ok(()) else Err(InvalidRequest)
  }

  function ValidateSource(s: SourceInput, scope: nat, inventory: Option<seq<StoredBlob>>): Verdict {
    var _ :- InScope(scope, s.id.source);
    if s.id.version == 0 || s.blob.scope != scope || s.blob.byteLen > MAXIMUM_SOURCE_BYTES_PER_VERSION
       || s.mediaType != (if s.text.Some? then TEXT_MEDIA_TYPE else OPAQUE_MEDIA_TYPE)
    then Err(InvalidRequest)
    else if inventory != Some([s.blob]) then Err(InvalidRequest)
    else if s.text.Some? && (|s.text.value| > MAXIMUM_TEXT_BYTES_PER_VERSION || |s.text.value| != s.blob.byteLen
      || s.text.value != s.blob.digest)
    then Err(SourceMoved)
    else Ok(())
  }

  function Newlines(bytes: Bytes): nat {
    if bytes == [] then 0 else Newlines(bytes[..|bytes| - 1]) + (if bytes[|bytes| - 1] == 10 then 1 else 0)
  }

  function LineAt(bytes: Bytes, offset: nat): nat
    requires offset <= |bytes|
  {
    Newlines(bytes[..offset]) + 1
  }

  predicate CharBoundary(bytes: Bytes, offset: nat) {
    offset == |bytes| || (offset < |bytes| && !(0x80 <= bytes[offset] < 0xC0))
  }

  function ValidateLocator(locator: Locator, s: SourceInput): Verdict {
    if locator.start > locator.end || locator.end > s.blob.byteLen then Err(InvalidRequest)
    else if locator.ByteRange? then Ok(())
    else if s.text.None? then Err(InvalidRequest)
    else
      var text := s.text.value;
      if locator.firstLine == 0 || locator.lastLine < locator.firstLine
         || !CharBoundary(text, locator.start) || !CharBoundary(text, locator.end)
      then Err(InvalidRequest)
      else if LineAt(text, locator.start) != locator.firstLine
              || LineAt(text, if locator.start == locator.end then locator.start
                 else locator.end - 1) != locator.lastLine
      then Err(InvalidRequest)
      else Ok(())
  }

  function CheckFields(fields: seq<Bytes>): Verdict {
    if exists i ::
      0 <= i < |fields| && (|fields[i]| == 0 || |fields[i]| > MAXIMUM_FACT_FIELD_BYTES) then Err(OverLimit) else Ok(())
  }

  /** Links must be in scope, strictly ascending, and name facts that already exist. */
  function CheckLinks(scope: nat, facts: Facts, links: seq<RecordRef>): Verdict {
    if links == [] then Ok(())
    else
      var front, last := links[..|links| - 1], links[|links| - 1];
      var _ :- CheckLinks(scope, facts, front);
      var _ :- InScope(scope, last);
      if (front != [] && !Less(front[|front| - 1], last)) || last !in facts then Err(Conflicting) else Ok(())
  }

  function ValidateFact(s: State, f: FactInput): Verdict {
    var _ :- InScope(s.scope, f.id);
    var _ :- InScope(s.scope, f.source.source);
    var _ :- CheckFields([f.subject, f.predicateName, f.value]);
    if |f.links| > MAXIMUM_FACT_LINKS then Err(OverLimit)
    else
      var _ :- CheckLinks(s.scope, s.facts, f.links);
      if f.source !in s.sources || s.sources[f.source].revoked.Some? then Err(Conflicting)
      else ValidateLocator(f.locator, s.sources[f.source].input)
  }

  // Mutations

  function Charge(s: State, added: nat): Applied {
    if s.logicalBytes + added > MAXIMUM_LOGICAL_STATE_BYTES then Err(OverLimit)
      else Ok(s.(logicalBytes := s.logicalBytes + added))
  }

  function Versions(sources: Sources, source: RecordRef): set<nat> {
    set id | id in sources && id.source == source :: id.version
  }

  ghost predicate IsLatest(sources: Sources, source: RecordRef, n: nat) {
    (forall v :: v in Versions(sources, source) ==> v <= n) && (n == 0 || n in Versions(sources, source))
  }

  lemma LatestExists(versions: set<nat>) returns (n: nat)
    ensures (forall v :: v in versions ==> v <= n) && (n == 0 || n in versions)
  {
    if versions == {} {
      n := 0;
    } else {
      var v :| v in versions;
      var m := LatestExists(versions - {v});
      assert versions == (versions - {v}) + {v};
      n := if m > v then m else v;
    }
  }

  /** The highest stored version of a source, or zero. */
  ghost function Latest(sources: Sources, source: RecordRef): (n: nat)
    ensures IsLatest(sources, source, n)
  {
    assert exists n: nat :: IsLatest(sources, source, n) by {
      var n := LatestExists(Versions(sources, source));
      assert IsLatest(sources, source, n);
    }
    var n: nat :| IsLatest(sources, source, n);
    n
  }

  function MarkSuperseded(sources: Sources, id: SourceId, revision: nat): Sources {
    if id in sources then sources[id := sources[id].(superseded := Some(revision))] else sources
  }

  ghost function ApplySource(s: State, source: SourceInput, inventory: Option<seq<StoredBlob>>,
      revision: nat): Applied {
    var _ :- ValidateSource(source, s.scope, inventory);
    if source.id in s.sources then Err(Conflicting)
    else if |s.sources| >= MAXIMUM_SOURCE_VERSIONS then Err(OverLimit)
    else if Latest(s.sources, source.id.source) >= MAX_U32 then Err(OverLimit)
    else if source.id.version != Latest(s.sources, source.id.source) + 1 then Err(Conflicting)
    else if s.sourceBytes + source.blob.byteLen > MAXIMUM_SOURCE_BYTES then Err(OverLimit)
    else
      var charged :- Charge(s, SourceWeight(source));
      var previous := SourceId(source.id.source, source.id.version - 1);
      if source.id.version > 1 && previous !in s.sources then Err(Conflicting)
      else
        var sources := if source.id.version > 1 then MarkSuperseded(s.sources, previous, revision) else s.sources;
        Ok(charged.(sourceBytes := s.sourceBytes + source.blob.byteLen,
                    sources := sources[source.id := SourceRecord(source, revision, None, None)]))
  }

  function InsertFact(s: State, f: FactInput, corrects: Option<RecordRef>, revision: nat): Applied {
    var _ :- ValidateFact(s, f);
    if f.id in s.facts then Err(Conflicting)
    else if |s.facts| >= MAXIMUM_FACTS then Err(OverLimit)
    else
      var charged :- Charge(s, FactWeight(f));
      Ok(charged.(facts := s.facts[f.id := FactRecord(f, revision, corrects, None)]))
  }

  function End(facts: Facts, id: RecordRef, terminal: Terminal): Facts
    requires id in facts
  {
    facts[id := facts[id].(terminal := Some(terminal))]
  }

  function ApplyCorrection(s: State, target: RecordRef, f: FactInput, revision: nat): Applied {
    var _ :- InScope(s.scope, target);
    if target !in s.facts || s.facts[target].terminal.Some? then Err(Conflicting)
    else
      var inserted :- InsertFact(s, f, Some(target), revision);
      Ok(inserted.(facts := End(inserted.facts, target, SupersededAt(revision))))
  }

  function ApplyRetraction(s: State, target: RecordRef, revision: nat): Applied {
    var _ :- InScope(s.scope, target);
    if target !in s.facts || s.facts[target].terminal.Some? then Err(Conflicting)
    else Ok(s.(facts := End(s.facts, target, RetractedAt(revision))))
  }

  function ApplyRevocation(s: State, id: SourceId, revision: nat): Applied {
    var _ :- InScope(s.scope, id.source);
    if id !in s.sources || s.sources[id].revoked.Some? then Err(Conflicting)
    else Ok(s.(sources := s.sources[id := s.sources[id].(revoked := Some(revision))]))
  }

  function ApplyRebuild(s: State, next: nat, generation: nat, inventory: Option<seq<StoredBlob>>,
      revision: nat): Applied {
    if inventory.Some? || generation != next || next == 0 || next > MAX_U64
      || (s.generation.Some? && s.generation.value + 1 != next) then Err(Conflicting)
    else Ok(State(s.scope, Some(next), false, revision, s.current, map[], map[], 0, 0))
  }

  function RequireGeneration(s: State, generation: nat): Verdict {
    if s.generation == Some(generation) then Ok(()) else Err(SourceMoved)
  }

  function NoInventory(inventory: Option<seq<StoredBlob>>): Verdict {
    if inventory.None? then Ok(()) else Err(InvalidRequest)
  }

  ghost function ApplyInGeneration(s: State, m: Mutation, inventory: Option<seq<StoredBlob>>, revision: nat): Applied
    requires !m.BeginRebuild?
  {
    if m.PutSource? then ApplySource(s, m.source, inventory, revision)
    else
      var _ :- NoInventory(inventory);
      match m
      case PutFact(f) => InsertFact(s, f, None, revision)
      case CorrectFact(target, f) => ApplyCorrection(s, target, f, revision)
      case RetractFact(target) => ApplyRetraction(s, target, revision)
      case RevokeSource(id) => ApplyRevocation(s, id, revision)
      case CompleteRebuild => if s.ready then Err(Conflicting) else Ok(s.(ready := true))
  }

  /** `MemoryState::apply`. */
  ghost function Apply(s: State, tx: MemoryTransaction, inventory: Option<seq<StoredBlob>>, revision: nat): Applied {
    if tx.scope != s.scope || revision > MAXIMUM_COMMITS || tx.generation == 0 then Err(InvalidRequest)
    else if tx.mutation.BeginRebuild? then
      var next :- ApplyRebuild(s, tx.mutation.nextGeneration, tx.generation, inventory, revision);
      Ok(next.(current := revision))
    else
      var _ :- RequireGeneration(s, tx.generation);
      var next :- ApplyInGeneration(s, tx.mutation, inventory, revision);
      Ok(next.(current := revision))
  }

  // Eligibility

  /** Read permission on a record, as a pure predicate. */
  type MayRead = RecordRef -> bool

  datatype FactView = FactView(input: FactInput, recorded: nat, corrects: Option<RecordRef>)

  function ViewOf(f: FactRecord): FactView {
    FactView(f.input, f.recorded, f.corrects)
  }

  predicate SourceServes(source: SourceRecord, revision: nat) {
    source.recorded <= revision && source.revoked.None?
      && (source.superseded.Some? ==> source.superseded.value > revision)
  }

  /** `eligible_fact`. */
  function Eligible(s: State, id: RecordRef, revision: nat, may: MayRead): Option<FactRecord> {
    if id !in s.facts then None
    else
      var f := s.facts[id];
      if f.recorded > revision || (f.terminal.Some? && f.terminal.value.revision <= revision)
         || !may(id) || !may(f.input.source.source) || exists i :: 0 <= i < |f.input.links| && !may(f.input.links[i])
      then None
      else if f.input.source in s.sources && SourceServes(s.sources[f.input.source], revision) then Some(f)
      else None
  }

  function EligibleView(s: State, id: RecordRef, revision: nat, may: MayRead): Option<FactView> {
    var f := Eligible(s, id, revision, may);
    if f.Some? then Some(ViewOf(f.value)) else None
  }

  datatype KnowledgeAt = CurrentKnowledge | AtRevision(revision: nat)

  datatype ReadError =
    StaleGeneration | StaleView | Rebuilding | HistoryUnavailable | FactNotFound | ReadLimit | UnsupportedQuery

  function ResolveRevision(s: State, knowledge: KnowledgeAt): Result<nat, ReadError> {
    if s.current == 0 then Err(HistoryUnavailable)
    else
      var revision := if knowledge.CurrentKnowledge? then s.current else knowledge.revision;
      if revision > s.current || s.retainedFrom == 0 || revision < s.retainedFrom then Err(HistoryUnavailable)
        else Ok(revision)
  }

  // Runs

  datatype Commit = Commit(tx: MemoryTransaction, inventory: Option<seq<StoredBlob>>, revision: nat)

  /** A refused commit changes nothing: preparation works on a copy that is then dropped. */
  ghost function Step(s: State, c: Commit): State {
    match Apply(s, c.tx, c.inventory, c.revision)
    case Ok(next) => next
    case Err(_) => s
  }

  ghost function Run(scope: nat, commits: seq<Commit>): State
    decreases |commits|
  {
    if commits == [] then NewState(scope) else Step(Run(scope, commits[..|commits| - 1]), commits[|commits| - 1])
  }

  /** The coordinator offers every commit at a revision above the last accepted one. */
  ghost predicate Ordered(scope: nat, commits: seq<Commit>) {
    forall i :: 0 <= i < |commits| ==> commits[i].revision > Run(scope, commits[..i]).current
  }
}
