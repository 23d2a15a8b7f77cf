/** What every ordered run of the memory pilot keeps, and what as-of queries therefore return
    (crates/uste-memory/src/state.rs:212-438; crates/uste-memory/src/query.rs:261-305). */
module MemoryRuns {
  import opened Base
  import opened Records
  import opened Memory

  // Sums over a map

  ghost function Total<K, V>(m: map<K, V>, weight: V -> nat): nat {
    if m == map[] then 0
    else
      var k :| k in m;
      weight(m[k]) + Total(m - {k}, weight)
  }

  lemma {:induction false} TotalWithout<K, V>(m: map<K, V>, weight: V -> nat, k: K)
    requires k in m
    ensures Total(m, weight) == weight(m[k]) + Total(m - {k}, weight)
    decreases |m|
  {
    var picked :| picked in m && Total(m, weight) == weight(m[picked]) + Total(m - {picked}, weight);
    if picked != k {
      TotalWithout(m - {picked}, weight, k);
      TotalWithout(m - {k}, weight, picked);
      assert m - {picked} - {k} == m - {k} - {picked};
    }
  }

  lemma {:induction false} TotalInsert<K, V>(m: map<K, V>, weight: V -> nat, k: K, v: V)
    ensures Total(m[k := v], weight) == weight(v) + Total(m - {k}, weight)
  {
    TotalWithout(m[k := v], weight, k);
    assert m[k := v] - {k} == m - {k};
  }

  lemma {:induction false} TotalAdd<K, V>(m: map<K, V>, weight: V -> nat, k: K, v: V)
    requires k !in m
    ensures Total(m[k := v], weight) == Total(m, weight) + weight(v)
  {
    TotalInsert(m, weight, k, v);
    assert m - {k} == m;
  }

  lemma {:induction false} TotalSame<K, V>(m: map<K, V>, weight: V -> nat, k: K, v: V)
    requires k in m && weight(v) == weight(m[k])
    ensures Total(m[k := v], weight) == Total(m, weight)
  {
    TotalInsert(m, weight, k, v);
    TotalWithout(m, weight, k);
  }

  // The invariant

  function Previous(id: SourceId): SourceId {
    SourceId(id.source, if id.version == 0 then 0 else id.version - 1)
  }

  function Following(id: SourceId): SourceId {
    SourceId(id.source, id.version + 1)
  }

  /** A source version follows its predecessor, which it superseded, and only a superseded version has a successor. */
  ghost predicate SourceGood(sources: Sources, current: nat, id: SourceId)
    requires id in sources
  {
    var source := sources[id];
    && source.input.id == id && id.version >= 1 && 1 <= source.recorded <= current
    && (id.version > 1 ==> Previous(id) in sources && sources[Previous(id)].superseded == Some(source.recorded))
    && (source.superseded.Some? ==> Following(id) in sources && source.recorded < source.superseded.value <= current)
    && (source.revoked.Some? ==> source.recorded < source.revoked.value <= current)
  }

  ghost predicate SourcesGood(sources: Sources, current: nat) {
    forall id :: id in sources ==> SourceGood(sources, current, id)
  }

  ghost predicate LinkGood(facts: Facts, f: FactRecord, link: RecordRef) {
    link in facts && facts[link].recorded < f.recorded
  }

  ghost predicate CorrectorOf(facts: Facts, c: RecordRef, id: RecordRef, revision: nat) {
    c in facts && facts[c].corrects == Some(id) && facts[c].recorded == revision
  }

  ghost predicate FactGood(facts: Facts, sources: Sources, current: nat, id: RecordRef)
    requires id in facts
  {
    var f := facts[id];
    && f.input.id == id && 1 <= f.recorded <= current
    && f.input.source in sources && sources[f.input.source].recorded < f.recorded
    && (forall link :: link in f.input.links ==> LinkGood(facts, f, link))
    && (f.corrects.Some? ==>
          var t := f.corrects.value;
          t in facts && facts[t].terminal == Some(SupersededAt(f.recorded)) && facts[t].recorded < f.recorded)
    && (f.terminal.Some? ==> f.recorded < f.terminal.value.revision <= current)
    && (f.terminal.Some? && f.terminal.value.SupersededAt? ==>
       exists c :: CorrectorOf(facts, c, id, f.terminal.value.revision))
  }

  ghost predicate FactsGood(facts: Facts, sources: Sources, current: nat) {
    && (forall id :: id in facts ==> FactGood(facts, sources, current, id))
    && (forall a, b :: a in facts && b in facts && facts[a].recorded == facts[b].recorded ==> a == b)
  }

  function BlobBytes(source: SourceRecord): nat {
    source.input.blob.byteLen
  }

  function SourceBytes(source: SourceRecord): nat {
    SourceWeight(source.input)
  }

  function FactBytes(f: FactRecord): nat {
    FactWeight(f.input)
  }

  ghost predicate Counted(s: State) {
    && s.sourceBytes == Total(s.sources, BlobBytes) <= MAXIMUM_SOURCE_BYTES
    && s.logicalBytes == Total(s.sources, SourceBytes) + Total(s.facts, FactBytes) <= MAXIMUM_LOGICAL_STATE_BYTES
    && |s.sources| <= MAXIMUM_SOURCE_VERSIONS && |s.facts| <= MAXIMUM_FACTS
  }

  ghost predicate Good(s: State) {
    && SourcesGood(s.sources, s.current) && FactsGood(s.facts, s.sources, s.current) && Counted(s)
    && s.retainedFrom <= s.current && (s.generation.Some? <==> s.retainedFrom >= 1)
  }

  // Sources

  /** With every predecessor present, the stored versions of a source are exactly 1 to the latest. */
  lemma {:induction false} VersionsAreContiguous(sources: Sources, current: nat, source: RecordRef, v: nat)
    requires SourcesGood(sources, current) && 1 <= v <= Latest(sources, source)
    ensures SourceId(source, v) in sources
    decreases Latest(sources, source) - v
  {
    if v < Latest(sources, source) {
      VersionsAreContiguous(sources, current, source, v + 1);
      assert SourceGood(sources, current, SourceId(source, v + 1));
    } else {
      assert v in Versions(sources, source);
    }
  }

  lemma StoredIsVersion(sources: Sources, id: SourceId)
    requires id in sources
    ensures id.version <= Latest(sources, id.source)
  {
    assert id.version in Versions(sources, id.source);
  }

  /** The version a new source must carry has its predecessor stored and not yet superseded. */
  lemma {:induction false} LatestIsOpen(sources: Sources, current: nat, id: SourceId)
    requires SourcesGood(sources, current) && id.version == Latest(sources, id.source) + 1
    ensures id !in sources && Following(id) !in sources
    ensures id.version > 1 ==> Previous(id) in sources && sources[Previous(id)].superseded.None?
  {
    if id in sources { StoredIsVersion(sources, id); }
    if Following(id) in sources { StoredIsVersion(sources, Following(id)); }
    if id.version > 1 {
      VersionsAreContiguous(sources, current, id.source, id.version - 1);
      assert SourceGood(sources, current, Previous(id));
      assert Following(Previous(id)) == id;
    }
  }

  lemma {:induction false} StoredStaysGood(sources: Sources, current: nat, source: SourceInput, revision: nat,
      x: SourceId)
    requires SourcesGood(sources, current) && source.id.version == Latest(sources, source.id.source) + 1
      && revision > current && x in sources
    ensures var next := WithSource(sources, source, revision); x in next && SourceGood(next, revision, x)
  {
    hide Latest;
    LatestIsOpen(sources, current, source.id);
    assert SourceGood(sources, current, x);
  }

  lemma {:induction false} SourcesGrow(sources: Sources, current: nat, source: SourceInput, revision: nat)
    requires SourcesGood(sources, current) && source.id.version == Latest(sources, source.id.source) + 1
      && revision > current
    ensures SourcesGood(WithSource(sources, source, revision), revision)
  {
    hide Latest, SourcesGood;
    LatestIsOpen(sources, current, source.id);
    var next := WithSource(sources, source, revision);
    forall x | x in next ensures SourceGood(next, revision, x) {
      if x != source.id { StoredStaysGood(sources, current, source, revision, x); }
    }
    AllSourcesGood(next, revision);
  }

  lemma AllSourcesGood(sources: Sources, current: nat)
    requires forall id :: id in sources ==> SourceGood(sources, current, id)
    ensures SourcesGood(sources, current)
  {
  }

  lemma {:induction false} RevocationKeeps(sources: Sources, current: nat, id: SourceId, revision: nat)
    requires SourcesGood(sources, current) && id in sources && revision > current
    ensures SourcesGood(sources[id := sources[id].(revoked := Some(revision))], revision)
  {
    var next := sources[id := sources[id].(revoked := Some(revision))];
    forall x | x in next ensures SourceGood(next, revision, x) { assert SourceGood(sources, current, x); }
  }

  lemma SourcesLater(sources: Sources, current: nat, revision: nat)
    requires SourcesGood(sources, current) && revision >= current
    ensures SourcesGood(sources, revision)
  {
    forall x | x in sources ensures SourceGood(sources, revision, x) { assert SourceGood(sources, current, x); }
  }

  // Facts

  lemma {:induction false} LinksExist(scope: nat, facts: Facts, links: seq<RecordRef>)
    requires CheckLinks(scope, facts, links).Ok?
    ensures forall link :: link in links ==> link in facts
    ensures Increasing(links, Less)
    decreases |links|
  {
    if links != [] {
      var front, last := links[..|links| - 1], links[|links| - 1];
      LinksExist(scope, facts, front);
      assert links == front + [last];
      forall i | 0 <= i < |front| ensures Less(front[i], last) {
        if i < |front| - 1 { assert Less(front[i], front[|front| - 1]); }
      }
    }
  }

  /** Facts survive any change of sources that keeps every stored version where it was. */
  lemma {:induction false} FactsOver(facts: Facts, sources: Sources, current: nat, next: Sources, revision: nat)
    requires FactsGood(facts, sources, current) && revision >= current
    requires forall id :: id in sources ==> id in next && next[id].recorded == sources[id].recorded
    ensures FactsGood(facts, next, revision)
  {
    forall id | id in facts
      ensures FactGood(facts, next, revision, id)
    {
      assert FactGood(facts, sources, current, id);
    }
  }

  /** The facts after inserting `f`, which may correct a fact that is still open. */
  function WithFact(facts: Facts, f: FactInput, corrects: Option<RecordRef>, revision: nat): Facts
    requires corrects.Some? ==> corrects.value in facts
  {
    var inserted := facts[f.id := FactRecord(f, revision, corrects, None)];
    if corrects.Some? then End(inserted, corrects.value, SupersededAt(revision)) else inserted
  }

  ghost predicate Insertable(facts: Facts, sources: Sources, current: nat, f: FactInput, corrects: Option<RecordRef>,
      revision: nat) {
    && FactsGood(facts, sources, current) && revision > current && SourcesGood(sources, current)
    && f.id !in facts && f.source in sources && (forall link :: link in f.links ==> link in facts)
    && (corrects.Some? ==> corrects.value in facts && facts[corrects.value].terminal.None?)
  }

  lemma {:induction false} NewFactGood(facts: Facts, sources: Sources, current: nat, f: FactInput,
      corrects: Option<RecordRef>, revision: nat)
    requires Insertable(facts, sources, current, f, corrects, revision)
    ensures var next := WithFact(facts, f, corrects, revision); f.id in next && FactGood(next, sources, revision, f.id)
  {
    var next := WithFact(facts, f, corrects, revision);
    assert SourceGood(sources, current, f.source);
    forall link | link in f.links
      ensures LinkGood(next, next[f.id], link)
    {
      assert FactGood(facts, sources, current, link);
    }
    if corrects.Some? { assert FactGood(facts, sources, current, corrects.value); }
  }

  lemma {:induction false} TargetGood(facts: Facts, sources: Sources, current: nat, f: FactInput, target: RecordRef,
      revision: nat)
    requires Insertable(facts, sources, current, f, Some(target), revision)
    ensures var next := WithFact(facts, f, Some(target), revision);
      target in next && FactGood(next, sources, revision, target)
  {
    var next := WithFact(facts, f, Some(target), revision);
    assert FactGood(facts, sources, current, target);
    forall link | link in next[target].input.links
      ensures LinkGood(next, next[target], link)
    {
      assert LinkGood(facts, facts[target], link);
    }
    assert CorrectorOf(next, f.id, target, revision);
  }

  /** Inserting touches nothing of an existing fact but the end of the one it corrects. */
  lemma FactKept(facts: Facts, f: FactInput, corrects: Option<RecordRef>, revision: nat, x: RecordRef)
    requires x in facts && f.id !in facts && (corrects.Some? ==> corrects.value in facts)
    ensures var next := WithFact(facts, f, corrects, revision);
      x in next && next[x] == facts[x].(terminal := next[x].terminal) && (corrects != Some(x) ==> next[x] == facts[x])
  {
  }

  lemma {:induction false} OldFactGood(facts: Facts, sources: Sources, current: nat, f: FactInput,
      corrects: Option<RecordRef>, revision: nat, id: RecordRef)
    requires Insertable(facts, sources, current, f, corrects, revision) && id in facts && corrects != Some(id)
    requires FactGood(facts, sources, current, id)
    ensures var next := WithFact(facts, f, corrects, revision); id in next && FactGood(next, sources, revision, id)
  {
    hide FactsGood, SourcesGood, WithFact;
    var next := WithFact(facts, f, corrects, revision);
    var was := facts[id];
    FactKept(facts, f, corrects, revision, id);
    forall link | link in was.input.links ensures LinkGood(next, was, link) {
      assert LinkGood(facts, was, link);
      FactKept(facts, f, corrects, revision, link);
    }
    if was.corrects.Some? { FactKept(facts, f, corrects, revision, was.corrects.value); }
    if was.terminal.Some? && was.terminal.value.SupersededAt? {
      var c :| CorrectorOf(facts, c, id, was.terminal.value.revision);
      FactKept(facts, f, corrects, revision, c);
      assert CorrectorOf(next, c, id, was.terminal.value.revision);
    }
  }

  lemma {:induction false} FactsGrow(facts: Facts, sources: Sources, current: nat, f: FactInput,
      corrects: Option<RecordRef>, revision: nat)
    requires Insertable(facts, sources, current, f, corrects, revision)
    ensures FactsGood(WithFact(facts, f, corrects, revision), sources, revision)
  {
    var next := WithFact(facts, f, corrects, revision);
    forall id | id in next ensures FactGood(next, sources, revision, id) {
      if id == f.id { NewFactGood(facts, sources, current, f, corrects, revision); }
      else if corrects == Some(id) { TargetGood(facts, sources, current, f, id, revision); }
      else { OldFactGood(facts, sources, current, f, corrects, revision, id); }
    }
    forall id | id in facts
      ensures next[id].recorded == facts[id].recorded <= current
    {
      assert FactGood(facts, sources, current, id);
    }
  }

  lemma {:induction false} RetractionKeeps(facts: Facts, sources: Sources, current: nat, target: RecordRef,
      revision: nat)
    requires FactsGood(facts, sources, current) && target in facts && facts[target].terminal.None? && revision > current
    ensures FactsGood(End(facts, target, RetractedAt(revision)), sources, revision)
  {
    var next := End(facts, target, RetractedAt(revision));
    forall id | id in next ensures FactGood(next, sources, revision, id) {
      assert FactGood(facts, sources, current, id);
      forall link | link in next[id].input.links
        ensures LinkGood(next, next[id], link)
      {
        assert LinkGood(facts, facts[id], link);
      }
      if id != target && facts[id].terminal.Some? && facts[id].terminal.value.SupersededAt? {
        var c :| CorrectorOf(facts, c, id, facts[id].terminal.value.revision);
        assert CorrectorOf(next, c, id, facts[id].terminal.value.revision);
      }
    }
  }

  // Each accepted commit keeps the invariant

  /** The sources after accepting a version: its predecessor superseded, itself added. */
  function WithSource(sources: Sources, source: SourceInput, revision: nat): Sources {
    var kept := if source.id.version > 1 then MarkSuperseded(sources, Previous(source.id), revision) else sources;
    kept[source.id := SourceRecord(source, revision, None, None)]
  }

  lemma {:induction false} SourceTotals(sources: Sources, source: SourceInput, revision: nat,
      weight: SourceRecord -> nat)
    requires source.id !in sources && (source.id.version > 1 ==> Previous(source.id) in sources)
    requires forall a: SourceRecord, b: SourceRecord :: a.input == b.input ==> weight(a) == weight(b)
    ensures Total(WithSource(sources, source, revision), weight)
      == Total(sources, weight) + weight(SourceRecord(source, revision, None, None))
  {
    hide Total;
    var id, record := source.id, SourceRecord(source, revision, None, None);
    if id.version > 1 {
      var older := sources[Previous(id)].(superseded := Some(revision));
      TotalSame(sources, weight, Previous(id), older);
      TotalAdd(sources[Previous(id) := older], weight, id, record);
    } else {
      TotalAdd(sources, weight, id, record);
    }
  }

  lemma SourceSizes(sources: Sources, source: SourceInput, revision: nat)
    requires source.id !in sources
    ensures |WithSource(sources, source, revision)| == |sources| + 1
    ensures forall id :: id in sources ==>
      id in WithSource(sources, source, revision) && WithSource(sources, source, revision)[id].recorded
      == sources[id].recorded
  {
    assert WithSource(sources, source, revision).Keys == sources.Keys + {source.id};
  }

  lemma AppliedSource(s: State, source: SourceInput, inventory: Option<seq<StoredBlob>>, revision: nat, next: State)
    requires ApplySource(s, source, inventory, revision) == Ok(next)
    ensures source.id.version == Latest(s.sources, source.id.source) + 1
    ensures next == s.(sources := WithSource(s.sources, source, revision), sourceBytes := s.sourceBytes
      + source.blob.byteLen, logicalBytes := s.logicalBytes + SourceWeight(source))
    ensures next.sourceBytes <= MAXIMUM_SOURCE_BYTES && next.logicalBytes <= MAXIMUM_LOGICAL_STATE_BYTES
      && |s.sources| < MAXIMUM_SOURCE_VERSIONS
  {
    hide ValidateSource, Latest;
  }

  lemma {:induction false} SourceKeepsGood(s: State, source: SourceInput, inventory: Option<seq<StoredBlob>>,
      revision: nat, next: State)
    requires Good(s) && revision > s.current && ApplySource(s, source, inventory, revision) == Ok(next)
    ensures Good(next.(current := revision))
  {
    hide SourcesGood, FactsGood, ApplySource, Total, WithSource, MarkSuperseded, SourceWeight;
    AppliedSource(s, source, inventory, revision, next);
    LatestIsOpen(s.sources, s.current, source.id);
    SourcesGrow(s.sources, s.current, source, revision);
    SourceSizes(s.sources, source, revision);
    FactsOver(s.facts, s.sources, s.current, next.sources, revision);
    SourceTotals(s.sources, source, revision, BlobBytes);
    SourceTotals(s.sources, source, revision, SourceBytes);
  }

  lemma {:induction false} FactIsInsertable(s: State, f: FactInput, corrects: Option<RecordRef>, revision: nat)
    requires Good(s) && revision > s.current && ValidateFact(s, f).Ok? && f.id !in s.facts
    requires corrects.Some? ==> corrects.value in s.facts && s.facts[corrects.value].terminal.None?
    ensures Insertable(s.facts, s.sources, s.current, f, corrects, revision)
  {
    hide SourcesGood, FactsGood, ValidateLocator, CheckFields;
    LinksExist(s.scope, s.facts, f.links);
  }

  lemma {:induction false} FactTotals(facts: Facts, f: FactInput, corrects: Option<RecordRef>, revision: nat)
    requires f.id !in facts && (corrects.Some? ==> corrects.value in facts)
    ensures Total(WithFact(facts, f, corrects, revision), FactBytes) == Total(facts, FactBytes) + FactWeight(f)
    ensures |WithFact(facts, f, corrects, revision)| == |facts| + 1
  {
    hide Total, FactWeight;
    var record := FactRecord(f, revision, corrects, None);
    var inserted := facts[f.id := record];
    TotalAdd(facts, FactBytes, f.id, record);
    if corrects.Some? {
      TotalSame(inserted, FactBytes, corrects.value,
        inserted[corrects.value].(terminal := Some(SupersededAt(revision))));
    }
    assert WithFact(facts, f, corrects, revision).Keys == facts.Keys + {f.id};
  }

  lemma {:induction false} InsertKeepsCounts(s: State, f: FactInput, corrects: Option<RecordRef>, revision: nat,
      next: State)
    requires Counted(s) && InsertFact(s, f, corrects, revision) == Ok(next)
    requires corrects.Some? ==> corrects.value in s.facts
    ensures Counted(next.(facts := WithFact(s.facts, f, corrects, revision)))
  {
    hide ValidateFact, Total, WithFact, FactWeight;
    FactTotals(s.facts, f, corrects, revision);
  }

  lemma {:induction false} FactKeepsGood(s: State, f: FactInput, corrects: Option<RecordRef>, revision: nat,
      next: State)
    requires Good(s) && revision > s.current && InsertFact(s, f, corrects, revision) == Ok(next)
    requires corrects.Some? ==> corrects.value in s.facts && s.facts[corrects.value].terminal.None?
    ensures Good(next.(facts := WithFact(s.facts, f, corrects, revision), current := revision))
  {
    hide SourcesGood, FactsGood, ValidateFact, Counted, Insertable;
    FactIsInsertable(s, f, corrects, revision);
    FactsGrow(s.facts, s.sources, s.current, f, corrects, revision);
    InsertKeepsCounts(s, f, corrects, revision, next);
    SourcesLater(s.sources, s.current, revision);
    var counted := next.(facts := WithFact(s.facts, f, corrects, revision));
    CountedAlike(counted, counted.(current := revision));
  }

  lemma CountedAlike(s: State, t: State)
    requires Counted(s) && t.sources == s.sources && t.facts == s.facts && t.sourceBytes == s.sourceBytes
      && t.logicalBytes == s.logicalBytes
    ensures Counted(t)
  {
  }

  lemma {:induction false} RetractionKeepsGood(s: State, target: RecordRef, revision: nat, next: State)
    requires Good(s) && revision > s.current && ApplyRetraction(s, target, revision) == Ok(next)
    ensures Good(next.(current := revision))
  {
    hide SourcesGood, FactsGood, Total;
    RetractionKeeps(s.facts, s.sources, s.current, target, revision);
    SourcesLater(s.sources, s.current, revision);
    TotalSame(s.facts, FactBytes, target, s.facts[target].(terminal := Some(RetractedAt(revision))));
    assert next.facts.Keys == s.facts.Keys;
  }

  lemma {:induction false} RevocationKeepsGood(s: State, id: SourceId, revision: nat, next: State)
    requires Good(s) && revision > s.current && ApplyRevocation(s, id, revision) == Ok(next)
    ensures Good(next.(current := revision))
  {
    hide SourcesGood, FactsGood, Total;
    var revoked := s.sources[id].(revoked := Some(revision));
    RevocationKeeps(s.sources, s.current, id, revision);
    FactsOver(s.facts, s.sources, s.current, next.sources, revision);
    TotalSame(s.sources, BlobBytes, id, revoked);
    TotalSame(s.sources, SourceBytes, id, revoked);
    assert next.sources.Keys == s.sources.Keys;
  }

  lemma EmptyIsGood(scope: nat, generation: Option<nat>, ready: bool, retainedFrom: nat, current: nat)
    requires retainedFrom <= current && (generation.Some? <==> retainedFrom >= 1)
    ensures Good(State(scope, generation, ready, retainedFrom, current, map[], map[], 0, 0))
  {
  }

  lemma {:induction false} CompletionKeepsGood(s: State, revision: nat)
    requires Good(s) && revision > s.current
    ensures Good(s.(ready := true, current := revision))
  {
    hide SourcesGood, FactsGood, Counted;
    SourcesLater(s.sources, s.current, revision);
    FactsOver(s.facts, s.sources, s.current, s.sources, revision);
    CountedAlike(s, s.(ready := true, current := revision));
  }

  lemma {:induction false} CommitKeepsGood(s: State, c: Commit)
    requires Good(s) && c.revision > s.current
    ensures Good(Step(s, c)) && Step(s, c).current >= s.current
  {
    hide Good, ApplySource, InsertFact, ApplyRevocation, ApplyRetraction;
    match Apply(s, c.tx, c.inventory, c.revision) {
      case Err(_) =>
      case Ok(_) =>
        match c.tx.mutation {
          case BeginRebuild(next) => EmptyIsGood(s.scope, Some(next), false, c.revision, c.revision);
          case PutSource(source) =>
            SourceKeepsGood(s, source, c.inventory, c.revision, ApplySource(s, source, c.inventory, c.revision).value);
          case PutFact(f) =>
            var next := InsertFact(s, f, None, c.revision).value;
            FactKeepsGood(s, f, None, c.revision, next);
            InsertedFacts(s, f, None, c.revision, next);
          case CorrectFact(target, f) =>
            var next := InsertFact(s, f, Some(target), c.revision).value;
            FactKeepsGood(s, f, Some(target), c.revision, next);
            InsertedFacts(s, f, Some(target), c.revision, next);
          case RetractFact(target) =>
            RetractionKeepsGood(s, target, c.revision, ApplyRetraction(s, target, c.revision).value);
          case RevokeSource(id) => RevocationKeepsGood(s, id, c.revision, ApplyRevocation(s, id, c.revision).value);
          case CompleteRebuild => CompletionKeepsGood(s, c.revision);
        }
    }
  }

  lemma InsertedFacts(s: State, f: FactInput, corrects: Option<RecordRef>, revision: nat, next: State)
    requires InsertFact(s, f, corrects, revision) == Ok(next) && (corrects.Some? ==> corrects.value in s.facts)
    ensures next == s.(facts := next.facts, logicalBytes := next.logicalBytes)
      && next.facts == s.facts[f.id := FactRecord(f, revision, corrects, None)]
    ensures WithFact(s.facts, f, corrects, revision) == if corrects.Some?
      then End(next.facts, corrects.value, SupersededAt(revision)) else next.facts
  {
    hide ValidateFact;
  }

  /** Every ordered run: contiguous source versions, linear corrections, and
      byte counters equal to the sums they stand for. */
  lemma {:induction false} EveryRunIsGood(scope: nat, commits: seq<Commit>)
    requires Ordered(scope, commits)
    ensures Good(Run(scope, commits))
    decreases |commits|
  {
    hide Good, Step;
    if commits == [] {
      EmptyIsGood(scope, None, false, 0, 0);
    } else {
      var front := commits[..|commits| - 1];
      PrefixOrdered(scope, commits, |commits| - 1);
      EveryRunIsGood(scope, front);
      CommitKeepsGood(Run(scope, front), commits[|commits| - 1]);
    }
  }

  lemma PrefixOrdered(scope: nat, commits: seq<Commit>, n: nat)
    requires Ordered(scope, commits) && n <= |commits|
    ensures Ordered(scope, commits[..n])
  {
    hide Run;
    forall i | 0 <= i < n ensures commits[..n][i].revision > Run(scope, commits[..n][..i]).current {
      assert commits[..n][..i] == commits[..i];
    }
  }
}
