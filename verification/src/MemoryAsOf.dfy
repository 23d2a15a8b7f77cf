/** As-of queries of the memory pilot, and the correction chains behind them
    (crates/uste-memory/src/query.rs:246-305; crates/uste-memory/src/state.rs:212-372). */
module MemoryAsOf {
  import opened Base
  import opened Records
  import opened Memory
  import opened MemoryRuns

  // What one accepted commit of the same generation may change

  ghost predicate SourceMoves(before: SourceRecord, after: SourceRecord, revision: nat) {
    && after.input == before.input && after.recorded == before.recorded
    && (after.superseded == before.superseded || (before.superseded.None? && after.superseded == Some(revision)))
    && (after.revoked == before.revoked || (before.revoked.None? && after.revoked == Some(revision)))
  }

  ghost predicate FactMoves(before: FactRecord, after: FactRecord, revision: nat) {
    && ViewOf(after) == ViewOf(before)
    && (after.terminal == before.terminal || (before.terminal.None? && after.terminal.Some?
    && after.terminal.value.revision == revision))
  }

  ghost predicate Moves(s: State, t: State, revision: nat) {
    && (forall id :: id in s.sources ==> id in t.sources && SourceMoves(s.sources[id], t.sources[id], revision))
    && (forall id :: id in t.sources && id !in s.sources ==> t.sources[id].recorded == revision)
    && (forall id :: id in s.facts ==> id in t.facts && FactMoves(s.facts[id], t.facts[id], revision))
    && (forall id :: id in t.facts && id !in s.facts ==> t.facts[id].recorded == revision)
  }

  lemma {:induction false} SourceMove(s: State, source: SourceInput, inventory: Option<seq<StoredBlob>>, revision: nat,
      next: State)
    requires Good(s) && ApplySource(s, source, inventory, revision) == Ok(next)
    ensures Moves(s, next, revision)
  {
    hide SourcesGood, FactsGood, Counted, ApplySource;
    AppliedSource(s, source, inventory, revision, next);
    LatestIsOpen(s.sources, s.current, source.id);
  }

  lemma {:induction false} FactMove(s: State, f: FactInput, corrects: Option<RecordRef>, revision: nat, next: State)
    requires InsertFact(s, f, corrects, revision) == Ok(next)
    requires corrects.Some? ==> corrects.value in s.facts && s.facts[corrects.value].terminal.None?
    ensures Moves(s, next.(facts := WithFact(s.facts, f, corrects, revision)), revision)
  {
    hide ValidateFact;
    InsertedFacts(s, f, corrects, revision, next);
  }

  lemma MovesAlike(s: State, t: State, u: State, revision: nat)
    requires Moves(s, t, revision) && u.sources == t.sources && u.facts == t.facts
    ensures Moves(s, u, revision)
  {
  }

  /** Within a generation a commit only adds records of its own revision and ends, supersedes or revokes open ones. */
  lemma {:induction false} CommitMoves(s: State, c: Commit)
    requires Good(s) && Apply(s, c.tx, c.inventory, c.revision).Ok? && s.generation.Some?
    requires Apply(s, c.tx, c.inventory, c.revision).value.generation == s.generation
    ensures Moves(s, Step(s, c), c.revision)
  {
    hide Good, ApplySource, InsertFact, Moves;
    var t := Step(s, c);
    match c.tx.mutation {
      case BeginRebuild(_) =>
      case PutSource(source) =>
        var next := ApplySource(s, source, c.inventory, c.revision).value;
        SourceMove(s, source, c.inventory, c.revision, next);
        MovesAlike(s, next, t, c.revision);
      case PutFact(f) =>
        var next := InsertFact(s, f, None, c.revision).value;
        FactMove(s, f, None, c.revision, next);
        InsertedFacts(s, f, None, c.revision, next);
        MovesAlike(s, next.(facts := WithFact(s.facts, f, None, c.revision)), t, c.revision);
      case CorrectFact(target, f) =>
        var next := InsertFact(s, f, Some(target), c.revision).value;
        FactMove(s, f, Some(target), c.revision, next);
        InsertedFacts(s, f, Some(target), c.revision, next);
        MovesAlike(s, next.(facts := WithFact(s.facts, f, Some(target), c.revision)), t, c.revision);
      case RetractFact(target) => RetractionMoves(s, target, c.revision, t);
      case RevokeSource(id) => RevocationMoves(s, id, c.revision, t);
      case CompleteRebuild => NothingMoves(s, t, c.revision);
    }
  }

  lemma RetractionMoves(s: State, target: RecordRef, revision: nat, t: State)
    requires target in s.facts && s.facts[target].terminal.None?
    requires t.sources == s.sources && t.facts == End(s.facts, target, RetractedAt(revision))
    ensures Moves(s, t, revision)
  {
  }

  lemma RevocationMoves(s: State, id: SourceId, revision: nat, t: State)
    requires id in s.sources && s.sources[id].revoked.None?
    requires t.facts == s.facts && t.sources == s.sources[id := s.sources[id].(revoked := Some(revision))]
    ensures Moves(s, t, revision)
  {
  }

  lemma NothingMoves(s: State, t: State, revision: nat)
    requires t.facts == s.facts && t.sources == s.sources
    ensures Moves(s, t, revision)
  {
  }

  // The past as later states show it

  predicate Revoked(s: State, id: SourceId) {
    id in s.sources && s.sources[id].revoked.Some?
  }

  /** `late` shows at `revision` what `early` shows there, less the facts whose source has since been revoked. */
  ghost predicate ShowsPast(early: State, late: State, revision: nat, id: RecordRef, may: MayRead) {
    var was := EligibleView(early, id, revision, may);
    EligibleView(late, id, revision, may) == if was.Some? && Revoked(late, was.value.input.source) then None else was
  }

  lemma {:induction false} MoveShowsPast(s: State, t: State, later: nat, revision: nat, id: RecordRef, may: MayRead)
    requires Good(s) && Moves(s, t, later) && revision < later
    ensures ShowsPast(s, t, revision, id, may)
  {
    hide Good, FactsGood, SourcesGood;
    if id in s.facts {
      FactHasSource(s, id);
      var source := s.facts[id].input.source;
      assert FactMoves(s.facts[id], t.facts[id], later);
      assert SourceMoves(s.sources[source], t.sources[source], later);
    }
  }

  lemma FactHasSource(s: State, id: RecordRef)
    requires Good(s) && id in s.facts
    ensures s.facts[id].input.source in s.sources
  {
    assert FactGood(s.facts, s.sources, s.current, id);
  }

  lemma {:induction false} StepShowsPast(s: State, c: Commit, revision: nat, id: RecordRef, may: MayRead)
    requires Good(s) && s.generation.Some? && Step(s, c).generation == s.generation && revision < c.revision
    ensures ShowsPast(s, Step(s, c), revision, id, may)
    ensures forall source :: Revoked(s, source) ==> Revoked(Step(s, c), source)
  {
    hide Good, Apply, Eligible, EligibleView;
    match Apply(s, c.tx, c.inventory, c.revision)
    case Err(_) => SelfShowsPast(s, revision, id, may);
    case Ok(t) =>
      CommitMoves(s, c);
      MoveShowsPast(s, t, c.revision, revision, id, may);
  }

  lemma SelfShowsPast(s: State, revision: nat, id: RecordRef, may: MayRead)
    ensures ShowsPast(s, s, revision, id, may)
  {
  }

  lemma PastComposes(early: State, middle: State, late: State, revision: nat, id: RecordRef, may: MayRead)
    requires ShowsPast(early, middle, revision, id, may) && ShowsPast(middle, late, revision, id, may)
    requires forall source :: Revoked(middle, source) ==> Revoked(late, source)
    ensures ShowsPast(early, late, revision, id, may)
  {
    hide Eligible;
  }

  // Generations

  predicate NotAfter(a: Option<nat>, b: Option<nat>) {
    a.Some? ==> b.Some? && a.value <= b.value
  }

  lemma InGenerationKeeps(s: State, m: Mutation, inventory: Option<seq<StoredBlob>>, revision: nat)
    requires !m.BeginRebuild? && ApplyInGeneration(s, m, inventory, revision).Ok?
    ensures var next := ApplyInGeneration(s, m, inventory, revision).value;
      next.generation == s.generation && next.retainedFrom == s.retainedFrom
  {
    hide ValidateSource, Latest, ValidateFact, End;
  }

  lemma GenerationGrows(s: State, c: Commit)
    ensures NotAfter(s.generation, Step(s, c).generation)
    ensures s.generation.Some? && Step(s, c).generation == s.generation ==> Step(s, c).retainedFrom == s.retainedFrom
  {
    hide ApplyInGeneration;
    if !c.tx.mutation.BeginRebuild? && ApplyInGeneration(s, c.tx.mutation, c.inventory, c.revision).Ok? {
      InGenerationKeeps(s, c.tx.mutation, c.inventory, c.revision);
    }
  }

  lemma {:induction false} RunGenerationGrows(scope: nat, commits: seq<Commit>, n: nat)
    requires n <= |commits|
    ensures NotAfter(Run(scope, commits[..n]).generation, Run(scope, commits).generation)
    decreases |commits|
  {
    hide Step;
    if n == |commits| {
      assert commits[..n] == commits;
    } else {
      var front := commits[..|commits| - 1];
      assert front[..n] == commits[..n];
      RunGenerationGrows(scope, front, n);
      GenerationGrows(Run(scope, front), commits[|commits| - 1]);
    }
  }

  /** Nothing was accepted between the early state and `revision`: every later offer is above it. */
  ghost predicate LaterThan(commits: seq<Commit>, n: nat, revision: nat) {
    forall i :: n <= i < |commits| ==> commits[i].revision > revision
  }

  /** As-of queries: within one generation, the facts eligible at a revision in any later state are exactly those
      eligible when that revision was current, minus facts whose source has since been revoked. */
  lemma {:induction false} AsOfQueriesArePast(scope: nat, commits: seq<Commit>, n: nat, revision: nat, id: RecordRef,
      may: MayRead)
    requires Ordered(scope, commits) && n <= |commits| && LaterThan(commits, n, revision)
    requires Run(scope, commits[..n]).generation.Some?
      && Run(scope, commits).generation == Run(scope, commits[..n]).generation
    ensures ShowsPast(Run(scope, commits[..n]), Run(scope, commits), revision, id, may)
    ensures Run(scope, commits).retainedFrom == Run(scope, commits[..n]).retainedFrom
    decreases |commits|
  {
    hide Step, Run, Ordered, ShowsPast;
    if n == |commits| {
      assert commits[..n] == commits;
      SelfShowsPast(Run(scope, commits), revision, id, may);
    } else {
      var front := commits[..|commits| - 1];
      assert front[..n] == commits[..n];
      PrefixOrdered(scope, commits, |commits| - 1);
      SameGeneration(scope, commits, n);
      AsOfQueriesArePast(scope, front, n, revision, id, may);
      LastStepIsPast(scope, commits, n, revision, id, may);
    }
  }

  /** A generation kept to the end of a run was kept up to its last commit. */
  lemma SameGeneration(scope: nat, commits: seq<Commit>, n: nat)
    requires n < |commits| && Run(scope, commits[..n]).generation.Some?
      && Run(scope, commits).generation == Run(scope, commits[..n]).generation
    ensures var front := commits[..|commits| - 1];
      Run(scope, front).generation == Run(scope, commits).generation
        && Run(scope, front).retainedFrom == Run(scope, commits).retainedFrom
  {
    hide Step;
    var front := commits[..|commits| - 1];
    assert front[..n] == commits[..n];
    RunGenerationGrows(scope, front, n);
    GenerationGrows(Run(scope, front), commits[|commits| - 1]);
  }

  lemma LastStepIsPast(scope: nat, commits: seq<Commit>, n: nat, revision: nat, id: RecordRef, may: MayRead)
    requires Ordered(scope, commits) && n < |commits| && LaterThan(commits, n, revision)
    requires Run(scope, commits).generation.Some?
      && Run(scope, commits[..|commits| - 1]).generation == Run(scope, commits).generation
    requires ShowsPast(Run(scope, commits[..n]), Run(scope, commits[..|commits| - 1]), revision, id, may)
    ensures ShowsPast(Run(scope, commits[..n]), Run(scope, commits), revision, id, may)
  {
    hide Step, Ordered, ShowsPast, Good, Revoked;
    var front, c := commits[..|commits| - 1], commits[|commits| - 1];
    PrefixOrdered(scope, commits, |commits| - 1);
    EveryRunIsGood(scope, front);
    StepShowsPast(Run(scope, front), c, revision, id, may);
    PastComposes(Run(scope, commits[..n]), Run(scope, front), Step(Run(scope, front), c), revision, id, may);
  }

  lemma LastOffer(scope: nat, commits: seq<Commit>)
    requires Ordered(scope, commits) && commits != []
    ensures commits[|commits| - 1].revision > Run(scope, commits[..|commits| - 1]).current
  {
  }

  lemma {:induction false} CurrentGrows(scope: nat, commits: seq<Commit>, n: nat)
    requires Ordered(scope, commits) && n <= |commits|
    ensures Run(scope, commits[..n]).current <= Run(scope, commits).current
    decreases |commits|
  {
    hide Step, Good, Ordered;
    if n == |commits| {
      assert commits[..n] == commits;
    } else {
      var front := commits[..|commits| - 1];
      assert front[..n] == commits[..n];
      LastOffer(scope, commits);
      PrefixOrdered(scope, commits, |commits| - 1);
      CurrentGrows(scope, front, n);
      EveryRunIsGood(scope, front);
      CommitKeepsGood(Run(scope, front), commits[|commits| - 1]);
    }
  }

  lemma {:induction false} OffersStayAbove(scope: nat, commits: seq<Commit>, n: nat, i: nat)
    requires Ordered(scope, commits) && n <= i < |commits|
    ensures commits[i].revision > Run(scope, commits[..n]).current
  {
    hide Run;
    PrefixOrdered(scope, commits, i);
    assert commits[..i][..n] == commits[..n];
    CurrentGrows(scope, commits[..i], n);
  }

  /** A query as of the revision of an earlier state of the same generation is
      answered, and shows that state's own current facts. */
  lemma {:induction false} EarlierStatesAreReadable(scope: nat, commits: seq<Commit>, n: nat, id: RecordRef,
      may: MayRead)
    requires Ordered(scope, commits) && n <= |commits|
    requires Run(scope, commits[..n]).generation.Some?
      && Run(scope, commits).generation == Run(scope, commits[..n]).generation
    ensures var early, late := Run(scope, commits[..n]), Run(scope, commits);
      && ResolveRevision(late, AtRevision(early.current)) == Ok(early.current)
         == ResolveRevision(early, CurrentKnowledge)
      && ShowsPast(early, late, early.current, id, may)
  {
    hide Run, ShowsPast;
    var early, late := Run(scope, commits[..n]), Run(scope, commits);
    forall i | n <= i < |commits| ensures commits[i].revision > early.current { OffersStayAbove(scope, commits, n, i); }
    AsOfQueriesArePast(scope, commits, n, early.current, id, may);
    CurrentGrows(scope, commits, n);
    PrefixOrdered(scope, commits, n);
    EveryRunIsGood(scope, commits[..n]);
    EveryRunIsGood(scope, commits);
  }

  // Correction chains

  /** No two facts correct the same fact. */
  lemma {:induction false} CorrectionsAreLinear(s: State, a: RecordRef, b: RecordRef)
    requires Good(s) && a in s.facts && b in s.facts && s.facts[a].corrects.Some?
      && s.facts[a].corrects == s.facts[b].corrects
    ensures a == b
  {
    assert FactGood(s.facts, s.sources, s.current, a) && FactGood(s.facts, s.sources, s.current, b);
  }

  /** Each fact on the path corrects the one before it. */
  ghost predicate Chain(facts: Facts, path: seq<RecordRef>) {
    && (forall i :: 0 <= i < |path| ==> path[i] in facts)
    && (forall i :: 0 < i < |path| ==> facts[path[i]].corrects == Some(path[i - 1]))
  }

  lemma {:induction false} ChainRises(s: State, path: seq<RecordRef>, i: nat, j: nat)
    requires Good(s) && Chain(s.facts, path) && i < j < |path|
    ensures s.facts[path[i]].recorded < s.facts[path[j]].recorded
    decreases j
  {
    assert FactGood(s.facts, s.sources, s.current, path[j]);
    if i < j - 1 { ChainRises(s, path, i, j - 1); }
  }

  /** Following corrections never returns to a fact already passed. */
  lemma {:induction false} ChainsAreAcyclic(scope: nat, commits: seq<Commit>, path: seq<RecordRef>, i: nat, j: nat)
    requires Ordered(scope, commits) && Chain(Run(scope, commits).facts, path) && i < j < |path|
    ensures path[i] != path[j]
  {
    EveryRunIsGood(scope, commits);
    ChainRises(Run(scope, commits), path, i, j);
  }

  /** Every run stores versions 1 to the latest of each source, and each but the
      latest is superseded at its successor's revision. */
  lemma {:induction false} SourceVersionsAreContiguous(scope: nat, commits: seq<Commit>, source: RecordRef, v: nat)
    requires Ordered(scope, commits)
    ensures var s := Run(scope, commits);
      && (SourceId(source, v) in s.sources <==> 1 <= v <= Latest(s.sources, source))
      && (1 <= v < Latest(s.sources, source) ==>
            && SourceId(source, v + 1) in s.sources
            && s.sources[SourceId(source, v)].superseded == Some(s.sources[SourceId(source, v + 1)].recorded))
      && (1 <= v == Latest(s.sources, source) ==> s.sources[SourceId(source, v)].superseded.None?)
  {
    hide Run, Latest, FactsGood, Counted, SourcesGood, SourceGood;
    EveryRunIsGood(scope, commits);
    var s := Run(scope, commits);
    StoredExactly(s.sources, s.current, source, v);
    if 1 <= v <= Latest(s.sources, source) { SupersededExactly(s.sources, s.current, source, v); }
  }

  lemma GoodSource(sources: Sources, current: nat, id: SourceId)
    requires SourcesGood(sources, current) && id in sources
    ensures SourceGood(sources, current, id)
  {
  }

  lemma {:induction false} StoredExactly(sources: Sources, current: nat, source: RecordRef, v: nat)
    requires SourcesGood(sources, current)
    ensures SourceId(source, v) in sources <==> 1 <= v <= Latest(sources, source)
  {
    hide SourcesGood, Latest;
    var id := SourceId(source, v);
    if id in sources { StoredIsVersion(sources, id); GoodSource(sources, current, id); }
    if 1 <= v <= Latest(sources, source) { VersionsAreContiguous(sources, current, source, v); }
  }

  lemma {:induction false} SupersededExactly(sources: Sources, current: nat, source: RecordRef, v: nat)
    requires SourcesGood(sources, current) && 1 <= v <= Latest(sources, source) && SourceId(source, v) in sources
    ensures v < Latest(sources, source) ==>
      SourceId(source, v + 1) in sources && sources[SourceId(source, v)].superseded
        == Some(sources[SourceId(source, v + 1)].recorded)
    ensures v == Latest(sources, source) ==> sources[SourceId(source, v)].superseded.None?
  {
    hide SourcesGood, Latest;
    var id := SourceId(source, v);
    GoodSource(sources, current, id);
    StoredExactly(sources, current, source, v + 1);
    if v < Latest(sources, source) {
      GoodSource(sources, current, Following(id));
      assert Previous(Following(id)) == id;
    }
  }
}
