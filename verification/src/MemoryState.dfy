/** The memory state object: mutation in place, publication with its shared freshness epoch, and the query loops
    (crates/uste-memory/src/state.rs:130-446, 507-543; crates/uste-memory/src/query.rs:232-435). */
module MemoryObject {
  import opened Base
  import opened Records
  import opened Memory

  // Loops of validation

  /** The highest stored version of a source, by one walk over the keys. */
  method FindLatest(sources: Sources, source: RecordRef) returns (n: nat)
    ensures n == Latest(sources, source)
  {
    n := 0;
    var left := sources.Keys;
    while left != {}
      invariant left <= sources.Keys
      invariant forall id :: id in sources && id !in left && id.source == source ==> id.version <= n
      invariant n == 0 || SourceId(source, n) in sources
      decreases left
    {
      var id :| id in left;
      left := left - {id};
      if id.source == source && id.version > n { n := id.version; }
    }
    LatestUnique(sources, source, n);
  }

  lemma LatestUnique(sources: Sources, source: RecordRef, n: nat)
    requires forall id :: id in sources && id.source == source ==> id.version <= n
    requires n == 0 || SourceId(source, n) in sources
    ensures n == Latest(sources, source)
  {
    var m := Latest(sources, source);
    if n > 0 { assert n in Versions(sources, source); }
    assert m > 0 ==> exists id :: id in sources && id.source == source && id.version == m;
  }

  method ValidateLinks(scope: nat, facts: Facts, links: seq<RecordRef>) returns (r: Verdict)
    ensures r == CheckLinks(scope, facts, links)
  {
    for k := 0 to |links|
      invariant CheckLinks(scope, facts, links[..k]).Ok?
    {
      LinksStep(scope, facts, links, k);
      if links[k].scope != scope { return Err(InvalidRequest); }
      if (k > 0 && !Less(links[k - 1], links[k])) || links[k] !in facts { return Err(Conflicting); }
    }
    assert links[..|links|] == links;
    r := Ok(());
  }

  /** The first link that fails decides the whole list. */
  lemma {:induction false} LinksFailEarly(scope: nat, facts: Facts, links: seq<RecordRef>, k: nat)
    requires k <= |links| && CheckLinks(scope, facts, links[..k]).Err?
    ensures CheckLinks(scope, facts, links) == CheckLinks(scope, facts, links[..k])
    decreases |links|
  {
    if k == |links| {
      assert links[..k] == links;
    } else {
      assert links[..|links| - 1][..k] == links[..k];
      LinksFailEarly(scope, facts, links[..|links| - 1], k);
    }
  }

  lemma {:induction false} LinksStep(scope: nat, facts: Facts, links: seq<RecordRef>, k: nat)
    requires k < |links| && CheckLinks(scope, facts, links[..k]).Ok?
    ensures CheckLinks(scope, facts, links[..k + 1])
         == if links[k].scope != scope then Err(InvalidRequest)
            else if (k > 0 && !Less(links[k - 1], links[k])) || links[k] !in facts then Err(Conflicting) else Ok(())
    ensures CheckLinks(scope, facts, links[..k + 1]).Err? ==>
      CheckLinks(scope, facts, links) == CheckLinks(scope, facts, links[..k + 1])
  {
    assert links[..k + 1][..k] == links[..k];
    if CheckLinks(scope, facts, links[..k + 1]).Err? { LinksFailEarly(scope, facts, links, k + 1); }
  }

  // The state

  /** The process-local revision every clone of a state shares. */
  class Epoch {
    var revision: nat
    constructor ()
      ensures revision == 0
    {
      revision := 0;
    }
  }

  class MemoryState {
    const scope: nat
    const epoch: Epoch
    var generation: Option<nat>
    var ready: bool
    var retainedFrom: nat
    var current: nat
    var sources: Sources
    var facts: Facts
    var sourceBytes: nat
    var logicalBytes: nat

    constructor (scope_: nat)
      ensures View() == NewState(scope_) && fresh(epoch) && epoch.revision == 0
    {
      scope := scope_;
      epoch := new Epoch();
      generation, ready, retainedFrom, current, sources, facts, sourceBytes, logicalBytes := None, false, 0, 0, map[],
        map[], 0, 0;
    }

    /** A copy that shares the freshness epoch. */
    constructor Clone(of: MemoryState)
      ensures View() == of.View() && epoch == of.epoch
    {
      scope, epoch := of.scope, of.epoch;
      generation, ready, retainedFrom, current := of.generation, of.ready, of.retainedFrom, of.current;
      sources, facts, sourceBytes, logicalBytes := of.sources, of.facts, of.sourceBytes, of.logicalBytes;
    }

    function View(): State
      reads this
    {
      State(scope, generation, ready, retainedFrom, current, sources, facts, sourceBytes, logicalBytes)
    }

    method ValidateFact(f: FactInput) returns (r: Verdict)
      ensures r == Memory.ValidateFact(View(), f)
    {
      hide CheckLinks, ValidateLocator;
      if f.id.scope != scope || f.source.source.scope != scope { return Err(InvalidRequest); }
      var fields := [f.subject, f.predicateName, f.value];
      if CheckFields(fields).Err? { return Err(OverLimit); }
      if |f.links| > MAXIMUM_FACT_LINKS { return Err(OverLimit); }
      var links := ValidateLinks(scope, facts, f.links);
      if links.Err? { return links; }
      if f.source !in sources || sources[f.source].revoked.Some? { return Err(Conflicting); }
      r := ValidateLocator(f.locator, sources[f.source].input);
    }

    method ChargeLogical(added: nat) returns (r: Verdict)
      modifies `logicalBytes
      ensures Charge(old(View()), added) == if r.Ok? then Ok(View()) else Err(r.error)
      ensures r.Err? ==> unchanged(this)
    {
      if logicalBytes + added > MAXIMUM_LOGICAL_STATE_BYTES { return Err(OverLimit); }
      logicalBytes := logicalBytes + added;
      r := Ok(());
    }

    method PutSource(source: SourceInput, inventory: Option<seq<StoredBlob>>, revision: nat) returns (r: Verdict)
      modifies this
      ensures ApplySource(old(View()), source, inventory, revision) == if r.Ok? then Ok(View()) else Err(r.error)
    {
      hide ValidateSource, SourceWeight;
      var valid := ValidateSource(source, scope, inventory);
      if valid.Err? { return valid; }
      if source.id in sources { return Err(Conflicting); }
      if |sources| >= MAXIMUM_SOURCE_VERSIONS { return Err(OverLimit); }
      var latest := FindLatest(sources, source.id.source);
      if latest >= MAX_U32 { return Err(OverLimit); }
      if source.id.version != latest + 1 { return Err(Conflicting); }
      if sourceBytes + source.blob.byteLen > MAXIMUM_SOURCE_BYTES { return Err(OverLimit); }
      var charged := ChargeLogical(SourceWeight(source));
      if charged.Err? { return charged; }
      sourceBytes := sourceBytes + source.blob.byteLen;
      if source.id.version > 1 {
        var previous := SourceId(source.id.source, source.id.version - 1);
        if previous !in sources { return Err(Conflicting); }
        sources := sources[previous := sources[previous].(superseded := Some(revision))];
      }
      sources := sources[source.id := SourceRecord(source, revision, None, None)];
      r := Ok(());
    }

    method InsertFact(f: FactInput, corrects: Option<RecordRef>, revision: nat) returns (r: Verdict)
      modifies this
      ensures Memory.InsertFact(old(View()), f, corrects, revision) == if r.Ok? then Ok(View()) else Err(r.error)
    {
      hide Memory.ValidateFact, FactWeight;
      var valid := ValidateFact(f);
      if valid.Err? { return valid; }
      if f.id in facts { return Err(Conflicting); }
      if |facts| >= MAXIMUM_FACTS { return Err(OverLimit); }
      var charged := ChargeLogical(FactWeight(f));
      if charged.Err? { return charged; }
      facts := facts[f.id := FactRecord(f, revision, corrects, None)];
      r := Ok(());
    }

    method CorrectFact(target: RecordRef, replacement: FactInput, revision: nat) returns (r: Verdict)
      modifies this
      ensures ApplyCorrection(old(View()), target, replacement, revision) == if r.Ok? then Ok(View()) else Err(r.error)
    {
      hide Memory.ValidateFact, FactWeight;
      if target.scope != scope { return Err(InvalidRequest); }
      if target !in facts || facts[target].terminal.Some? { return Err(Conflicting); }
      r := InsertFact(replacement, Some(target), revision);
      if r.Err? { return; }
      facts := facts[target := facts[target].(terminal := Some(SupersededAt(revision)))];
    }

    /** `apply`: a refusal may leave the candidate half changed, and the caller drops it. */
    method Apply(tx: MemoryTransaction, inventory: Option<seq<StoredBlob>>, revision: nat) returns (r: Verdict)
      modifies this
      ensures Memory.Apply(old(View()), tx, inventory, revision) == if r.Ok? then Ok(View()) else Err(r.error)
    {
      hide ApplySource, Memory.InsertFact, ApplyCorrection;
      if tx.scope != scope || revision > MAXIMUM_COMMITS || tx.generation == 0 { return Err(InvalidRequest); }
      match tx.mutation {
        case BeginRebuild(next) =>
          if inventory.Some? || tx.generation != next || next == 0 || next > MAX_U64
            || (generation.Some? && generation.value + 1 != next) {
            return Err(Conflicting);
          }
          generation, ready, retainedFrom := Some(next), false, revision;
          sources, facts, sourceBytes, logicalBytes := map[], map[], 0, 0;
        case _ =>
          if generation != Some(tx.generation) { return Err(SourceMoved); }
          r := ApplyInGeneration(tx.mutation, inventory, revision);
          if r.Err? { return; }
      }
      current := revision;
      r := Ok(());
    }

    method ApplyInGeneration(m: Mutation, inventory: Option<seq<StoredBlob>>, revision: nat) returns (r: Verdict)
      requires !m.BeginRebuild?
      modifies this
      ensures Memory.ApplyInGeneration(old(View()), m, inventory, revision) == if r.Ok? then Ok(View())
        else Err(r.error)
    {
      hide ApplySource, Memory.InsertFact, ApplyCorrection;
      if !m.PutSource? && inventory.Some? { return Err(InvalidRequest); }
      match m {
        case PutSource(source) => r := PutSource(source, inventory, revision);
        case PutFact(f) => r := InsertFact(f, None, revision);
        case CorrectFact(target, f) => r := CorrectFact(target, f, revision);
        case RetractFact(target) =>
          if target.scope != scope { return Err(InvalidRequest); }
          if target !in facts || facts[target].terminal.Some? { return Err(Conflicting); }
          facts := facts[target := facts[target].(terminal := Some(RetractedAt(revision)))];
          r := Ok(());
        case RevokeSource(id) =>
          if id.source.scope != scope { return Err(InvalidRequest); }
          if id !in sources || sources[id].revoked.Some? { return Err(Conflicting); }
          sources := sources[id := sources[id].(revoked := Some(revision))];
          r := Ok(());
        case CompleteRebuild =>
          if ready { return Err(Conflicting); }
          ready := true;
          r := Ok(());
      }
    }

    /** `prepare`: apply to a copy, leaving this state and the shared epoch as they were. */
    method Prepare(c: Commit) returns (r: Result<MemoryState, ApplyError>)
      ensures r.Ok? ==>
        Memory.Apply(View(), c.tx, c.inventory, c.revision) == Ok(r.value.View()) && r.value.epoch == epoch
        && fresh(r.value)
      ensures r.Err? ==> Memory.Apply(View(), c.tx, c.inventory, c.revision) == Err(r.error)
    {
      hide Memory.Apply;
      var candidate := new MemoryState.Clone(this);
      var applied := candidate.Apply(c.tx, c.inventory, c.revision);
      if applied.Err? { return Err(applied.error); }
      r := Ok(candidate);
    }

    /** `publish`: every state sharing the epoch is current afterwards exactly when it holds the published revision. */
    method Publish(prepared: MemoryState)
      requires prepared.scope == scope && prepared.epoch == epoch
      modifies this, epoch
      ensures View() == old(prepared.View()) && epoch.revision == current
      ensures forall other: MemoryState :: other != this && old(allocated(other)) && other.epoch == epoch ==>
        (other.IsRuntimeCurrent() <==> old(other.current) == current)
    {
      generation, ready, retainedFrom, current := prepared.generation, prepared.ready, prepared.retainedFrom,
        prepared.current;
      sources, facts, sourceBytes, logicalBytes := prepared.sources, prepared.facts, prepared.sourceBytes,
        prepared.logicalBytes;
      epoch.revision := current;
    }

    predicate IsRuntimeCurrent()
      reads this, epoch
    {
      epoch.revision == current
    }
  }
}
