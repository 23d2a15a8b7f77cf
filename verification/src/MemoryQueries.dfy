/** Bounded search and one-hop retrieval over the eligible facts (crates/uste-memory/src/query.rs:151-260, 307-435,
    484-560). */
module MemoryQueries {
  import opened Base
  import opened Records
  import opened OverlayObject
  import opened Memory
  import opened MemoryObject

  const MAXIMUM_QUERY_TERMS := 8
  const MAXIMUM_QUERY_CANDIDATES := 2_048
  const MAXIMUM_QUERY_RESULTS := 32
  const MAXIMUM_QUERY_OUTPUT_BYTES := 64 * 1024
  const MAXIMUM_TERM_BYTES := 256

  datatype EventTimeFilter = AnyTime | ExactTime(instant: int) | MissingTime

  datatype SearchResults = SearchResults(knowledge: nat, facts: seq<FactView>, visited: nat, outputBytes: nat,
      truncated: bool)

  datatype Limits = Limits(candidates: nat, results: nat, outputBytes: nat)

  // Matching

  function Lower(b: nat): nat {
    if 65 <= b <= 90 then b + 32 else b
  }

  function LowerAll(bytes: Bytes): Bytes {
    seq(|bytes|, i requires 0 <= i < |bytes| => Lower(bytes[i]))
  }

  predicate Contains(text: Bytes, term: Bytes) {
    exists i :: 0 <= i <= |text| && term <= text[i..]
  }

  function Haystack(s: State, f: FactRecord): Bytes {
    var text := if f.input.source in s.sources && s.sources[f.input.source].input.text.Some?
      then s.sources[f.input.source].input.text.value else [];
    LowerAll(f.input.subject + [10] + f.input.predicateName + [10] + f.input.value + [10] + text)
  }

  predicate EventMatches(value: Option<int>, filter: EventTimeFilter) {
    match filter
    case AnyTime => true
    case ExactTime(instant) => value == Some(instant)
    case MissingTime => value.None?
  }

  /** Every term, in lower case, occurs in the fact's fields or its source text. */
  predicate FactMatches(s: State, f: FactRecord, terms: seq<Bytes>, filter: EventTimeFilter) {
    EventMatches(f.input.eventTime, filter) && forall i :: 0 <= i < |terms| ==>
      Contains(Haystack(s, f), LowerAll(terms[i]))
  }

  // What a bounded walk over identifiers returns

  function ViewBytes(v: FactView): nat {
    FactWeight(v.input)
  }

  function TotalBytes(views: seq<FactView>): nat {
    if views == [] then 0 else TotalBytes(views[..|views| - 1]) + ViewBytes(views[|views| - 1])
  }

  function EligibleAmong(s: State, ids: seq<RecordRef>, revision: nat, may: MayRead): nat {
    if ids == [] then 0
    else
      var one := if Eligible(s, ids[|ids| - 1], revision, may).Some? then 1 else 0;
      EligibleAmong(s, ids[..|ids| - 1], revision, may) + one
  }

  /** The views of the eligible facts that match, in the order of their identifiers. */
  function Matching(s: State, ids: seq<RecordRef>, revision: nat, may: MayRead,
      matches: FactRecord -> bool): seq<FactView> {
    if ids == [] then []
    else
      var f := Eligible(s, ids[|ids| - 1], revision, may);
      Matching(s, ids[..|ids| - 1], revision, may, matches)
        + (if f.Some? && matches(f.value) then [ViewOf(f.value)] else [])
  }

  /** A correct bounded answer: an initial part of all matches, whole unless the next match would break a limit. */
  ghost predicate Answers(s: State, ids: seq<RecordRef>, revision: nat, may: MayRead, matches: FactRecord -> bool,
      limits: Limits, r: Result<SearchResults, ReadError>) {
    var all := Matching(s, ids, revision, may, matches);
    match r
    case Err(e) => e == ReadLimit && EligibleAmong(s, ids, revision, may) > limits.candidates
    case Ok(a) =>
      && a.facts <= all && a.knowledge == revision
      && |a.facts| <= limits.results && a.outputBytes == TotalBytes(a.facts) <= limits.outputBytes
      && a.visited <= limits.candidates
      && (if a.truncated
          then |a.facts| < |all| && (|a.facts| == limits.results
            || a.outputBytes + ViewBytes(all[|a.facts|]) > limits.outputBytes)
          else a.facts == all && a.visited == EligibleAmong(s, ids, revision, may))
  }

  lemma {:induction false} MatchingStep(s: State, ids: seq<RecordRef>, revision: nat, may: MayRead,
      matches: FactRecord -> bool, k: nat)
    requires k < |ids|
    ensures var f := Eligible(s, ids[k], revision, may);
      && Matching(s, ids[..k + 1], revision, may, matches)
         == Matching(s, ids[..k], revision, may, matches)
         + (if f.Some? && matches(f.value) then [ViewOf(f.value)] else [])
      && EligibleAmong(s, ids[..k + 1], revision, may)
         == EligibleAmong(s, ids[..k], revision, may) + (if f.Some? then 1 else 0)
  {
    assert ids[..k + 1][..k] == ids[..k];
  }

  lemma {:induction false} MatchingPrefix(s: State, ids: seq<RecordRef>, revision: nat, may: MayRead,
      matches: FactRecord -> bool, k: nat)
    requires k <= |ids|
    ensures Matching(s, ids[..k], revision, may, matches) <= Matching(s, ids, revision, may, matches)
    ensures EligibleAmong(s, ids[..k], revision, may) <= EligibleAmong(s, ids, revision, may)
    decreases |ids| - k
  {
    if k == |ids| {
      assert ids[..k] == ids;
    } else {
      MatchingStep(s, ids, revision, may, matches, k);
      MatchingPrefix(s, ids, revision, may, matches, k + 1);
    }
  }

  /** The loop `search` and `one_hop` share. */
  method Collect(s: State, ids: seq<RecordRef>, revision: nat, may: MayRead, matches: FactRecord -> bool,
      limits: Limits) returns (r: Result<SearchResults, ReadError>)
    ensures Answers(s, ids, revision, may, matches, limits, r)
  {
    hide Eligible, Matching, EligibleAmong, ViewBytes;
    var facts: seq<FactView>, visited: nat, outputBytes: nat := [], 0, 0;
    assert Matching(s, ids[..0], revision, may, matches) == [] && EligibleAmong(s, ids[..0], revision, may) == 0 by {
      NothingMatched(s, ids, revision, may, matches);
    }
    for k := 0 to |ids|
      invariant facts == Matching(s, ids[..k], revision, may, matches)
        && visited == EligibleAmong(s, ids[..k], revision, may) <= limits.candidates
      invariant |facts| <= limits.results && outputBytes == TotalBytes(facts) <= limits.outputBytes
    {
      MatchingStep(s, ids, revision, may, matches, k);
      MatchingPrefix(s, ids, revision, may, matches, k + 1);
      var fact := Eligible(s, ids[k], revision, may);
      if fact.None? { continue; }
      visited := visited + 1;
      if visited > limits.candidates { return Err(ReadLimit); }
      if !matches(fact.value) { continue; }
      var view := ViewOf(fact.value);
      ghost var longer := facts + [view];
      assert longer[..|longer| - 1] == facts;
      if |facts| == limits.results || outputBytes + ViewBytes(view) > limits.outputBytes {
        assert longer <= Matching(s, ids, revision, may, matches);
        return Ok(SearchResults(revision, facts, visited, outputBytes, true));
      }
      outputBytes := outputBytes + ViewBytes(view);
      facts := facts + [view];
    }
    assert ids[..|ids|] == ids;
    r := Ok(SearchResults(revision, facts, visited, outputBytes, false));
  }

  lemma NothingMatched(s: State, ids: seq<RecordRef>, revision: nat, may: MayRead, matches: FactRecord -> bool)
    ensures Matching(s, ids[..0], revision, may, matches) == [] && EligibleAmong(s, ids[..0], revision, may) == 0
  {
  }

  predicate LimitsPass(terms: seq<Bytes>, limits: Limits) {
    && |terms| <= MAXIMUM_QUERY_TERMS && (forall i :: 0 <= i < |terms| ==> 0 < |terms[i]| <= MAXIMUM_TERM_BYTES)
    && 0 < limits.candidates <= MAXIMUM_QUERY_CANDIDATES && 0 < limits.results <= MAXIMUM_QUERY_RESULTS
    && 0 < limits.outputBytes <= MAXIMUM_QUERY_OUTPUT_BYTES
  }

  ghost predicate AnswersSearch(s: State, terms: seq<Bytes>, knowledge: KnowledgeAt, filter: EventTimeFilter,
      limits: Limits, may: MayRead,
                                r: Result<SearchResults, ReadError>) {
    if terms == [] then r == Err(UnsupportedQuery)
    else if !LimitsPass(terms, limits) then r == Err(ReadLimit)
    else if ResolveRevision(s, knowledge).Err? then r == Err(HistoryUnavailable)
    else Answers(s, Sorted(s.facts.Keys), ResolveRevision(s, knowledge).value, may, f =>
      FactMatches(s, f, terms, filter), limits, r)
  }

  ghost predicate AnswersHop(s: State, from: RecordRef, knowledge: KnowledgeAt, limits: Limits, may: MayRead,
      r: Result<SearchResults, ReadError>) {
    if !LimitsPass([], limits) then r == Err(ReadLimit)
    else if ResolveRevision(s, knowledge).Err? then r == Err(HistoryUnavailable)
    else
      var root := Eligible(s, from, ResolveRevision(s, knowledge).value, may);
      if root.None? then r == Err(FactNotFound)
      else Answers(s, root.value.input.links, ResolveRevision(s, knowledge).value, may, f => true, limits, r)
  }

  /** `search`: all facts in identifier order, filtered by event time and terms. */
  method Search(s: State, terms: seq<Bytes>, knowledge: KnowledgeAt, filter: EventTimeFilter, limits: Limits,
      may: MayRead) returns (r: Result<SearchResults, ReadError>)
    ensures AnswersSearch(s, terms, knowledge, filter, limits, may, r)
  {
    hide Answers, FactMatches;
    if terms == [] { return Err(UnsupportedQuery); }
    if !LimitsPass(terms, limits) { return Err(ReadLimit); }
    var revision := ResolveRevision(s, knowledge);
    if revision.Err? { return Err(revision.error); }
    var ids := Ascending(s.facts.Keys);
    r := Collect(s, ids, revision.value, may, f => FactMatches(s, f, terms, filter), limits);
  }

  /** `one_hop`: the eligible facts an eligible fact links to. */
  method OneHop(s: State, from: RecordRef, knowledge: KnowledgeAt, limits: Limits, may: MayRead)
      returns (r: Result<SearchResults, ReadError>)
    ensures AnswersHop(s, from, knowledge, limits, may, r)
  {
    hide Answers, Eligible;
    if !LimitsPass([], limits) { return Err(ReadLimit); }
    var revision := ResolveRevision(s, knowledge);
    if revision.Err? { return Err(revision.error); }
    var root := Eligible(s, from, revision.value, may);
    if root.None? { return Err(FactNotFound); }
    r := Collect(s, root.value.input.links, revision.value, may, f => true, limits);
  }

  datatype Query = SearchFor(terms: seq<Bytes>, filter: EventTimeFilter) | HopFrom(from: RecordRef)

  /** `read_authorized`: only a state at the published revision, of the
      requested generation and not being rebuilt, answers. */
  method ReadAuthorized(snapshot: MemoryState, generation: nat, query: Query, knowledge: KnowledgeAt, limits: Limits,
      may: MayRead)
    returns (r: Result<SearchResults, ReadError>)
    ensures r == Err(StaleView) <==> !snapshot.IsRuntimeCurrent()
    ensures snapshot.IsRuntimeCurrent() ==>
      (r == Err(StaleGeneration) <==> snapshot.View().generation != Some(generation))
    ensures snapshot.IsRuntimeCurrent() && snapshot.View().generation == Some(generation) ==>
      (r == Err(Rebuilding) <==> !snapshot.View().ready)
    ensures snapshot.IsRuntimeCurrent() && snapshot.View().generation == Some(generation) && snapshot.View().ready ==>
      match query
      case SearchFor(terms, filter) => AnswersSearch(snapshot.View(), terms, knowledge, filter, limits, may, r)
      case HopFrom(from) => AnswersHop(snapshot.View(), from, knowledge, limits, may, r)
  {
    hide Matching, EligibleAmong, Eligible, FactMatches, LimitsPass;
    if !snapshot.IsRuntimeCurrent() { return Err(StaleView); }
    if snapshot.generation != Some(generation) { return Err(StaleGeneration); }
    if !snapshot.ready { return Err(Rebuilding); }
    match query
    case SearchFor(terms, filter) => r := Search(snapshot.View(), terms, knowledge, filter, limits, may);
    case HopFrom(from) => r := OneHop(snapshot.View(), from, knowledge, limits, may);
  }

  /** A match names an eligible fact of the walked identifiers, and every such fact that matches is there. */
  lemma {:induction false} MatchingMeaning(s: State, ids: seq<RecordRef>, revision: nat, may: MayRead,
      matches: FactRecord -> bool, v: FactView)
    ensures v in Matching(s, ids, revision, may, matches)
       <==> exists k ::
         0 <= k < |ids| && Eligible(s, ids[k], revision, may).Some? && matches(Eligible(s, ids[k], revision, may).value)
         && ViewOf(Eligible(s, ids[k], revision, may).value) == v
    decreases |ids|
  {
    hide Eligible;
    if ids != [] {
      var n := |ids| - 1;
      var front := ids[..n];
      MatchingMeaning(s, front, revision, may, matches, v);
      if k :|
        0 <= k < n && Eligible(s, front[k], revision, may).Some? && matches(Eligible(s, front[k], revision, may).value)
        && ViewOf(Eligible(s, front[k], revision, may).value) == v {
        assert ids[k] == front[k];
      }
      if k :|
        0 <= k < n && Eligible(s, ids[k], revision, may).Some? && matches(Eligible(s, ids[k], revision, may).value)
        && ViewOf(Eligible(s, ids[k], revision, may).value) == v {
        assert ids[k] == front[k];
      }
    }
  }
}
