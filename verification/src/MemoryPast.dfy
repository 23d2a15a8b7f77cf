/** What whole answers of the memory pilot say about the past (crates/uste-memory/src/query.rs:246-435). */
module MemoryPast {
  import opened Base
  import opened Records
  import opened Memory
  import opened MemoryRuns
  import opened MemoryAsOf
  import opened MemoryQueries

  // Within a generation nothing is forgotten

  /** Every fact of `s` is still there in `t`, and every source with the same contents. */
  ghost predicate Keeps(s: State, t: State) {
    && s.facts.Keys <= t.facts.Keys
    && (forall id :: id in s.sources ==> id in t.sources && t.sources[id].input == s.sources[id].input)
  }

  lemma {:induction false} StepKeeps(s: State, c: Commit)
    requires Good(s) && s.generation.Some? && Step(s, c).generation == s.generation
    ensures Keeps(s, Step(s, c))
  {
    hide Good, Apply;
    if Apply(s, c.tx, c.inventory, c.revision).Ok? { CommitMoves(s, c); }
  }

  lemma {:induction false} GenerationKeeps(scope: nat, commits: seq<Commit>, n: nat)
    requires Ordered(scope, commits) && n <= |commits|
    requires Run(scope, commits[..n]).generation.Some?
      && Run(scope, commits).generation == Run(scope, commits[..n]).generation
    ensures Keeps(Run(scope, commits[..n]), Run(scope, commits))
    decreases |commits|
  {
    hide Step, Ordered, Good;
    if n == |commits| {
      assert commits[..n] == commits;
    } else {
      var front := commits[..|commits| - 1];
      assert front[..n] == commits[..n];
      PrefixOrdered(scope, commits, |commits| - 1);
      SameGeneration(scope, commits, n);
      GenerationKeeps(scope, front, n);
      EveryRunIsGood(scope, front);
      StepKeeps(Run(scope, front), commits[|commits| - 1]);
    }
  }

  // Answers

  /** The views whose source has not been revoked. */
  function Unrevoked(s: State, views: seq<FactView>): seq<FactView> {
    if views == [] then []
    else
      var n := |views| - 1;
      Unrevoked(s, views[..n]) + (if Revoked(s, views[n].input.source) then [] else [views[n]])
  }

  lemma UnrevokedSnoc(s: State, views: seq<FactView>, v: FactView)
    ensures Unrevoked(s, views + [v]) == Unrevoked(s, views) + (if Revoked(s, v.input.source) then [] else [v])
  {
    assert (views + [v])[..|views|] == views;
  }

  /** Both states judge the fact alike wherever both show it. */
  ghost predicate SameJudgement(early: State, late: State, id: RecordRef, revision: nat, may: MayRead,
                                was: FactRecord -> bool, now: FactRecord -> bool) {
    var f, g := Eligible(early, id, revision, may), Eligible(late, id, revision, may);
    f.Some? && g.Some? ==> was(f.value) == now(g.value)
  }

  lemma {:induction false} MatchingShowsPast(early: State, late: State, ids: seq<RecordRef>, revision: nat,
      may: MayRead,
                                             was: FactRecord -> bool, now: FactRecord -> bool)
    requires forall id :: id in ids ==> ShowsPast(early, late, revision, id, may)
    requires forall id :: id in ids ==> SameJudgement(early, late, id, revision, may, was, now)
    ensures Matching(late, ids, revision, may, now) == Unrevoked(late, Matching(early, ids, revision, may, was))
    decreases |ids|
  {
    hide Eligible, Revoked;
    if ids != [] {
      var n := |ids| - 1;
      MatchingShowsPast(early, late, ids[..n], revision, may, was, now);
      assert ShowsPast(early, late, revision, ids[n], may)
        && SameJudgement(early, late, ids[n], revision, may, was, now);
      var f, front := Eligible(early, ids[n], revision, may), Matching(early, ids[..n], revision, may, was);
      if f.Some? && was(f.value) {
        assert Matching(early, ids, revision, may, was) == front + [ViewOf(f.value)];
        UnrevokedSnoc(late, front, ViewOf(f.value));
      } else {
        assert Matching(early, ids, revision, may, was) == front;
        assert Matching(late, ids, revision, may, now) == Matching(late, ids[..n], revision, may, now);
      }
    }
  }

  /** The identifiers that are facts of the state, in their order. */
  function Present(s: State, ids: seq<RecordRef>): seq<RecordRef> {
    if ids == [] then []
    else
      var n := |ids| - 1;
      Present(s, ids[..n]) + (if ids[n] in s.facts then [ids[n]] else [])
  }

  lemma {:induction false} PresentMember(s: State, ids: seq<RecordRef>, id: RecordRef)
    ensures id in Present(s, ids) <==> id in ids && id in s.facts
    decreases |ids|
  {
    if ids != [] {
      var n := |ids| - 1;
      PresentMember(s, ids[..n], id);
      assert ids == ids[..n] + [ids[n]];
    }
  }

  lemma {:induction false} PresentInOrder(s: State, ids: seq<RecordRef>)
    requires Increasing(ids, Less)
    ensures Increasing(Present(s, ids), Less)
    decreases |ids|
  {
    hide Less;
    if ids != [] {
      var n := |ids| - 1;
      var front := Present(s, ids[..n]);
      PresentInOrder(s, ids[..n]);
      forall i | 0 <= i < |front| ensures Less(front[i], ids[n]) {
        PresentMember(s, ids[..n], front[i]);
        var k :| 0 <= k < n && ids[k] == front[i];
      }
    }
  }

  lemma PresentIsSorted(s: State, all: set<RecordRef>)
    requires s.facts.Keys <= all
    ensures Present(s, Sorted(all)) == Sorted(s.facts.Keys)
  {
    hide Less, Increasing;
    PresentInOrder(s, Sorted(all));
    forall id ensures id in Present(s, Sorted(all)) <==> id in s.facts.Keys { PresentMember(s, Sorted(all), id); }
    assert StrictOrder(Less) by { LessIsStrictOrder(); }
    EnumerationUnique(Present(s, Sorted(all)), Sorted(s.facts.Keys), s.facts.Keys, Less);
  }

  lemma {:induction false} AbsentDoNotMatch(s: State, ids: seq<RecordRef>, revision: nat, may: MayRead,
      matches: FactRecord -> bool)
    ensures Matching(s, ids, revision, may, matches) == Matching(s, Present(s, ids), revision, may, matches)
    decreases |ids|
  {
    if ids != [] {
      var n := |ids| - 1;
      AbsentDoNotMatch(s, ids[..n], revision, may, matches);
      var front := Present(s, ids[..n]);
      if ids[n] in s.facts {
        assert Present(s, ids) == front + [ids[n]] && (front + [ids[n]])[..|front|] == front;
      } else {
        assert Present(s, ids) == front;
        assert Matching(s, ids, revision, may, matches) == Matching(s, ids[..n], revision, may, matches);
      }
    }
  }

  lemma SameText(early: State, late: State, id: RecordRef, revision: nat, may: MayRead, terms: seq<Bytes>,
      filter: EventTimeFilter)
    requires Keeps(early, late) && ShowsPast(early, late, revision, id, may)
    ensures SameJudgement(early, late, id, revision, may, f => FactMatches(early, f, terms, filter), f =>
      FactMatches(late, f, terms, filter))
  {
    hide Contains, LowerAll, EventMatches;
    var f, g := Eligible(early, id, revision, may), Eligible(late, id, revision, may);
    if f.Some? && g.Some? { assert Haystack(early, f.value) == Haystack(late, g.value); }
  }

  /** Over every run: within one generation, all that a search at an earlier revision finds in a later state is what
      it found when that revision was current, in the same order, less the facts whose source has since been
      revoked. */
  lemma {:induction false} SearchesArePast(scope: nat, commits: seq<Commit>, n: nat, revision: nat, may: MayRead,
      terms: seq<Bytes>, filter: EventTimeFilter)
    requires Ordered(scope, commits) && n <= |commits| && LaterThan(commits, n, revision)
    requires Run(scope, commits[..n]).generation.Some?
      && Run(scope, commits).generation == Run(scope, commits[..n]).generation
    ensures var early, late := Run(scope, commits[..n]), Run(scope, commits);
      Matching(late, Sorted(late.facts.Keys), revision, may, f => FactMatches(late, f, terms, filter))
      == Unrevoked(late, Matching(early, Sorted(early.facts.Keys), revision, may, f =>
        FactMatches(early, f, terms, filter)))
  {
    hide Run, Ordered, LaterThan, Matching, Unrevoked, FactMatches, SameJudgement, ShowsPast, Present, Increasing, Less;
    var early, late := Run(scope, commits[..n]), Run(scope, commits);
    var ids, was, now := Sorted(late.facts.Keys), f => FactMatches(early, f, terms, filter), f =>
      FactMatches(late, f, terms, filter);
    GenerationKeeps(scope, commits, n);
    forall id | id in ids
      ensures ShowsPast(early, late, revision, id, may) && SameJudgement(early, late, id, revision, may, was, now)
    {
      AsOfQueriesArePast(scope, commits, n, revision, id, may);
      SameText(early, late, id, revision, may, terms, filter);
    }
    MatchingShowsPast(early, late, ids, revision, may, was, now);
    AbsentDoNotMatch(early, ids, revision, may, was);
    PresentIsSorted(early, late.facts.Keys);
  }

  /** The same for the facts reached in one hop from a fact both states show. */
  lemma {:induction false} HopsArePast(scope: nat, commits: seq<Commit>, n: nat, revision: nat, may: MayRead,
      from: RecordRef)
    requires Ordered(scope, commits) && n <= |commits| && LaterThan(commits, n, revision)
    requires Run(scope, commits[..n]).generation.Some?
      && Run(scope, commits).generation == Run(scope, commits[..n]).generation
    requires EligibleView(Run(scope, commits), from, revision, may).Some?
    ensures var early, late := Run(scope, commits[..n]), Run(scope, commits);
      var was, now := EligibleView(early, from, revision, may), EligibleView(late, from, revision, may);
      && was == now
      && Matching(late, now.value.input.links, revision, may, f => true)
         == Unrevoked(late, Matching(early, now.value.input.links, revision, may, f => true))
  {
    hide Run, Ordered, LaterThan, Matching, Unrevoked, Eligible, EligibleView;
    var early, late := Run(scope, commits[..n]), Run(scope, commits);
    AsOfQueriesArePast(scope, commits, n, revision, from, may);
    var ids := EligibleView(late, from, revision, may).value.input.links;
    forall id | id in ids
      ensures ShowsPast(early, late, revision, id, may)
    {
      AsOfQueriesArePast(scope, commits, n, revision, id, may);
    }
    MatchingShowsPast(early, late, ids, revision, may, f => true, f => true);
  }
}
