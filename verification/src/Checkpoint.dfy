/** The checkpoint codec (crates/uste-graph/src/state.rs:821-998), over tokens: one per fixed-width field or
    length-prefixed frame. `width` gives each token's length in bytes. */
module Checkpoint {
  import opened Base
  import opened Records
  import opened Reducer
  import opened Integrity
  import opened Publication
  import opened Invariant
  import opened Restore

  const MAX_GRAPH_CHECKPOINT_BYTES := 256 * 1024 * 1024
  const MAX_GRAPH_CHECKPOINT_RECORDS := 1_000_000
  const MAX_GRAPH_CHECKPOINT_VERSIONS := 10_000_000

  datatype Token =
    | Magic
    | ScopeBytes(scope: nat)
    | Number(number: nat)
    | Identity(record: nat)
    | RecordFrame(content: Record)
    | PolicyFrame(policy: Option<NamespacePolicy>)

  // Encoding

  function RecordTokens(records: map<RecordRef, Record>, ids: seq<RecordRef>): seq<Token>
    requires forall id :: id in ids ==> id in records
  {
    if ids == [] then [] else [Identity(ids[0].record), RecordFrame(records[ids[0]])] + RecordTokens(records, ids[1..])
  }

  function VersionTokens(versions: seq<Record>): seq<Token> {
    if versions == [] then [] else [RecordFrame(versions[0])] + VersionTokens(versions[1..])
  }

  function HistoryTokens(history: map<RecordRef, seq<Record>>, ids: seq<RecordRef>): seq<Token>
    requires forall id :: id in ids ==> id in history
  {
    if ids == [] then []
    else
      var versions := history[ids[0]];
      [Identity(ids[0].record), Number(|versions|)] + VersionTokens(versions) + HistoryTokens(history, ids[1..])
  }

  function PolicyTokens(policies: map<nat, NamespacePolicy>, revisions: seq<nat>): seq<Token>
    requires forall r :: r in revisions ==> r in policies
  {
    if revisions == [] then []
    else [Number(revisions[0]), PolicyFrame(Some(policies[revisions[0]]))] + PolicyTokens(policies, revisions[1..])
  }

  ghost function Tokens(s: Snapshot): seq<Token> {
    [Magic, ScopeBytes(s.scope), Number(s.revision), Number(|s.records|)]
    + (RecordTokens(s.records, Sorted(s.records.Keys))
    + ([Number(|s.history|)]
    + (HistoryTokens(s.history, Sorted(s.history.Keys))
    + ([PolicyFrame(s.policy), Number(|s.policyHistory|)]
    + PolicyTokens(s.policyHistory, SortedRevisions(s.policyHistory.Keys))))))
  }

  function TotalVersions(history: map<RecordRef, seq<Record>>, ids: seq<RecordRef>): nat
    requires forall id :: id in ids ==> id in history
  {
    if ids == [] then 0 else |history[ids[0]]| + TotalVersions(history, ids[1..])
  }

  function TotalWidth(tokens: seq<Token>, width: Token -> nat): nat {
    if tokens == [] then 0 else width(tokens[0]) + TotalWidth(tokens[1..], width)
  }

  ghost function Encode(s: Snapshot, width: Token -> nat): Result<seq<Token>, CheckpointError> {
    if s.revision == 0 then Err(Invalid)
    else if |s.records| > MAX_GRAPH_CHECKPOINT_RECORDS || |s.history| > MAX_GRAPH_CHECKPOINT_RECORDS
      || |s.policyHistory| > MAX_GRAPH_CHECKPOINT_RECORDS
      || TotalVersions(s.history, Sorted(s.history.Keys)) > MAX_GRAPH_CHECKPOINT_VERSIONS
      || TotalWidth(Tokens(s), width) > MAX_GRAPH_CHECKPOINT_BYTES
    then Err(CheckpointTooLarge)
    else Ok(Tokens(s))
  }

  // Decoding: a value together with the tokens still to be read

  datatype Read<+T> = Read(value: T, rest: seq<Token>)

  function ReadNumber(tokens: seq<Token>): Result<Read<nat>, CheckpointError> {
    if tokens != [] && tokens[0].Number? then Ok(Read(tokens[0].number, tokens[1..])) else Err(Invalid)
  }

  function ReadCount(tokens: seq<Token>, maximum: nat): Result<Read<nat>, CheckpointError> {
    var n :- ReadNumber(tokens);
    if n.value > maximum then Err(CheckpointTooLarge) else Ok(n)
  }

  function ReadRevision(tokens: seq<Token>): Result<Read<nat>, CheckpointError> {
    var n :- ReadNumber(tokens);
    if n.value == 0 then Err(Invalid) else Ok(n)
  }

  function ReadIdentity(scope: nat, tokens: seq<Token>): Result<Read<RecordRef>, CheckpointError> {
    if tokens != [] && tokens[0].Identity? then Ok(Read(RecordRef(scope, tokens[0].record), tokens[1..]))
      else Err(Invalid)
  }

  function ReadRecord(tokens: seq<Token>): Result<Read<Record>, CheckpointError> {
    if tokens != [] && tokens[0].RecordFrame? then Ok(Read(tokens[0].content, tokens[1..])) else Err(Invalid)
  }

  function ReadPolicy(tokens: seq<Token>): Result<Read<Option<NamespacePolicy>>, CheckpointError> {
    if tokens != [] && tokens[0].PolicyFrame? then Ok(Read(tokens[0].policy, tokens[1..])) else Err(Invalid)
  }

  predicate Ascends(previous: Option<RecordRef>, id: RecordRef) {
    previous.Some? ==> Less(previous.value, id)
  }

  function DecodeRecords(scope: nat, revision: nat, count: nat, records: map<RecordRef, Record>,
      previous: Option<RecordRef>, tokens: seq<Token>)
    : Result<Read<map<RecordRef, Record>>, CheckpointError>
  {
    if count == 0 then Ok(Read(records, tokens))
    else
      var id :- ReadIdentity(scope, tokens);
      if !Ascends(previous, id.value) then Err(Invalid)
      else
        var r :- ReadRecord(id.rest);
        if r.value.id != id.value || r.value.ModifiedRevision() > revision then Err(Invalid)
        else DecodeRecords(scope, revision, count - 1, records[id.value := r.value], Some(id.value), r.rest)
  }

  function DecodeVersions(revision: nat, id: RecordRef, count: nat, versions: seq<Record>, tokens: seq<Token>)
    : Result<Read<seq<Record>>, CheckpointError>
  {
    if count == 0 then Ok(Read(versions, tokens))
    else
      var r :- ReadRecord(tokens);
      var next := versions + [r.value];
      if !VersionAccepted(id, next, |versions|, revision) then Err(Invalid)
      else DecodeVersions(revision, id, count - 1, next, r.rest)
  }

  function DecodeHistories(scope: nat, revision: nat, count: nat, records: map<RecordRef, Record>,
      history: map<RecordRef, seq<Record>>,
                           total: nat, previous: Option<RecordRef>, tokens: seq<Token>)
    : Result<Read<map<RecordRef, seq<Record>>>, CheckpointError>
  {
    if count == 0 then Ok(Read(history, tokens))
    else
      var id :- ReadIdentity(scope, tokens);
      if !Ascends(previous, id.value) then Err(Invalid)
      else
        var n :- ReadCount(id.rest, MAX_GRAPH_CHECKPOINT_VERSIONS);
        if n.value == 0 then Err(Invalid)
        else if total + n.value > MAX_GRAPH_CHECKPOINT_VERSIONS then Err(CheckpointTooLarge)
        else
          var versions :- DecodeVersions(revision, id.value, n.value, [], n.rest);
          if !RecordHistoryAccepted(scope, versions.value) then Err(Invalid)
          else if Lookup(records, id.value) != Some(versions.value[|versions.value| - 1]) then Err(Invalid)
          else DecodeHistories(scope, revision, count - 1, records, history[id.value := versions.value], total
            + n.value, Some(id.value), versions.rest)
  }

  function DecodePolicies(scope: nat, revision: nat, count: nat, policies: map<nat, NamespacePolicy>,
                          previousRevision: Option<nat>, previousVersion: Option<nat>, tokens: seq<Token>)
    : Result<Read<map<nat, NamespacePolicy>>, CheckpointError>
  {
    if count == 0 then Ok(Read(policies, tokens))
    else
      var at :- ReadRevision(tokens);
      var policy :- ReadPolicy(at.rest);
      if policy.value.None? then Err(Invalid)
      else if at.value > revision || (previousRevision.Some? && previousRevision.value >= at.value)
        || policy.value.value.scope != scope || (previousVersion.Some?
        && previousVersion.value >= policy.value.value.version)
      then Err(Invalid)
      else DecodePolicies(scope, revision, count - 1, policies[at.value := policy.value.value],
                          Some(at.value), Some(policy.value.value.version), policy.rest)
  }

  /** The families behind the header, and nothing after them. */
  function DecodeParts(scope: nat, revision: nat, tokens: seq<Token>): Result<Parts, CheckpointError> {
    var recordCount :- ReadCount(tokens, MAX_GRAPH_CHECKPOINT_RECORDS);
    var records :- DecodeRecords(scope, revision, recordCount.value, map[], None, recordCount.rest);
    var historyCount :- ReadCount(records.rest, MAX_GRAPH_CHECKPOINT_RECORDS);
    var history :- DecodeHistories(scope, revision, historyCount.value, records.value, map[], 0, None,
      historyCount.rest);
    var policy :- ReadPolicy(history.rest);
    if policy.value.Some? && policy.value.value.scope != scope then Err(Invalid)
    else
      var policyCount :- ReadCount(policy.rest, MAX_GRAPH_CHECKPOINT_RECORDS);
      var policies :- DecodePolicies(scope, revision, policyCount.value, map[], None, None, policyCount.rest);
      if policies.rest != [] then Err(Invalid)
      else Ok(Parts(scope, revision, records.value, history.value, policy.value, policies.value))
  }

  ghost function Decode(expectedScope: nat, expectedRevision: nat, tokens: seq<Token>,
      width: Token -> nat): Result<Snapshot, CheckpointError> {
    if TotalWidth(tokens, width) > MAX_GRAPH_CHECKPOINT_BYTES then Err(CheckpointTooLarge)
    else if tokens == [] then Err(Invalid)
    else if tokens[0] != Magic then Err(UnsupportedProfile)
    else if |tokens| < 2 || !tokens[1].ScopeBytes? then Err(Invalid)
    else
      var revision :- ReadRevision(tokens[2..]);
      if tokens[1].scope != expectedScope || revision.value != expectedRevision then Err(Invalid)
      else
        var parts :- DecodeParts(expectedScope, expectedRevision, revision.rest);
        FromPersistedParts(parts)
  }

  // Each family decodes to itself

  function Listed<K, V>(m: map<K, V>, ids: seq<K>): map<K, V> {
    map id | id in ids && id in m :: m[id]
  }

  function Last<K>(ids: seq<K>, n: nat): Option<K>
    requires n <= |ids|
  {
    if n == 0 then None else Some(ids[n - 1])
  }

  lemma ListedStep<K, V>(m: map<K, V>, ids: seq<K>, i: nat)
    requires i < |ids| && ids[i] in m
    ensures Listed(m, ids[..i])[ids[i] := m[ids[i]]] == Listed(m, ids[..i + 1])
  {
    assert ids[..i + 1] == ids[..i] + [ids[i]];
  }

  lemma DecodeOneRecord(scope: nat, revision: nat, count: nat, records: map<RecordRef, Record>,
      previous: Option<RecordRef>,
                        id: RecordRef, r: Record, rest: seq<Token>)
    requires count > 0 && id.scope == scope && Ascends(previous, id) && r.id == id && r.ModifiedRevision() <= revision
    ensures DecodeRecords(scope, revision, count, records, previous, [Identity(id.record), RecordFrame(r)] + rest)
      == DecodeRecords(scope, revision, count - 1, records[id := r], Some(id), rest)
  {
    var tokens := [Identity(id.record), RecordFrame(r)] + rest;
    assert tokens[0] == Identity(id.record) && tokens[1] == RecordFrame(r) && tokens[1..][1..] == rest;
  }

  lemma NoRecordsLeft(scope: nat, revision: nat, records: map<RecordRef, Record>, previous: Option<RecordRef>,
      rest: seq<Token>)
    ensures DecodeRecords(scope, revision, 0, records, previous, rest) == Ok(Read(records, rest))
  {
  }

  lemma {:induction false} RecordsRoundTrip(scope: nat, revision: nat, records: map<RecordRef, Record>,
      ids: seq<RecordRef>, i: nat, rest: seq<Token>)
    requires Enumerates(ids, records.Keys, Less) && i <= |ids|
    requires forall id :: id in records ==>
      id.scope == scope && records[id].id == id && records[id].ModifiedRevision() <= revision
    ensures DecodeRecords(scope, revision, |ids| - i, Listed(records, ids[..i]), Last(ids, i),
      RecordTokens(records, ids[i..]) + rest) == Ok(Read(records, rest))
    decreases |ids| - i
  {
    hide DecodeRecords;
    if i == |ids| {
      assert ids[..i] == ids && Listed(records, ids) == records;
      assert RecordTokens(records, ids[i..]) + rest == rest;
      NoRecordsLeft(scope, revision, records, Last(ids, i), rest);
    } else {
      hide Listed;
      var id := ids[i];
      assert id in records.Keys;
      var after := RecordTokens(records, ids[i + 1..]) + rest;
      assert ids[i..][1..] == ids[i + 1..];
      assert RecordTokens(records, ids[i..]) + rest == [Identity(id.record), RecordFrame(records[id])] + after;
      DecodeOneRecord(scope, revision, |ids| - i, Listed(records, ids[..i]), Last(ids, i), id, records[id], after);
      ListedStep(records, ids, i);
      RecordsRoundTrip(scope, revision, records, ids, i + 1, rest);
    }
  }

  lemma {:induction false} VersionsRoundTrip(revision: nat, id: RecordRef, versions: seq<Record>, k: nat,
      rest: seq<Token>)
    requires k <= |versions| && forall j :: 0 <= j < |versions| ==> VersionAccepted(id, versions, j, revision)
    ensures DecodeVersions(revision, id, |versions| - k, versions[..k], VersionTokens(versions[k..]) + rest)
      == Ok(Read(versions, rest))
    decreases |versions| - k
  {
    if k == |versions| {
      assert versions[..k] == versions;
      assert VersionTokens(versions[k..]) + rest == rest;
    } else {
      var tokens := VersionTokens(versions[k..]) + rest;
      assert versions[k..][1..] == versions[k + 1..];
      assert tokens[0] == RecordFrame(versions[k]) && tokens[1..] == VersionTokens(versions[k + 1..]) + rest;
      assert versions[..k] + [versions[k]] == versions[..k + 1];
      assert VersionAccepted(id, versions, k, revision);
      assert VersionAccepted(id, versions[..k + 1], k, revision);
      VersionsRoundTrip(revision, id, versions, k + 1, rest);
    }
  }

  lemma {:induction false} TotalVersionsSplit(history: map<RecordRef, seq<Record>>, ids: seq<RecordRef>, i: nat)
    requires i < |ids| && forall id :: id in ids ==> id in history
    ensures TotalVersions(history, ids[..i + 1]) == TotalVersions(history, ids[..i]) + |history[ids[i]]|
    ensures TotalVersions(history, ids[..i + 1]) <= TotalVersions(history, ids)
  {
    if i == 0 {
      assert ids[..1] == [ids[0]] && ids[..0] == [];
      assert ids[..1][1..] == [];
    } else {
      assert ids[..i + 1][1..] == ids[1..][..i] && ids[..i][1..] == ids[1..][..i - 1];
      TotalVersionsSplit(history, ids[1..], i - 1);
    }
  }

  /** What decoding asks of the history of `id`. */
  ghost predicate HistoryReadable(scope: nat, revision: nat, records: map<RecordRef, Record>, id: RecordRef,
      versions: seq<Record>) {
    && id.scope == scope
    && HistoryAccepted(scope, revision, id, versions)
    && Lookup(records, id) == Some(versions[|versions| - 1])
  }

  lemma DecodeOneHistory(scope: nat, revision: nat, count: nat, records: map<RecordRef, Record>,
      history: map<RecordRef, seq<Record>>,
                         total: nat, previous: Option<RecordRef>, id: RecordRef, versions: seq<Record>,
                           rest: seq<Token>)
    requires count > 0 && Ascends(previous, id) && total + |versions| <= MAX_GRAPH_CHECKPOINT_VERSIONS
    requires HistoryReadable(scope, revision, records, id, versions)
    ensures DecodeHistories(scope, revision, count, records, history, total, previous,
                            [Identity(id.record), Number(|versions|)] + (VersionTokens(versions) + rest))
      == DecodeHistories(scope, revision, count - 1, records, history[id := versions], total
        + |versions|, Some(id), rest)
  {
    hide FirstAccepted, SuccessorAccepted;
    var body := VersionTokens(versions) + rest;
    var tokens := [Identity(id.record), Number(|versions|)] + body;
    assert tokens[0] == Identity(id.record) && tokens[1] == Number(|versions|) && tokens[1..][1..] == body;
    assert versions[..0] == [] && versions[0..] == versions;
    VersionsRoundTrip(revision, id, versions, 0, rest);
  }

  lemma NoHistoriesLeft(scope: nat, revision: nat, records: map<RecordRef, Record>,
      history: map<RecordRef, seq<Record>>, total: nat, previous: Option<RecordRef>, rest: seq<Token>)
    ensures DecodeHistories(scope, revision, 0, records, history, total, previous, rest) == Ok(Read(history, rest))
  {
  }

  lemma {:induction false} HistoriesRoundTrip(scope: nat, revision: nat, records: map<RecordRef, Record>,
      history: map<RecordRef, seq<Record>>,
                                              ids: seq<RecordRef>, i: nat, rest: seq<Token>)
    requires Enumerates(ids, history.Keys, Less) && i <= |ids|
    requires forall id :: id in history ==> HistoryReadable(scope, revision, records, id, history[id])
    requires TotalVersions(history, ids) <= MAX_GRAPH_CHECKPOINT_VERSIONS
    ensures DecodeHistories(scope, revision, |ids| - i, records, Listed(history, ids[..i]),
      TotalVersions(history, ids[..i]), Last(ids, i),
                            HistoryTokens(history, ids[i..]) + rest) == Ok(Read(history, rest))
    decreases |ids| - i
  {
    hide HistoryReadable, DecodeHistories, TotalVersions;
    if i == |ids| {
      assert ids[..i] == ids && Listed(history, ids) == history;
      assert HistoryTokens(history, ids[i..]) + rest == rest;
      NoHistoriesLeft(scope, revision, records, history, TotalVersions(history, ids), Last(ids, i), rest);
    } else {
      hide Listed;
      var id := ids[i];
      assert id in history.Keys;
      var after := HistoryTokens(history, ids[i + 1..]) + rest;
      assert ids[i..][1..] == ids[i + 1..];
      assert HistoryTokens(history, ids[i..]) + rest
        == [Identity(id.record), Number(|history[id]|)] + (VersionTokens(history[id]) + after);
      TotalVersionsSplit(history, ids, i);
      DecodeOneHistory(scope, revision, |ids| - i, records, Listed(history, ids[..i]), TotalVersions(history, ids[..i]),
        Last(ids, i), id, history[id], after);
      ListedStep(history, ids, i);
      HistoriesRoundTrip(scope, revision, records, history, ids, i + 1, rest);
    }
  }

  function LastVersion(policies: map<nat, NamespacePolicy>, at: Option<nat>): Option<nat> {
    if at.Some? && at.value in policies then Some(policies[at.value].version) else None
  }

  lemma DecodeOnePolicy(scope: nat, revision: nat, count: nat, policies: map<nat, NamespacePolicy>,
      previous: Option<nat>, previousVersion: Option<nat>,
                        at: nat, policy: NamespacePolicy, rest: seq<Token>)
    requires count > 0 && 1 <= at <= revision && policy.scope == scope
    requires previous.Some? ==> previous.value < at
    requires previousVersion.Some? ==> previousVersion.value < policy.version
    ensures DecodePolicies(scope, revision, count, policies, previous, previousVersion,
      [Number(at), PolicyFrame(Some(policy))] + rest)
      == DecodePolicies(scope, revision, count - 1, policies[at := policy], Some(at), Some(policy.version), rest)
  {
    var tokens := [Number(at), PolicyFrame(Some(policy))] + rest;
    assert tokens[0] == Number(at) && tokens[1] == PolicyFrame(Some(policy)) && tokens[1..][1..] == rest;
  }

  lemma NoPoliciesLeft(scope: nat, revision: nat, policies: map<nat, NamespacePolicy>, previous: Option<nat>,
      previousVersion: Option<nat>)
    ensures DecodePolicies(scope, revision, 0, policies, previous, previousVersion, []) == Ok(Read(policies, []))
  {
  }

  lemma {:induction false} PoliciesRoundTrip(scope: nat, revision: nat, policies: map<nat, NamespacePolicy>,
      revisions: seq<nat>, i: nat)
    requires Enumerates(revisions, policies.Keys, Earlier) && i <= |revisions|
    requires forall r :: r in policies ==> 1 <= r <= revision && policies[r].scope == scope
    requires VersionsRiseWithRevisions(policies)
    ensures DecodePolicies(scope, revision, |revisions| - i, Listed(policies, revisions[..i]), Last(revisions, i),
                           LastVersion(policies, Last(revisions, i)), PolicyTokens(policies, revisions[i..]))
                             == Ok(Read(policies, []))
    decreases |revisions| - i
  {
    hide DecodePolicies;
    if i == |revisions| {
      assert revisions[..i] == revisions && Listed(policies, revisions) == policies;
      NoPoliciesLeft(scope, revision, policies, Last(revisions, i), LastVersion(policies, Last(revisions, i)));
    } else {
      hide Listed;
      var r := revisions[i];
      assert r in policies.Keys && (i > 0 ==> revisions[i - 1] in policies.Keys);
      var after := PolicyTokens(policies, revisions[i + 1..]);
      assert revisions[i..][1..] == revisions[i + 1..];
      assert PolicyTokens(policies, revisions[i..]) == [Number(r), PolicyFrame(Some(policies[r]))] + after;
      DecodeOnePolicy(scope, revision, |revisions| - i, Listed(policies, revisions[..i]), Last(revisions, i),
                      LastVersion(policies, Last(revisions, i)), r, policies[r], after);
      ListedStep(policies, revisions, i);
      PoliciesRoundTrip(scope, revision, policies, revisions, i + 1);
    }
  }

  // The whole checkpoint

  /** The families of a consistent state, as their decoders ask for them. */
  lemma {:induction false} ConsistentIsReadable(s: Snapshot)
    requires Consistent(s)
    ensures forall id :: id in s.records ==>
      id.scope == s.scope && s.records[id].id == id && s.records[id].ModifiedRevision() <= s.revision
    ensures forall id :: id in s.history ==> HistoryReadable(s.scope, s.revision, s.records, id, s.history[id])
  {
    hide Indexed, IndexesMatch, HistoricallyClosed, PoliciesKept, HistoryAccepted;
    forall id | id in s.history
      ensures HistoryReadable(s.scope, s.revision, s.records, id, s.history[id])
      ensures id in s.records && s.records[id].id == id && s.records[id].ModifiedRevision() <= s.revision
    {
      assert ValidIn(s.scope, id, s.records);
      assert GoodHistory(s.scope, id, s.history[id], s.revision);
      GoodHistoryIsAccepted(s.scope, s.revision, id, s.history[id]);
    }
  }

  lemma NumberIsRead(n: nat, rest: seq<Token>)
    ensures ReadNumber([Number(n)] + rest) == Ok(Read(n, rest))
  {
  }

  lemma NothingListed<K, V>(m: map<K, V>, ids: seq<K>)
    ensures Listed(m, ids[..0]) == map[] && ids[0..] == ids && Last(ids, 0) == None
  {
  }

  lemma {:induction false} RecordPartRoundTrip(s: Snapshot, rest: seq<Token>)
    requires forall id :: id in s.records ==>
      id.scope == s.scope && s.records[id].id == id && s.records[id].ModifiedRevision() <= s.revision
    ensures DecodeRecords(s.scope, s.revision, |s.records|, map[], None, RecordTokens(s.records, Sorted(s.records.Keys))
      + rest) == Ok(Read(s.records, rest))
  {
    hide DecodeRecords, RecordTokens, Listed, Last, Increasing;
    var ids := Sorted(s.records.Keys);
    NothingListed(s.records, ids);
    RecordsRoundTrip(s.scope, s.revision, s.records, ids, 0, rest);
  }

  lemma NoVersions(history: map<RecordRef, seq<Record>>)
    ensures TotalVersions(history, []) == 0
  {
  }

  lemma {:induction false} HistoryPartRoundTrip(s: Snapshot, rest: seq<Token>)
    requires forall id :: id in s.history ==> HistoryReadable(s.scope, s.revision, s.records, id, s.history[id])
    requires TotalVersions(s.history, Sorted(s.history.Keys)) <= MAX_GRAPH_CHECKPOINT_VERSIONS
    ensures DecodeHistories(s.scope, s.revision, |s.history|, s.records, map[], 0, None,
      HistoryTokens(s.history, Sorted(s.history.Keys)) + rest)
      == Ok(Read(s.history, rest))
  {
    hide DecodeHistories, HistoryTokens, HistoryReadable, TotalVersions, Listed, Last, Increasing;
    var ids := Sorted(s.history.Keys);
    NothingListed(s.history, ids);
    assert ids[..0] == [];
    NoVersions(s.history);
    HistoriesRoundTrip(s.scope, s.revision, s.records, s.history, ids, 0, rest);
  }

  lemma {:induction false} PolicyPartRoundTrip(s: Snapshot)
    requires PoliciesKept(s)
    ensures DecodePolicies(s.scope, s.revision, |s.policyHistory|, map[], None, None,
      PolicyTokens(s.policyHistory, SortedRevisions(s.policyHistory.Keys)))
      == Ok(Read(s.policyHistory, []))
  {
    hide DecodePolicies, PolicyTokens, PolicyAt, VersionsRiseWithRevisions, Listed, Last, Increasing;
    var revisions := SortedRevisions(s.policyHistory.Keys);
    NothingListed(s.policyHistory, revisions);
    PoliciesRoundTrip(s.scope, s.revision, s.policyHistory, revisions, 0);
  }

  lemma CurrentPolicyHasScope(s: Snapshot)
    requires PoliciesKept(s)
    ensures s.policy.Some? ==> s.policy.value.scope == s.scope
  {
    if s.policy.Some? {
      PolicyAtIsRecorded(s.policyHistory, s.revision);
    }
  }

  lemma {:induction false} PolicyAtIsRecorded(policies: map<nat, NamespacePolicy>, revision: nat)
    requires PolicyAt(policies, revision).Some?
    ensures exists r :: r in policies && PolicyAt(policies, revision) == Some(policies[r])
  {
    if revision !in policies {
      PolicyAtIsRecorded(policies, revision - 1);
    }
  }

  ghost function PolicySection(s: Snapshot): seq<Token> {
    [PolicyFrame(s.policy), Number(|s.policyHistory|)]
      + PolicyTokens(s.policyHistory, SortedRevisions(s.policyHistory.Keys))
  }

  ghost function HistorySection(s: Snapshot): seq<Token> {
    [Number(|s.history|)] + (HistoryTokens(s.history, Sorted(s.history.Keys)) + PolicySection(s))
  }

  ghost function RecordSection(s: Snapshot): seq<Token> {
    [Number(|s.records|)] + (RecordTokens(s.records, Sorted(s.records.Keys)) + HistorySection(s))
  }

  lemma TokensAreSections(s: Snapshot)
    ensures Tokens(s) == [Magic, ScopeBytes(s.scope), Number(s.revision)] + RecordSection(s)
  {
    hide RecordTokens, HistoryTokens, PolicyTokens, Increasing;
    var tail := RecordTokens(s.records, Sorted(s.records.Keys)) + HistorySection(s);
    assert [Magic, ScopeBytes(s.scope), Number(s.revision), Number(|s.records|)] + tail
        == [Magic, ScopeBytes(s.scope), Number(s.revision)] + ([Number(|s.records|)] + tail);
  }

  /** The decoder's view of the three sections, each ending where the next begins. */
  ghost predicate SectionsDecode(s: Snapshot) {
    && DecodeRecords(s.scope, s.revision, |s.records|, map[], None, RecordTokens(s.records, Sorted(s.records.Keys))
       + HistorySection(s))
         == Ok(Read(s.records, HistorySection(s)))
    && DecodeHistories(s.scope, s.revision, |s.history|, s.records, map[], 0, None,
       HistoryTokens(s.history, Sorted(s.history.Keys)) + PolicySection(s))
         == Ok(Read(s.history, PolicySection(s)))
    && DecodePolicies(s.scope, s.revision, |s.policyHistory|, map[], None, None,
       PolicyTokens(s.policyHistory, SortedRevisions(s.policyHistory.Keys)))
         == Ok(Read(s.policyHistory, []))
    && (s.policy.Some? ==> s.policy.value.scope == s.scope)
  }

  lemma {:induction false} ConsistentSectionsDecode(s: Snapshot)
    requires Consistent(s) && TotalVersions(s.history, Sorted(s.history.Keys)) <= MAX_GRAPH_CHECKPOINT_VERSIONS
    ensures SectionsDecode(s)
  {
    hide DecodeRecords, DecodeHistories, DecodePolicies, RecordTokens, HistoryTokens, PolicyTokens, TotalVersions,
         HistoryReadable, HistorySection, PolicySection;
    hide Indexed, IndexesMatch, AllValid, HistoriesKept, HistoricallyClosed, PoliciesKept, Increasing;
    ConsistentIsReadable(s);
    CurrentPolicyHasScope(s);
    RecordPartRoundTrip(s, HistorySection(s));
    HistoryPartRoundTrip(s, PolicySection(s));
    PolicyPartRoundTrip(s);
  }

  lemma {:induction false} PartsRoundTrip(s: Snapshot)
    requires SectionsDecode(s)
    requires |s.records| <= MAX_GRAPH_CHECKPOINT_RECORDS && |s.history| <= MAX_GRAPH_CHECKPOINT_RECORDS
      && |s.policyHistory| <= MAX_GRAPH_CHECKPOINT_RECORDS
    ensures DecodeParts(s.scope, s.revision, RecordSection(s)) == Ok(PartsOf(s))
  {
    hide DecodeRecords, DecodeHistories, DecodePolicies, RecordTokens, HistoryTokens, PolicyTokens, Increasing,
         ReadCount, ReadPolicy, PolicySection, Sorted, SortedRevisions;
    CountIsRead(|s.records|, RecordTokens(s.records, Sorted(s.records.Keys)) + HistorySection(s));
    CountIsRead(|s.history|, HistoryTokens(s.history, Sorted(s.history.Keys)) + PolicySection(s));
    PolicyHeadIsRead(s);
  }

  lemma CountIsRead(n: nat, rest: seq<Token>)
    requires n <= MAX_GRAPH_CHECKPOINT_RECORDS
    ensures ReadCount([Number(n)] + rest, MAX_GRAPH_CHECKPOINT_RECORDS) == Ok(Read(n, rest))
  {
    NumberIsRead(n, rest);
  }

  lemma PolicyHeadIsRead(s: Snapshot)
    requires |s.policyHistory| <= MAX_GRAPH_CHECKPOINT_RECORDS
    ensures ReadPolicy(PolicySection(s)).Ok? && ReadPolicy(PolicySection(s)).value.value == s.policy
    ensures ReadCount(ReadPolicy(PolicySection(s)).value.rest, MAX_GRAPH_CHECKPOINT_RECORDS)
      == Ok(Read(|s.policyHistory|, PolicyTokens(s.policyHistory, SortedRevisions(s.policyHistory.Keys))))
  {
    hide PolicyTokens, SortedRevisions, ReadCount;
    var tail := PolicyTokens(s.policyHistory, SortedRevisions(s.policyHistory.Keys));
    assert PolicySection(s)[1..] == [Number(|s.policyHistory|)] + tail;
    CountIsRead(|s.policyHistory|, tail);
  }

  lemma {:induction false} HeaderRoundTrip(s: Snapshot, width: Token -> nat, tokens: seq<Token>)
    requires s.revision >= 1 && TotalWidth(tokens, width) <= MAX_GRAPH_CHECKPOINT_BYTES
    requires tokens == [Magic, ScopeBytes(s.scope), Number(s.revision)] + RecordSection(s)
    requires DecodeParts(s.scope, s.revision, RecordSection(s)) == Ok(PartsOf(s))
    ensures Decode(s.scope, s.revision, tokens, width) == FromPersistedParts(PartsOf(s))
  {
    hide DecodeParts, RecordSection, FromPersistedParts, TotalWidth;
    assert tokens[2..] == [Number(s.revision)] + RecordSection(s);
    NumberIsRead(s.revision, RecordSection(s));
  }

  /** Checkpoint completeness: whenever a reachable state encodes, decoding gives back the identical state. */
  lemma {:induction false} CheckpointRoundTrip(scope: nat, txs: seq<Transaction>, width: Token -> nat)
    requires Encode(Run(scope, txs), width).Ok?
    ensures var s := Run(scope, txs); Decode(s.scope, s.revision, Encode(s, width).value, width) == Ok(s)
  {
    hide Run, Consistent, SectionsDecode, RecordSection, FromPersistedParts, Decode, TotalVersions, TotalWidth, Tokens,
         DecodeParts;
    var s := Run(scope, txs);
    EveryRunIsConsistent(scope, txs);
    ConsistentSectionsDecode(s);
    PartsRoundTrip(s);
    TokensAreSections(s);
    HeaderRoundTrip(s, width, Tokens(s));
    EveryRunRestores(scope, txs);
  }
}
