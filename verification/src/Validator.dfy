/** The streaming validator of merged families, and what it hashes
    (crates/uste-graph/src/state_disk.rs:2736-3090; crates/uste-graph/src/state.rs:751-820).
    A digest is modelled by the exact sequence of fields fed to it. */
module Validator {
  import opened Base
  import opened Records
  import opened References
  import opened Checkpoint
  import opened Families
  import opened KeyOrder
  import opened DeltaBuilder

  const FAMILY_COUNT := 8

  /** The validator's fields. */
  datatype State = State(
    scope: nat, revision: nat, counts: Counts, nextFamily: nat, digest: seq<Token>,
    metadataSeen: nat, currentSeen: nat, historySeen: nat, historyGroups: nat,
    groupId: Option<nat>, groupVersions: nat, groupTokens: seq<Token>,
    secondarySeen: seq<nat>, policyCurrentSeen: bool, policyHistorySeen: nat)

  type Step = Result<State, DiskError>

  function New(scope: nat, revision: nat, counts: Counts): Step
    requires |counts| == SLOTS
  {
    if counts[7] > 1 || (counts[6] != 0 && counts[7] != 1) then Err(CorruptIndex)
    else Ok(State(scope, revision, counts, 1, [ScopeBytes(scope), Number(revision), Number(counts[0])],
                  0, 0, 0, 0, None, 0, [], [0, 0, 0, 0], false, 0))
  }

  function ObserveMetadata(v: State, content: Content): Step {
    if v.metadataSeen != 0 || content != MetadataContent(v.revision, v.counts) then Err(CorruptIndex)
    else Ok(v.(metadataSeen := 1))
  }

  function ObserveCurrent(v: State, record: nat, content: Content): Step {
    if !content.RecordContent? || content.value.id != RecordRef(v.scope, record)
      || content.value.ModifiedRevision() > v.revision
    then Err(CorruptIndex)
    else Ok(v.(digest := v.digest + [Identity(record), RecordFrame(content.value)], currentSeen := v.currentSeen + 1))
  }

  /** The buffered history group reaches the digest: identity, version count, then the frames. */
  function FlushHistoryGroup(v: State): Step {
    if v.groupId.None? then Ok(v)
    else if v.groupVersions == 0 then Err(CorruptIndex)
    else Ok(v.(digest := v.digest + ([Identity(v.groupId.value), Number(v.groupVersions)] + v.groupTokens),
               groupId := None, groupVersions := 0, groupTokens := [], historyGroups := v.historyGroups + 1))
  }

  function ObserveHistory(v: State, record: nat, revision: nat, content: Content): Step {
    if !content.RecordContent? || revision == 0 || content.value.id != RecordRef(v.scope, record)
      || content.value.ModifiedRevision() != revision || revision > v.revision
    then Err(CorruptIndex)
    else
      var w :- if v.groupId.Some? && v.groupId.value != record then FlushHistoryGroup(v) else Ok(v);
      Ok(w.(groupId := Some(record), groupTokens := w.groupTokens + [RecordFrame(content.value)],
            groupVersions := w.groupVersions + 1, historySeen := w.historySeen + 1))
  }

  function ClaimRolesAllowed(kind: nat): set<Role> {
    if kind == REVERSE_KIND_ASSERTION then {AssertionSubject, AssertionObject, EvidenceRole, CorrectionRole}
    else {RelationshipFrom, RelationshipTo, RelationshipProperty, EvidenceRole, CorrectionRole}
  }

  /** The roles a descriptor may carry, or none for an unknown kind or state. */
  function AllowedRoles(r: ReverseReference): Option<set<Role>> {
    if r.ownerKind == REVERSE_KIND_ENTITY && (r.ownerState == REVERSE_STATE_ACTIVE
      || r.ownerState == REVERSE_STATE_DELETED)
    then Some({EntityProperty})
    else if (r.ownerKind == REVERSE_KIND_ASSERTION || r.ownerKind == REVERSE_KIND_RELATIONSHIP)
      && 1 <= r.ownerState <= 7
    then Some(ClaimRolesAllowed(r.ownerKind))
    else None
  }

  predicate ValidReverse(r: ReverseReference, revision: nat) {
    && AllowedRoles(r).Some? && r.roles != {} && r.roles <= AllowedRoles(r).value
    && r.ownerVersion >= 1 && 1 <= r.ownerRevision <= revision
  }

  predicate ValidSecondary(v: State, family: Family, content: Content) {
    match family
    case Outgoing => content.NeighborContent?
    case Incoming => content.NeighborContent?
    case Provenance => content.NoContent?
    case Reverse => content.ReverseContent? && ValidReverse(content.reference, v.revision)
    case _ => false
  }

  function ObserveSecondary(v: State, family: Family, content: Content): Step
    requires |v.secondarySeen| == 4
  {
    var index := FamilyNumber(family) - 4;
    if !ValidSecondary(v, family, content) then Err(CorruptIndex)
    else Ok(v.(secondarySeen := v.secondarySeen[index := v.secondarySeen[index] + 1]))
  }

  function ObservePolicy(v: State, key: Key, content: Content): Step
    requires |v.counts| == SLOTS
  {
    if !content.PolicyContent? || content.policy.scope != v.scope then Err(CorruptIndex)
    else
      match key
      case CurrentPolicyKey =>
        if v.counts[7] != 1 || v.policyCurrentSeen then Err(CorruptIndex)
        else Ok(v.(digest := v.digest + [PolicyFrame(Some(content.policy)), Number(v.counts[6])],
          policyCurrentSeen := true))
      case PolicyKey(revision) =>
        if !v.policyCurrentSeen || revision == 0 || revision > v.revision then Err(CorruptIndex)
        else Ok(v.(digest := v.digest + [Number(revision), PolicyFrame(Some(content.policy))],
          policyHistorySeen := v.policyHistorySeen + 1))
      case _ => Err(CorruptIndex)
  }

  predicate WellSized(v: State) {
    |v.counts| == SLOTS && |v.secondarySeen| == 4
  }

  /** One entry of the family currently being merged. */
  function Observe(v: State, key: Key, content: Content): Step
    requires WellSized(v)
  {
    if FamilyNumber(FamilyOf(key)) != v.nextFamily then Err(CorruptIndex)
    else
      match key
      case MetadataKey => ObserveMetadata(v, content)
      case RecordKey(record) => ObserveCurrent(v, record, content)
      case VersionKey(record, revision) => ObserveHistory(v, record, revision, content)
      case PairKey(family, _, _) => ObserveSecondary(v, family, content)
      case CurrentPolicyKey => ObservePolicy(v, key, content)
      case PolicyKey(_) => ObservePolicy(v, key, content)
  }

  /** The count checks at the end of a family, and the digest fields that separate families. */
  function CloseFamily(v: State, number: nat): Step
    requires WellSized(v)
  {
    if number == 1 then if v.metadataSeen == 1 then Ok(v) else Err(CorruptIndex)
    else if number == 2 then
      if v.currentSeen == v.counts[0] then Ok(v.(digest := v.digest + [Number(v.counts[0])])) else Err(CorruptIndex)
    else if number == 3 then
      var w :- FlushHistoryGroup(v);
      if w.historySeen != w.counts[1] || w.historyGroups != w.counts[0] then Err(CorruptIndex) else Ok(w)
    else if 4 <= number <= 7 then
      if v.secondarySeen[number - 4] != v.counts[number - 2] then Err(CorruptIndex) else Ok(v)
    else if number == 8 then
      if v.counts[7] == 0 then
        if v.policyCurrentSeen || v.policyHistorySeen != 0 then Err(CorruptIndex)
        else Ok(v.(digest := v.digest + [PolicyFrame(None), Number(0)]))
      else if !v.policyCurrentSeen || v.policyHistorySeen != v.counts[6] then Err(CorruptIndex)
      else Ok(v)
    else Err(CorruptIndex)
  }

  function FinishFamily(v: State, number: nat): Step
    requires WellSized(v)
  {
    if number != v.nextFamily then Err(CorruptIndex)
    else
      var w :- CloseFamily(v, number);
      Ok(w.(nextFamily := w.nextFamily + 1))
  }

  function Finish(v: State): Result<seq<Token>, DiskError> {
    if v.nextFamily != FAMILY_COUNT + 1 then Err(CorruptIndex) else Ok(v.digest)
  }

  lemma ObserveKeepsSizes(v: State, key: Key, content: Content)
    requires WellSized(v) && Observe(v, key, content).Ok?
    ensures WellSized(Observe(v, key, content).value) && Observe(v, key, content).value.nextFamily == v.nextFamily
  {
  }

  lemma FinishKeepsSizes(v: State, number: nat)
    requires WellSized(v) && FinishFamily(v, number).Ok?
    ensures WellSized(FinishFamily(v, number).value)
  {
  }

  /** The validator as an object: every method updates the fields as specified, or fails and is dropped. */
  class MergedGraphStateValidator {
    const scope: nat
    const revision: nat
    const counts: Counts
    var nextFamily: nat
    var digest: seq<Token>
    var metadataSeen: nat
    var currentSeen: nat
    var historySeen: nat
    var historyGroups: nat
    var groupId: Option<nat>
    var groupVersions: nat
    var groupTokens: seq<Token>
    var secondarySeen: seq<nat>
    var policyCurrentSeen: bool
    var policyHistorySeen: nat

    constructor (scope: nat, revision: nat, counts: Counts)
      requires |counts| == SLOTS && New(scope, revision, counts).Ok?
      ensures View() == New(scope, revision, counts).value
    {
      this.scope, this.revision, this.counts := scope, revision, counts;
      nextFamily, digest := 1, [ScopeBytes(scope), Number(revision), Number(counts[0])];
      metadataSeen, currentSeen, historySeen, historyGroups := 0, 0, 0, 0;
      groupId, groupVersions, groupTokens := None, 0, [];
      secondarySeen, policyCurrentSeen, policyHistorySeen := [0, 0, 0, 0], false, 0;
    }

    function View(): State
      reads this
    {
      State(scope, revision, counts, nextFamily, digest, metadataSeen, currentSeen, historySeen, historyGroups,
            groupId, groupVersions, groupTokens, secondarySeen, policyCurrentSeen, policyHistorySeen)
    }

    method Flush() returns (ok: bool)
      modifies this
      ensures ok <==> FlushHistoryGroup(old(View())).Ok?
      ensures ok ==> View() == FlushHistoryGroup(old(View())).value
    {
      if groupId.None? { return true; }
      if groupVersions == 0 { return false; }
      digest := digest + ([Identity(groupId.value), Number(groupVersions)] + groupTokens);
      groupId, groupVersions, groupTokens := None, 0, [];
      historyGroups := historyGroups + 1;
      ok := true;
    }

    method ObserveVersion(record: nat, at: nat, content: Content) returns (ok: bool)
      modifies this
      ensures ok <==> ObserveHistory(old(View()), record, at, content).Ok?
      ensures ok ==> View() == ObserveHistory(old(View()), record, at, content).value
    {
      if !content.RecordContent? || at == 0 || content.value.id != RecordRef(scope, record)
        || content.value.ModifiedRevision() != at || at > revision { return false; }
      if groupId.Some? && groupId.value != record {
        var flushed := Flush();
        if !flushed { return false; }
      }
      groupId := Some(record);
      groupTokens := groupTokens + [RecordFrame(content.value)];
      groupVersions, historySeen := groupVersions + 1, historySeen + 1;
      ok := true;
    }

    method ObservePolicyEntry(key: Key, content: Content) returns (ok: bool)
      requires |counts| == SLOTS
      modifies this
      ensures ok <==> ObservePolicy(old(View()), key, content).Ok?
      ensures ok ==> View() == ObservePolicy(old(View()), key, content).value
    {
      if !content.PolicyContent? || content.policy.scope != scope { return false; }
      match key {
        case CurrentPolicyKey =>
          if counts[7] != 1 || policyCurrentSeen { return false; }
          digest := digest + [PolicyFrame(Some(content.policy)), Number(counts[6])];
          policyCurrentSeen := true;
        case PolicyKey(at) =>
          if !policyCurrentSeen || at == 0 || at > revision { return false; }
          digest := digest + [Number(at), PolicyFrame(Some(content.policy))];
          policyHistorySeen := policyHistorySeen + 1;
        case _ => return false;
      }
      ok := true;
    }

    method ObserveEntry(key: Key, content: Content) returns (ok: bool)
      requires WellSized(View())
      modifies this
      ensures ok <==> Observe(old(View()), key, content).Ok?
      ensures ok ==> View() == Observe(old(View()), key, content).value
    {
      if FamilyNumber(FamilyOf(key)) != nextFamily { return false; }
      match key {
        case MetadataKey =>
          if metadataSeen != 0 || content != MetadataContent(revision, counts) { return false; }
          metadataSeen := 1;
        case RecordKey(record) =>
          if !content.RecordContent? || content.value.id != RecordRef(scope, record)
            || content.value.ModifiedRevision() > revision {
            return false;
          }
          digest := digest + [Identity(record), RecordFrame(content.value)];
          currentSeen := currentSeen + 1;
        case VersionKey(record, at) => ok := ObserveVersion(record, at, content); return;
        case PairKey(family, _, _) =>
          if !ValidSecondary(View(), family, content) { return false; }
          var index := FamilyNumber(family) - 4;
          secondarySeen := secondarySeen[index := secondarySeen[index] + 1];
        case _ => ok := ObservePolicyEntry(key, content); return;
      }
      ok := true;
    }

    method Close(number: nat) returns (ok: bool)
      requires WellSized(View())
      modifies this
      ensures ok <==> FinishFamily(old(View()), number).Ok?
      ensures ok ==> View() == FinishFamily(old(View()), number).value
    {
      if number != nextFamily { return false; }
      if number == 1 {
        if metadataSeen != 1 { return false; }
      } else if number == 2 {
        if currentSeen != counts[0] { return false; }
        digest := digest + [Number(counts[0])];
      } else if number == 3 {
        var flushed := Flush();
        if !flushed || historySeen != counts[1] || historyGroups != counts[0] { return false; }
      } else if 4 <= number <= 7 {
        if secondarySeen[number - 4] != counts[number - 2] { return false; }
      } else if number == 8 {
        if counts[7] == 0 {
          if policyCurrentSeen || policyHistorySeen != 0 { return false; }
          digest := digest + [PolicyFrame(None), Number(0)];
        } else if !policyCurrentSeen || policyHistorySeen != counts[6] { return false; }
      } else {
        return false;
      }
      nextFamily := nextFamily + 1;
      ok := true;
    }
  }
}
