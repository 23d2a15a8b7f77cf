/** Reverse references a record contributes, and the checks its own references must pass
    (crates/uste-graph/src/state.rs:2584-2760, 2863-3051). */
module References {
  import opened Base
  import opened Records

  const REVERSE_KIND_ENTITY := 1
  const REVERSE_KIND_ASSERTION := 2
  const REVERSE_KIND_RELATIONSHIP := 3

  const REVERSE_STATE_ACTIVE := 1
  const REVERSE_STATE_DELETED := 2
  const REVERSE_STATE_PROPOSED := 1
  const REVERSE_STATE_ACCEPTED := 2

  /** One bit of the role mask; a mask is the set of its bits. */
  datatype Role =
    | EntityProperty | AssertionSubject | AssertionObject | RelationshipFrom
    | RelationshipTo | RelationshipProperty | EvidenceRole | CorrectionRole

  datatype ReverseReference = ReverseReference(ownerKind: nat, ownerState: nat, roles: set<Role>,
                                               ownerVersion: nat, ownerRevision: nat)

  datatype Mention = Mention(target: RecordRef, role: Role)

  function Mentions(ids: seq<RecordRef>, role: Role): seq<Mention> {
    seq(|ids|, i requires 0 <= i < |ids| => Mention(ids[i], role))
  }

  function EndpointMentions(body: ClaimBody): seq<Mention> {
    match body
    case AssertionBody(subject, _, _) => [Mention(subject, AssertionSubject)]
    case RelationshipBody(from, to, _, _) => [Mention(from, RelationshipFrom), Mention(to, RelationshipTo)]
  }

  function PayloadRole(body: ClaimBody): Role {
    if body.AssertionBody? then AssertionObject else RelationshipProperty
  }

  /** `visit_record_references`: every mention of another record, with the role it plays. */
  function RecordMentions(r: Record): seq<Mention> {
    match r
    case Entity(_, _, _, _, _, properties, _, _) => Mentions(ValueReferences(properties), EntityProperty)
    case Evidence(_, _, _, _, _) => []
    case Claim(_, _, body, evidence, _, _, correctionOf, _, _) =>
      EndpointMentions(body) + Mentions(ValueReferences(body.Payload()), PayloadRole(body))
      + Mentions(evidence, EvidenceRole)
      + (if correctionOf.Some? then [Mention(correctionOf.value, CorrectionRole)] else [])
  }

  function Roles(r: Record, target: RecordRef): set<Role> {
    set m | m in RecordMentions(r) && m.target == target :: m.role
  }

  function StatusCode(status: Status): nat {
    match status
    case Proposed => 1
    case Accepted => 2
    case Rejected => 3
    case Disputed => 4
    case Superseded => 5
    case Retracted => 6
    case Expired => 7
  }

  /** The descriptor stored for an owner; evidence mentions nothing and never owns one. */
  function Describe(r: Record, roles: set<Role>): ReverseReference {
    match r
    case Entity(_, version, active, _, _, _, _, modified) =>
      ReverseReference(REVERSE_KIND_ENTITY, if active then REVERSE_STATE_ACTIVE
        else REVERSE_STATE_DELETED, roles, version, modified)
    case Claim(_, version, body, _, status, _, _, _, modified) =>
      ReverseReference(if body.AssertionBody? then REVERSE_KIND_ASSERTION else REVERSE_KIND_RELATIONSHIP,
                       StatusCode(status), roles, version, modified)
    case Evidence(_, version, _, _, created) => ReverseReference(0, 0, roles, version, created)
  }

  /** `reverse_reference_for_target`. */
  function ReverseFor(r: Record, target: RecordRef): Option<ReverseReference> {
    if Roles(r, target) == {} then None else Some(Describe(r, Roles(r, target)))
  }

  /** `record_reverse_references`: one descriptor per target, with the roles of all its mentions. */
  function ReverseOf(r: Record): map<RecordRef, ReverseReference> {
    map t | t in (set m | m in RecordMentions(r) :: m.target) :: Describe(r, Roles(r, t))
  }

  lemma ReverseForIsLookup(r: Record, target: RecordRef)
    ensures ReverseFor(r, target) == Lookup(ReverseOf(r), target)
  {
    if target in ReverseOf(r) {
      var m :| m in RecordMentions(r) && m.target == target;
      assert m.role in Roles(r, target);
    }
  }

  function OutgoingOf(r: Record): map<RecordRef, ()> {
    if r.IsClaim(RelationshipKind) && r.status == Accepted then map[r.body.from := ()] else map[]
  }

  function IncomingOf(r: Record): map<RecordRef, ()> {
    if r.IsClaim(RelationshipKind) && r.status == Accepted then map[r.body.to := ()] else map[]
  }

  function ProvenanceOf(r: Record): map<RecordRef, ()> {
    if r.Claim? then map e | e in r.evidence :: () else map[]
  }

  // Checks

  type Check = Result<(), GraphError>

  /** The first failure among `ids`, in order. */
  function FirstFailure(ids: seq<RecordRef>, check: RecordRef -> Check): (r: Check)
    ensures r.Ok? <==> forall id :: id in ids ==> check(id).Ok?
  {
    if ids == [] then Ok(())
    else
      var _ :- check(ids[0]);
      FirstFailure(ids[1..], check)
  }

  lemma {:induction false} FirstFailureAgrees(ids: seq<RecordRef>, f: RecordRef -> Check, g: RecordRef -> Check)
    requires forall id :: id in ids ==> f(id) == g(id)
    ensures FirstFailure(ids, f) == FirstFailure(ids, g)
  {
    if ids != [] {
      FirstFailureAgrees(ids[1..], f, g);
    }
  }

  function CheckScope(scope: nat, id: RecordRef): Check {
    if id.scope == scope then Ok(()) else Err(ScopeMismatch(id))
  }

  function CheckVisible(records: map<RecordRef, Record>, scope: nat, id: RecordRef): Check {
    var _ :- CheckScope(scope, id);
    if id in records && records[id].IsVisible() then Ok(()) else Err(ReferenceNotVisible(id))
  }

  function CheckActive(records: map<RecordRef, Record>, id: RecordRef): Check {
    if id in records && records[id].IsActiveEntity() then Ok(()) else Err(ReferenceNotVisible(id))
  }

  function ValidateValueScope(scope: nat, v: Value): Check {
    FirstFailure(ValueReferences(v), id => CheckScope(scope, id))
  }

  function ValidateValue(records: map<RecordRef, Record>, scope: nat, v: Value): Check {
    FirstFailure(ValueReferences(v), id => CheckVisible(records, scope, id))
  }

  function RequireActive(records: map<RecordRef, Record>, ids: seq<RecordRef>): Check {
    FirstFailure(ids, id => CheckActive(records, id))
  }

  function EvidenceFrom(records: map<RecordRef, Record>, scope: nat, evidence: seq<RecordRef>, i: nat): Check
    requires i <= |evidence|
    decreases |evidence| - i
  {
    if i == |evidence| then Ok(())
    else
      var _ :- CheckScope(scope, evidence[i]);
      if evidence[i] in evidence[..i] then Err(DuplicateEvidence(evidence[i]))
      else if !(evidence[i] in records && records[evidence[i]].Evidence?) then Err(MissingEvidence(evidence[i]))
      else EvidenceFrom(records, scope, evidence, i + 1)
  }

  function ValidateEvidence(records: map<RecordRef, Record>, scope: nat, owner: RecordRef,
      evidence: seq<RecordRef>): Check {
    if evidence == [] then Err(EvidenceRequired(owner)) else EvidenceFrom(records, scope, evidence, 0)
  }

  /** `validate_record`: one record against the records it refers to. */
  function ValidateRecord(scope: nat, id: RecordRef, r: Record, records: map<RecordRef, Record>): Check {
    var _ :- CheckScope(scope, id);
    match r
    case Entity(_, _, active, _, schemaVersion, properties, _, _) =>
      if schemaVersion == 0 then Err(InvalidSchemaVersion(r.id))
      else
        var _ :- ValidateValueScope(scope, properties);
        if active then ValidateValue(records, scope, properties) else Ok(())
    case Evidence(_, _, _, _, _) => Ok(())
    case Claim(_, _, body, evidence, _, validTime, correctionOf, _, _) =>
      var _ :- FirstFailure(body.Endpoints(), e => CheckScope(scope, e));
      var _ :- ValidateValueScope(scope, body.Payload());
      var _ :- ValidateEvidence(records, scope, r.id, evidence);
      if !validTime.IsValid() then Err(InvalidInterval(r.id))
      else
        var _ :- if r.IsLiveClaim() then RequireActive(records, body.Endpoints()) else Ok(());
        var _ :- if r.IsLiveClaim() then ValidateValue(records, scope, body.Payload()) else Ok(());
        if correctionOf.Some? && !(correctionOf.value in records && records[correctionOf.value].IsClaim(body.Kind()))
        then Err(ReferenceNotVisible(correctionOf.value))
        else Ok(())
  }

  // What passing the checks means

  ghost predicate Distinct(ids: seq<RecordRef>) {
    forall i, j :: 0 <= i < j < |ids| ==> ids[i] != ids[j]
  }

  ghost predicate AllInScope(scope: nat, ids: seq<RecordRef>) {
    forall id :: id in ids ==> id.scope == scope
  }

  ghost predicate AllVisible(records: map<RecordRef, Record>, ids: seq<RecordRef>) {
    forall id :: id in ids ==> id in records && records[id].IsVisible()
  }

  ghost predicate AllActive(records: map<RecordRef, Record>, ids: seq<RecordRef>) {
    forall id :: id in ids ==> id in records && records[id].IsActiveEntity()
  }

  ghost predicate AllEvidence(records: map<RecordRef, Record>, ids: seq<RecordRef>) {
    forall id :: id in ids ==> id in records && records[id].Evidence?
  }

  /** The part of validity a record has on its own. */
  ghost predicate WellShaped(scope: nat, r: Record) {
    match r
    case Entity(_, _, _, _, schemaVersion, properties, _, _) =>
      schemaVersion != 0 && AllInScope(scope, ValueReferences(properties))
    case Evidence(_, _, _, _, _) => true
    case Claim(_, _, body, evidence, _, validTime, _, _, _) =>
      && AllInScope(scope, body.Endpoints())
      && AllInScope(scope, ValueReferences(body.Payload()))
      && AllInScope(scope, evidence)
      && evidence != [] && Distinct(evidence)
      && validTime.IsValid()
  }

  /** Referential integrity of one record inside `records`. */
  ghost predicate ReferencesHold(r: Record, records: map<RecordRef, Record>) {
    match r
    case Entity(_, _, active, _, _, properties, _, _) => active ==> AllVisible(records, ValueReferences(properties))
    case Evidence(_, _, _, _, _) => true
    case Claim(_, _, body, evidence, _, _, correctionOf, _, _) =>
      && AllEvidence(records, evidence)
      && (r.IsLiveClaim() ==>
         AllActive(records, body.Endpoints()) && AllVisible(records, ValueReferences(body.Payload())))
      && (correctionOf.Some? ==> correctionOf.value in records && records[correctionOf.value].IsClaim(body.Kind()))
  }

  lemma {:induction false} EvidenceFromMeaning(records: map<RecordRef, Record>, scope: nat, evidence: seq<RecordRef>,
      i: nat)
    requires i <= |evidence|
    requires Distinct(evidence[..i])
    ensures EvidenceFrom(records, scope, evidence, i).Ok?
       <==> AllInScope(scope, evidence[i..]) && AllEvidence(records, evidence[i..]) && Distinct(evidence)
    decreases |evidence| - i
  {
    if i == |evidence| {
      assert evidence[..i] == evidence;
    } else {
      assert evidence[i..] == [evidence[i]] + evidence[i + 1..];
      assert evidence[..i + 1] == evidence[..i] + [evidence[i]];
      if evidence[i] in evidence[..i] {
        var j :| 0 <= j < i && evidence[j] == evidence[i];
        assert !Distinct(evidence);
      } else {
        EvidenceFromMeaning(records, scope, evidence, i + 1);
      }
    }
  }

  /** A record is accepted exactly when it is well shaped, in scope and its references hold. */
  lemma {:induction false} ValidateRecordMeaning(scope: nat, id: RecordRef, r: Record, records: map<RecordRef, Record>)
    ensures ValidateRecord(scope, id, r, records).Ok?
      <==> id.scope == scope && WellShaped(scope, r) && ReferencesHold(r, records)
  {
    if r.Claim? && r.evidence != [] {
      EvidenceFromMeaning(records, scope, r.evidence, 0);
      assert r.evidence[0..] == r.evidence;
    }
  }
}
