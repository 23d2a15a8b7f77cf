/** The graph's record and mutation vocabulary (crates/uste-graph/src/record.rs). */
module Records {
  import opened Base

  const MAX_U64: nat := 0xFFFF_FFFF_FFFF_FFFF

  /** A durable reference: a namespace scope and the record's identity inside it. */
  datatype RecordRef = RecordRef(scope: nat, record: nat)

  predicate Less(a: RecordRef, b: RecordRef) {
    a.scope < b.scope || (a.scope == b.scope && a.record < b.record)
  }

  lemma LessIsStrictOrder()
    ensures StrictOrder(Less)
  {
  }

  /** The ascending identifiers of a `BTreeSet<RecordRef>` or of a `BTreeMap`'s keys. */
  ghost function Sorted(ids: set<RecordRef>): (s: seq<RecordRef>)
    ensures Enumerates(s, ids, Less)
    ensures |s| == |ids|
  {
    LessIsStrictOrder();
    SortBy(ids, Less)
  }

  datatype Value =
    | Leaf(token: nat)
    | Reference(id: RecordRef)
    | ListValue(items: seq<Value>)
    | MapValue(entries: seq<MapEntry>)

  datatype MapEntry = MapEntry(key: nat, value: Value)

  /** Every record a value mentions, in visiting order. */
  function ValueReferences(v: Value): seq<RecordRef> {
    match v
    case Leaf(_) => []
    case Reference(id) => [id]
    case ListValue(items) => ItemReferences(items)
    case MapValue(entries) => EntryReferences(entries)
  }

  function ItemReferences(items: seq<Value>): seq<RecordRef> {
    if items == [] then [] else ValueReferences(items[0]) + ItemReferences(items[1..])
  }

  function EntryReferences(entries: seq<MapEntry>): seq<RecordRef> {
    if entries == [] then [] else EntryReference(entries[0]) + EntryReferences(entries[1..])
  }

  function EntryReference(entry: MapEntry): seq<RecordRef> {
    ValueReferences(entry.value)
  }

  datatype ValidTime = UnknownTime | HalfOpen(start: Option<int>, end: Option<int>) {
    predicate IsValid() {
      HalfOpen? && start.Some? && end.Some? ==> start.value < end.value
    }
  }

  datatype Status = Proposed | Accepted | Rejected | Disputed | Superseded | Retracted | Expired

  datatype Action = Accept | Reject | Dispute | Supersede | Retract | Expire | Correct

  datatype ClaimKind = AssertionKind | RelationshipKind

  /** What an assertion or a relationship says; the two share one life cycle. */
  datatype ClaimBody =
    | AssertionBody(subject: RecordRef, predicateName: string, object_: Value)
    | RelationshipBody(from: RecordRef, to: RecordRef, typeName: string, properties: Value)
  {
    function Kind(): ClaimKind {
      if AssertionBody? then AssertionKind else RelationshipKind
    }
    /** The entities the claim is about. */
    function Endpoints(): seq<RecordRef> {
      match this
      case AssertionBody(subject, _, _) => [subject]
      case RelationshipBody(from, to, _, _) => [from, to]
    }
    function Payload(): Value {
      match this
      case AssertionBody(_, _, object_) => object_
      case RelationshipBody(_, _, _, properties) => properties
    }
  }

  datatype Record =
    | Entity(id: RecordRef, version: nat, active: bool, entityType: string, schemaVersion: nat,
             properties: Value, created: nat, modified: nat)
    | Evidence(id: RecordRef, version: nat, digest: nat, locator: string, created: nat)
    | Claim(id: RecordRef, version: nat, body: ClaimBody, evidence: seq<RecordRef>, status: Status,
            validTime: ValidTime, correctionOf: Option<RecordRef>, recorded: nat, modified: nat)
  {
    function ModifiedRevision(): nat {
      if Evidence? then created else modified
    }
    predicate IsVisible() {
      Entity? ==> active
    }
    predicate IsActiveEntity() {
      Entity? && active
    }
    predicate IsClaim(kind: ClaimKind) {
      Claim? && body.Kind() == kind
    }
    predicate IsLiveClaim() {
      Claim? && (status == Proposed || status == Accepted)
    }
  }

  datatype NewAssertion = NewAssertion(id: RecordRef, subject: RecordRef, predicateName: string, object_: Value,
                                       evidence: seq<RecordRef>, validTime: ValidTime)

  datatype NewRelationship = NewRelationship(id: RecordRef, from: RecordRef, to: RecordRef, typeName: string,
                                             properties: Value, evidence: seq<RecordRef>, validTime: ValidTime)

  /** The common shape of a requested assertion or relationship. */
  datatype NewClaim = NewClaim(id: RecordRef, body: ClaimBody, evidence: seq<RecordRef>, validTime: ValidTime)

  function OfAssertion(a: NewAssertion): NewClaim {
    NewClaim(a.id, AssertionBody(a.subject, a.predicateName, a.object_), a.evidence, a.validTime)
  }

  function OfRelationship(r: NewRelationship): NewClaim {
    NewClaim(r.id, RelationshipBody(r.from, r.to, r.typeName, r.properties), r.evidence, r.validTime)
  }

  datatype NewRecord =
    | NewEntity(id: RecordRef, entityType: string, schemaVersion: nat, properties: Value)
    | NewEvidence(id: RecordRef, digest: nat, locator: string)
    | NewAssertionRecord(assertion: NewAssertion)
    | NewRelationshipRecord(relationship: NewRelationship)
  {
    function Id(): RecordRef {
      match this
      case NewEntity(id, _, _, _) => id
      case NewEvidence(id, _, _) => id
      case NewAssertionRecord(a) => a.id
      case NewRelationshipRecord(r) => r.id
    }
  }

  datatype Predicate =
    | RecordAbsent(record: RecordRef)
    | RecordVisible(record: RecordRef)
    | RecordVersionIs(record: RecordRef, version: nat)

  datatype Expected =
    | Absent
    | AtVersion(version: nat)
    | ReadView(revision: nat, condition: Predicate)

  datatype DeletePolicy = RejectDependents | CascadeAndRetract(maximumAffected: nat)

  datatype Operation =
    | Create(expected: Expected, record: NewRecord)
    | ReplaceEntity(target: RecordRef, expected: Expected, properties: Value)
    | ActOnAssertion(target: RecordRef, expected: Expected, action: Action,
                     assertionCorrection: Option<NewAssertion>, correctionExpected: Option<Expected>)
    | ActOnRelationship(target: RecordRef, expected: Expected, action: Action,
                        relationshipCorrection: Option<NewRelationship>, correctionExpected: Option<Expected>)
    | DeleteEntity(target: RecordRef, expected: Expected, policy: DeletePolicy, affected: seq<RecordRef>)
  {
    function Target(): RecordRef {
      if Create? then record.Id() else target
    }
    predicate IsAct() {
      ActOnAssertion? || ActOnRelationship?
    }
    function ActKind(): ClaimKind {
      if ActOnAssertion? then AssertionKind else RelationshipKind
    }
    /** The replacement claim an action carries, in the shape both kinds share. */
    function Correction(): Option<NewClaim> {
      match this
      case ActOnAssertion(_, _, _, Some(a), _) => Some(OfAssertion(a))
      case ActOnRelationship(_, _, _, Some(r), _) => Some(OfRelationship(r))
      case _ => None
    }
    function CorrectionTarget(): Option<RecordRef> {
      if IsAct() && action == Correct then Some(target) else None
    }
  }

  datatype NamespacePolicy = NamespacePolicy(scope: nat, version: nat, rules: nat)

  datatype PolicyMutation = Install(policy: NamespacePolicy) | Replace(expected: nat, policy: NamespacePolicy)

  datatype Transaction = Transaction(scope: nat, operations: seq<Operation>, policyMutation: Option<PolicyMutation>)

  datatype GraphError =
    | EmptyTransaction
    | TooManyOperations(actual: nat)
    | TooManyReferences(actual: nat)
    | ScopeMismatch(record: RecordRef)
    | TransactionScopeMismatch
    | PreconditionFailed(record: RecordRef)
    | UnknownReadView(revision: nat)
    | PredicateWasFalse(revision: nat)
    | PredicateChanged(revision: nat)
    | RevisionExhausted
    | RevisionMismatch(expectedRevision: nat, actualRevision: nat)
    | RecordVersionExhausted(record: RecordRef)
    | DuplicateMutation(record: RecordRef)
    | AlreadyExists(record: RecordRef)
    | NotFound(record: RecordRef)
    | NotVisible(record: RecordRef)
    | WrongRecordKind(record: RecordRef, expectedKind: Option<ClaimKind>)
    | InvalidInterval(record: RecordRef)
    | InvalidTransition(status: Status, action: Action)
    | CorrectionRequired
    | CorrectionPreconditionRequired
    | UnexpectedCorrection
    | EvidenceRequired(record: RecordRef)
    | DuplicateEvidence(record: RecordRef)
    | MissingEvidence(record: RecordRef)
    | ReferenceNotVisible(record: RecordRef)
    | DeleteRestricted(record: RecordRef, dependents: nat)
    | ProposedClaimBlocksDelete(record: RecordRef, dependents: nat)
    | UncascadeableReferences(record: RecordRef, dependents: nat)
    | CascadeLimitExceeded(actual: nat, maximum: nat)
    | InvalidCascadeDeclaration
    | CascadeDeclarationChanged
    | InvalidSchemaVersion(record: RecordRef)
    | PolicyConflict
    | ResultLimit(actual: nat, maximum: nat)
    | IndexCorrupt(record: RecordRef)
    | ResourceLimit
}
