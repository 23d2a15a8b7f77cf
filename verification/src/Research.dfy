/** Research records and their validation (crates/uste-memory/src/research.rs:88-236, 301-485). */
module Research {
  import opened Base
  import opened ByteStrings
  import opened Formats

  const MAXIMUM_SOURCE_BYTES_PER_VERSION := 16 * 1024 * 1024
  const MAXIMUM_CITATIONS_PER_CLAIM := 16
  const MAXIMUM_ARTIFACT_INPUTS := 16
  const MAXIMUM_CLAIM_FIELD_BYTES := 4096
  const MAXIMUM_EXCERPT_BYTES := 4096
  const MAXIMUM_LOCATOR_TEXT_BYTES := 2048
  const MAXIMUM_LABEL_BYTES := 256
  const MAXIMUM_REASON_BYTES := 1024
  const MAXIMUM_MEDIA_TYPE_BYTES := 256
  const MAXIMUM_REQUEST_BYTES := 1024 * 1024

  const WORD := 0x1_0000_0000_0000_0000
  const MIN_EPOCH_SECONDS := -62_135_596_800
  const MAX_EPOCH_SECONDS := 253_402_300_799
  const MAX_BLOB_BYTES := 16 * 1024 * 1024 * 1024
  const BLOB_CHUNK_BYTES := 1024 * 1024

  // Records

  datatype Scope = Scope(database: Octets, namespace: Octets)

  datatype Ref = Ref(scope: Scope, id: Octets)

  datatype SourceVersion = SourceVersion(source: Ref, version: nat)

  datatype Instant = Instant(seconds: int, nanoseconds: nat)

  datatype Blob = Blob(scope: Scope, id: Octets, byteLen: nat, chunkCount: nat, digest: Octets)

  datatype Content = Content(blob: Blob, mediaType: Octets)

  datatype SourceKind = WebPage | DocPackPage | RepositoryFile | RepositoryManifest | SuppliedDocument

  datatype FetchOutcome = Complete | Partial(reason: Octets) | Truncated(limitBytes: nat) | Inaccessible(reason: Octets)

  datatype Freshness = Pinned | MaxAge(seconds: nat)

  datatype SourceInput = SourceInput(
    id: SourceVersion, kind: SourceKind, locatorText: Octets, versionLabel: Octets, retrievedAt: Instant,
      runIdentity: Octets,
    routeLabel: Octets, outcome: FetchOutcome, content: Option<Content>, licenseLabel: Octets, redistributable: bool,
      freshness: Freshness)

  datatype ArtifactInput = ArtifactInput(
    id: Ref, inputs: seq<SourceVersion>, producerName: Octets, producerRevision: Octets, configurationDigest: Octets,
    content: Option<Content>, completeCoverage: bool, limitations: Octets)

  datatype Locator = ByteRange(start: nat, end: nat) | Utf8Lines(start: nat, end: nat, firstLine: nat, lastLine: nat)

  datatype SupportKind = DirectQuote | Paraphrase | Inference | Unsupported

  datatype Citation = Citation(source: SourceVersion, locator: Locator, excerptDigest: Octets, excerpt: Option<Octets>)

  datatype ClaimInput = ClaimInput(
    id: Ref, subject: Octets, predicateName: Octets, value: Octets, support: SupportKind, citations: seq<Citation>,
    validFrom: Option<Instant>, validUntil: Option<Instant>, corrects: Option<Ref>)

  datatype EdgeKind = Supports | Contradicts | Corrects | DerivedFrom | DependsOn | Documents | Related

  datatype EdgeInput = EdgeInput(
    id: Ref, kind: EdgeKind, from: Ref, to: Ref, assertedBy: Ref, validFrom: Option<Instant>,
      validUntil: Option<Instant>)

  datatype Record =
    | SourceRecord(source: SourceInput)
    | ArtifactRecord(artifact: ArtifactInput)
    | ClaimRecord(claim: ClaimInput)
    | EdgeRecord(edge: EdgeInput)

  // Validation

  type Verdict = Result<(), Fault>

  /** The content hash, any function of the bytes. */
  type Hasher = Octets -> Octets

  function SameScope(scope: Scope, r: Ref): Verdict {
    if r.scope == scope then Ok(()) else Err(OtherScope)
  }

  function BoundedText(value: Octets, maximum: nat, allowEmpty: bool): Verdict {
    if |value| > maximum then Err(OverLimit) else if value == [] && !allowEmpty then Err(Invalid) else Ok(())
  }

  predicate Earlier(a: Instant, b: Instant) {
    a.seconds < b.seconds || (a.seconds == b.seconds && a.nanoseconds < b.nanoseconds)
  }

  function ValidateInterval(from: Option<Instant>, until: Option<Instant>): Verdict {
    if from.Some? && until.Some? && !Earlier(from.value, until.value) then Err(Invalid) else Ok(())
  }

  function ValidateSourceId(scope: Scope, id: SourceVersion): Verdict {
    var _ :- SameScope(scope, id.source);
    if id.version == 0 then Err(Invalid) else Ok(())
  }

  function ValidateContent(scope: Scope, c: Content): Verdict {
    if c.blob.scope != scope then Err(OtherScope)
    else if c.blob.byteLen > MAXIMUM_SOURCE_BYTES_PER_VERSION then Err(OverLimit)
    else BoundedText(c.mediaType, MAXIMUM_MEDIA_TYPE_BYTES, false)
  }

  function ValidateOutcome(scope: Scope, outcome: FetchOutcome, content: Option<Content>): Verdict {
    match (outcome, content)
    case (Inaccessible(reason), None) => BoundedText(reason, MAXIMUM_REASON_BYTES, false)
    case (Inaccessible(_), Some(_)) => Err(Invalid)
    case (_, None) => Err(Invalid)
    case (Complete, Some(c)) => ValidateContent(scope, c)
    case (Partial(reason), Some(c)) =>
      var _ :- BoundedText(reason, MAXIMUM_REASON_BYTES, false);
      ValidateContent(scope, c)
    case (Truncated(limitBytes), Some(c)) =>
      var _ :- ValidateContent(scope, c);
      if limitBytes == 0 || c.blob.byteLen > limitBytes then Err(Invalid) else Ok(())
  }

  function ValidateSource(scope: Scope, s: SourceInput): Verdict {
    var _ :- ValidateSourceId(scope, s.id);
    var _ :- BoundedText(s.locatorText, MAXIMUM_LOCATOR_TEXT_BYTES, false);
    var _ :- BoundedText(s.versionLabel, MAXIMUM_LABEL_BYTES, false);
    var _ :- BoundedText(s.routeLabel, MAXIMUM_LABEL_BYTES, false);
    var _ :- BoundedText(s.licenseLabel, MAXIMUM_LABEL_BYTES, false);
    var _ :- ValidateOutcome(scope, s.outcome, s.content);
    if s.freshness == MaxAge(0) then Err(Invalid) else Ok(())
  }

  predicate SourceLess(a: SourceVersion, b: SourceVersion) {
    var x, y := FromBig(a.source.id), FromBig(b.source.id);
    x < y || (x == y && a.version < b.version)
  }

  /** Inputs in scope and strictly ascending; the first fault found decides. */
  function ValidateInputs(scope: Scope, inputs: seq<SourceVersion>): Verdict {
    if inputs == [] then Ok(())
    else
      var front, last := inputs[..|inputs| - 1], inputs[|inputs| - 1];
      var _ :- ValidateInputs(scope, front);
      var _ :- ValidateSourceId(scope, last);
      if front != [] && !SourceLess(front[|front| - 1], last) then Err(Invalid) else Ok(())
  }

  function ValidateArtifact(scope: Scope, a: ArtifactInput): Verdict {
    var _ :- SameScope(scope, a.id);
    if a.inputs == [] then Err(Invalid)
    else if |a.inputs| > MAXIMUM_ARTIFACT_INPUTS then Err(OverLimit)
    else
      var _ :- ValidateInputs(scope, a.inputs);
      var _ :- BoundedText(a.producerName, MAXIMUM_LABEL_BYTES, false);
      var _ :- BoundedText(a.producerRevision, MAXIMUM_LABEL_BYTES, false);
      var _ :- (if a.content.Some? then ValidateContent(scope, a.content.value) else Ok(()));
      BoundedText(a.limitations, MAXIMUM_REASON_BYTES, true)
  }

  function ValidateLocator(l: Locator): Verdict {
    if l.start < l.end && (l.Utf8Lines? ==> 1 <= l.firstLine <= l.lastLine) then Ok(()) else Err(Invalid)
  }

  function ValidateCitation(scope: Scope, c: Citation, sha: Hasher): Verdict {
    var _ :- ValidateSourceId(scope, c.source);
    var _ :- ValidateLocator(c.locator);
    if c.excerpt.None? then Ok(())
    else
      var _ :- BoundedText(c.excerpt.value, MAXIMUM_EXCERPT_BYTES, false);
      if sha(c.excerpt.value) != c.excerptDigest then Err(Invalid) else Ok(())
  }

  function ValidateCitations(scope: Scope, citations: seq<Citation>, sha: Hasher): Verdict {
    if citations == [] then Ok(())
    else
      var front, last := citations[..|citations| - 1], citations[|citations| - 1];
      var _ :- ValidateCitations(scope, front, sha);
      var _ :- ValidateCitation(scope, last, sha);
      if exists i ::
        0 <= i < |front| && front[i].source == last.source && front[i].locator == last.locator then Err(Invalid)
        else Ok(())
  }

  function ValidateClaim(scope: Scope, c: ClaimInput, sha: Hasher): Verdict {
    var _ :- SameScope(scope, c.id);
    var _ :- BoundedText(c.subject, MAXIMUM_CLAIM_FIELD_BYTES, false);
    var _ :- BoundedText(c.predicateName, MAXIMUM_CLAIM_FIELD_BYTES, false);
    var _ :- BoundedText(c.value, MAXIMUM_CLAIM_FIELD_BYTES, true);
    if |c.citations| > MAXIMUM_CITATIONS_PER_CLAIM then Err(OverLimit)
    else if (c.support == Unsupported) != (c.citations == []) then Err(Invalid)
    else
      var _ :- ValidateCitations(scope, c.citations, sha);
      var _ :- ValidateInterval(c.validFrom, c.validUntil);
      if c.corrects.None? then Ok(())
      else
        var _ :- SameScope(scope, c.corrects.value);
        if c.corrects.value == c.id then Err(Invalid) else Ok(())
  }

  function ValidateEdge(scope: Scope, e: EdgeInput): Verdict {
    var _ :- SameScope(scope, e.id);
    var _ :- SameScope(scope, e.from);
    var _ :- SameScope(scope, e.to);
    var _ :- SameScope(scope, e.assertedBy);
    if e.from == e.to then Err(Invalid) else ValidateInterval(e.validFrom, e.validUntil)
  }

  function Validate(scope: Scope, r: Record, sha: Hasher): Verdict {
    match r
    case SourceRecord(s) => ValidateSource(scope, s)
    case ArtifactRecord(a) => ValidateArtifact(scope, a)
    case ClaimRecord(c) => ValidateClaim(scope, c, sha)
    case EdgeRecord(e) => ValidateEdge(scope, e)
  }
}
