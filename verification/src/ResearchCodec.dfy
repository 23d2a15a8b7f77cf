/** Encoding and decoding whole research records: a bijection between valid records and accepted byte strings
    (crates/uste-memory/src/research.rs:239-299, 860-984). */
module ResearchCodec {
  import opened Base
  import opened ByteStrings
  import opened Formats
  import opened Research
  import opened ResearchFields

  const MAGIC: Octets := [0x55, 0x52, 0x53, 0x4D]
  const FORMAT_MAJOR: Byte := 1
  const FORMAT_MINOR: Byte := 0
  const HEADER_BYTES := 40

  function KindTag(r: Record): Byte {
    match r
    case SourceRecord(_) => 1
    case ArtifactRecord(_) => 2
    case ClaimRecord(_) => 3
    case EdgeRecord(_) => 4
  }

  function Header(scope: Scope, kind: Byte): Octets {
    MAGIC + [FORMAT_MAJOR, FORMAT_MINOR, kind, 0] + scope.database + scope.namespace
  }

  function Body(scope: Scope, r: Record): Octets {
    match r
    case SourceRecord(s) => SourceFormat(scope).enc(s)
    case ArtifactRecord(a) => ArtifactFormat(scope).enc(a)
    case ClaimRecord(c) => ClaimFormat(scope).enc(c)
    case EdgeRecord(e) => EdgeFormat(scope).enc(e)
  }

  /** `encode_research_record`. */
  function Encode(scope: Scope, r: Record, sha: Hasher): Result<Octets, Fault> {
    var _ :- Validate(scope, r, sha);
    var output := Header(scope, KindTag(r)) + Body(scope, r);
    if |output| > MAXIMUM_REQUEST_BYTES then Err(OverLimit) else Ok(output)
  }

  function ReadBody(scope: Scope, kind: nat, bytes: Octets): Decoded<Record> {
    match kind
    case 1 => var s :- SourceFormat(scope).dec(bytes); Ok((SourceRecord(s.0), s.1))
    case 2 => var a :- ArtifactFormat(scope).dec(bytes); Ok((ArtifactRecord(a.0), a.1))
    case 3 => var c :- ClaimFormat(scope).dec(bytes); Ok((ClaimRecord(c.0), c.1))
    case 4 => var e :- EdgeFormat(scope).dec(bytes); Ok((EdgeRecord(e.0), e.1))
    case _ => Err(UnsupportedVersion)
  }

  /** Everything before the body: the kind and the scope. */
  function ReadHeader(input: Octets): Decoded<(nat, Scope)> {
    var magic :- Take(input, 4);
    if magic.0 != MAGIC then Err(UnsupportedVersion)
    else
      var major :- Take(magic.1, 1);
      if major.0 != [FORMAT_MAJOR] then Err(UnsupportedVersion)
      else
        var minor :- Take(major.1, 1);
        if minor.0 != [FORMAT_MINOR] then Err(UnsupportedVersion)
        else
          var kind :- Take(minor.1, 1);
          var reserved :- Take(kind.1, 1);
          if reserved.0 != [0] then Err(Invalid)
          else
            var database :- Take(reserved.1, 16);
            var namespace :- Take(database.1, 16);
            Ok(((kind.0[0] as nat, Scope(database.0, namespace.0)), namespace.1))
  }

  /** `decode_research_record`. */
  function Decode(input: Octets, sha: Hasher): Result<(Scope, Record), Fault> {
    if |input| > MAXIMUM_REQUEST_BYTES then Err(OverLimit)
    else
      var header :- ReadHeader(input);
      var (kind, scope) := header.0;
      var body :- ReadBody(scope, kind, header.1);
      if body.1 != [] then Err(Invalid)
      else
        var _ :- Validate(scope, body.0, sha);
        Ok((scope, body.0))
  }

  // What the field types of the source guarantee

  predicate TypedScope(scope: Scope) {
    |scope.database| == 16 && |scope.namespace| == 16
  }

  predicate TypedSourceId(s: SourceVersion) {
    |s.source.id| == 16 && s.version < 0x1_0000_0000
  }

  predicate TypedContent(c: Content) {
    |c.blob.id| == 16 && |c.blob.digest| == 32 && BlobShape(c.blob) && Utf8(c.mediaType)
  }

  predicate TypedInstant(i: Option<Instant>) {
    i.Some? ==> InstantInRange(i.value)
  }

  predicate TypedOutcome(o: FetchOutcome) {
    match o
    case Complete => true
    case Partial(reason) => Utf8(reason)
    case Truncated(limitBytes) => limitBytes < WORD
    case Inaccessible(reason) => Utf8(reason)
  }

  predicate TypedSource(s: SourceInput) {
    && TypedSourceId(s.id) && Utf8(s.locatorText) && Utf8(s.versionLabel) && InstantInRange(s.retrievedAt)
    && |s.runIdentity| == 16
    && Utf8(s.routeLabel) && TypedOutcome(s.outcome) && (s.content.Some? ==> TypedContent(s.content.value))
    && Utf8(s.licenseLabel)
    && (s.freshness.MaxAge? ==> s.freshness.seconds < WORD)
  }

  predicate TypedArtifact(a: ArtifactInput) {
    && |a.id.id| == 16 && (forall i :: 0 <= i < |a.inputs| ==> TypedSourceId(a.inputs[i]))
    && Utf8(a.producerName) && Utf8(a.producerRevision) && |a.configurationDigest| == 32
    && (a.content.Some? ==> TypedContent(a.content.value)) && Utf8(a.limitations)
  }

  predicate TypedLocator(l: Locator) {
    l.start < WORD && l.end < WORD && (l.Utf8Lines? ==> l.firstLine < 0x1_0000_0000 && l.lastLine < 0x1_0000_0000)
  }

  predicate TypedCitation(c: Citation) {
    TypedSourceId(c.source) && TypedLocator(c.locator) && |c.excerptDigest| == 32
      && (c.excerpt.Some? ==> Utf8(c.excerpt.value))
  }

  predicate TypedClaim(c: ClaimInput) {
    && |c.id.id| == 16 && Utf8(c.subject) && Utf8(c.predicateName) && Utf8(c.value)
    && (forall i :: 0 <= i < |c.citations| ==> TypedCitation(c.citations[i]))
    && TypedInstant(c.validFrom) && TypedInstant(c.validUntil) && (c.corrects.Some? ==> |c.corrects.value.id| == 16)
  }

  predicate TypedEdge(e: EdgeInput) {
    && |e.id.id| == 16 && |e.from.id| == 16 && |e.to.id| == 16 && |e.assertedBy.id| == 16
    && TypedInstant(e.validFrom) && TypedInstant(e.validUntil)
  }

  predicate Typed(r: Record) {
    match r
    case SourceRecord(s) => TypedSource(s)
    case ArtifactRecord(a) => TypedArtifact(a)
    case ClaimRecord(c) => TypedClaim(c)
    case EdgeRecord(e) => TypedEdge(e)
  }

  predicate Fits(scope: Scope, r: Record) {
    match r
    case SourceRecord(s) => SourceFormat(scope).fits(s)
    case ArtifactRecord(a) => ArtifactFormat(scope).fits(a)
    case ClaimRecord(c) => ClaimFormat(scope).fits(c)
    case EdgeRecord(e) => EdgeFormat(scope).fits(e)
  }

  // Valid, well-typed records fit the format

  lemma SourceIdFits(scope: Scope, s: SourceVersion)
    ensures SourceIdFormat(scope).fits(s) <==> TypedSourceId(s) && s.source.scope == scope
  {
    Widths();
  }

  lemma TextFits(x: Octets, maximum: nat)
    requires maximum < 0x1_0000_0000
    ensures Text(maximum).fits(x) <==> |x| <= maximum && Utf8(x)
  {
    hide Utf8;
    Widths();
  }

  lemma ContentFits(scope: Scope, c: Content)
    ensures ContentFormat(scope).fits(c)
      <==> TypedContent(c) && c.blob.scope == scope && |c.mediaType| <= MAXIMUM_MEDIA_TYPE_BYTES
  {
    hide Utf8, BlobShape, Text;
    TextFits(c.mediaType, MAXIMUM_MEDIA_TYPE_BYTES);
  }

  lemma OutcomeFits(o: FetchOutcome)
    ensures OutcomeFormat().fits(o)
      <==> TypedOutcome(o) && (o.Partial? || o.Inaccessible? ==> |o.reason| <= MAXIMUM_REASON_BYTES)
  {
    hide Utf8, Text, Pow256;
    Widths();
    TaggedFits(OutcomeArm, OutcomeTag, o);
    assert OutcomeArm(OutcomeTag(o)).Some?;
    if o.Partial? || o.Inaccessible? { TextFits(o.reason, MAXIMUM_REASON_BYTES); }
  }

  lemma FreshnessFits(f: Freshness)
    ensures FreshnessFormat().fits(f) <==> (f.MaxAge? ==> f.seconds < WORD)
  {
    hide Pow256;
    Widths();
    TaggedFits(FreshnessArm, FreshnessTag, f);
    assert FreshnessArm(FreshnessTag(f)).Some?;
  }

  lemma LocatorFits(l: Locator)
    ensures LocatorFormat().fits(l) <==> TypedLocator(l)
  {
    hide Pow256;
    Widths();
    TaggedFits(LocatorArm, LocatorTag, l);
    assert LocatorArm(LocatorTag(l)).Some?;
  }

  lemma EnumFits<T>(values: seq<T>, tagOf: T -> nat, x: T)
    requires |values| < 256 && 1 <= tagOf(x) <= |values| && values[tagOf(x) - 1] == x
    ensures Enum(values, tagOf).fits(x)
  {
  }

  lemma InstantsFit(i: Option<Instant>)
    ensures Optional(InstantFormat()).fits(i) <==> TypedInstant(i)
  {
    hide Optional;
    OptionalFits(InstantFormat(), i);
  }

  predicate ContentInBounds(scope: Scope, c: Option<Content>) {
    c.Some? ==> c.value.blob.scope == scope && |c.value.mediaType| <= MAXIMUM_MEDIA_TYPE_BYTES
  }

  predicate OutcomeInBounds(o: FetchOutcome) {
    o.Partial? || o.Inaccessible? ==> |o.reason| <= MAXIMUM_REASON_BYTES
  }

  predicate SourceInBounds(scope: Scope, s: SourceInput) {
    && s.id.source.scope == scope && |s.locatorText| <= MAXIMUM_LOCATOR_TEXT_BYTES
    && |s.versionLabel| <= MAXIMUM_LABEL_BYTES
    && |s.routeLabel| <= MAXIMUM_LABEL_BYTES && OutcomeInBounds(s.outcome) && ContentInBounds(scope, s.content)
    && |s.licenseLabel| <= MAXIMUM_LABEL_BYTES
  }

  lemma OptionalContentFits(scope: Scope, c: Option<Content>)
    ensures Optional(ContentFormat(scope)).fits(c) <==> (c.Some? ==> TypedContent(c.value)) && ContentInBounds(scope, c)
  {
    hide Optional, ContentFormat, TypedContent;
    OptionalFits(ContentFormat(scope), c);
    if c.Some? { ContentFits(scope, c.value); }
  }

  lemma {:induction false} SourceTailFits(scope: Scope, s: SourceInput)
    ensures SourceTailFormat(scope).fits((s.routeLabel,
      (s.outcome, (s.content, (s.licenseLabel, (s.redistributable, s.freshness))))))
       <==> && Utf8(s.routeLabel) && |s.routeLabel| <= MAXIMUM_LABEL_BYTES && TypedOutcome(s.outcome)
            && OutcomeInBounds(s.outcome)
            && (s.content.Some? ==> TypedContent(s.content.value)) && ContentInBounds(scope, s.content)
            && Utf8(s.licenseLabel) && |s.licenseLabel| <= MAXIMUM_LABEL_BYTES
            && (s.freshness.MaxAge? ==> s.freshness.seconds < WORD)
  {
    hide Utf8, Text, OutcomeFormat, TypedOutcome, OutcomeInBounds, Optional, ContentFormat, TypedContent,
         ContentInBounds, FreshnessFormat, Flag;
    TextFits(s.routeLabel, MAXIMUM_LABEL_BYTES);
    OutcomeFits(s.outcome);
    OutcomeBounds(s.outcome);
    OptionalContentFits(scope, s.content);
    TextFits(s.licenseLabel, MAXIMUM_LABEL_BYTES);
    FlagFits(s.redistributable);
    FreshnessFits(s.freshness);
  }

  lemma OutcomeBounds(o: FetchOutcome)
    ensures OutcomeInBounds(o) <==> (o.Partial? || o.Inaccessible? ==> |o.reason| <= MAXIMUM_REASON_BYTES)
  {
  }

  lemma FlagFits(b: bool)
    ensures Flag().fits(b)
  {
    FlagLawful();
  }

  lemma PresentFits(i: Instant)
    ensures PresentInstant().fits(i) <==> InstantInRange(i)
  {
  }

  lemma KindsFit(a: SourceKind, b: SupportKind, c: EdgeKind)
    ensures Enum(SourceKinds(), SourceKindTag).fits(a) && Enum(SupportKinds(), SupportTag).fits(b)
      && Enum(EdgeKinds(), EdgeTag).fits(c)
  {
    hide Enum;
    EnumFits(SourceKinds(), SourceKindTag, a);
    EnumFits(SupportKinds(), SupportTag, b);
    EnumFits(EdgeKinds(), EdgeTag, c);
  }

  /** What the source format can hold: everything the field types allow, in scope and within the limits. */
  lemma {:induction false} SourceFits(scope: Scope, s: SourceInput)
    ensures SourceFormat(scope).fits(s) <==> TypedSource(s) && SourceInBounds(scope, s)
  {
    hide Utf8, Text, SourceTailFormat, TypedOutcome, OutcomeInBounds, TypedContent, ContentInBounds, SourceIdFormat,
         PresentInstant, Enum, InstantInRange, TypedSourceId;
    SourceIdFits(scope, s.id);
    KindsFit(s.kind, DirectQuote, Supports);
    TextFits(s.locatorText, MAXIMUM_LOCATOR_TEXT_BYTES);
    TextFits(s.versionLabel, MAXIMUM_LABEL_BYTES);
    PresentFits(s.retrievedAt);
    SourceTailFits(scope, s);
  }

  lemma {:induction false} ValidSourceInBounds(scope: Scope, s: SourceInput)
    requires ValidateSource(scope, s).Ok?
    ensures SourceInBounds(scope, s)
  {
  }

  predicate ArtifactInBounds(scope: Scope, a: ArtifactInput) {
    && a.id.scope == scope && |a.inputs| <= MAXIMUM_ARTIFACT_INPUTS
    && (forall i :: 0 <= i < |a.inputs| ==> a.inputs[i].source.scope == scope)
    && |a.producerName| <= MAXIMUM_LABEL_BYTES && |a.producerRevision| <= MAXIMUM_LABEL_BYTES
    && ContentInBounds(scope, a.content) && |a.limitations| <= MAXIMUM_REASON_BYTES
  }

  lemma {:induction false} InputsFit(scope: Scope, inputs: seq<SourceVersion>)
    ensures Counted(SourceIdFormat(scope), MAXIMUM_ARTIFACT_INPUTS).fits(inputs)
       <==> |inputs| <= MAXIMUM_ARTIFACT_INPUTS && forall i :: 0 <= i < |inputs| ==>
         TypedSourceId(inputs[i]) && inputs[i].source.scope == scope
  {
    hide Pow256, SourceIdFormat, TypedSourceId;
    Widths();
    forall i | 0 <= i < |inputs|
      ensures SourceIdFormat(scope).fits(inputs[i]) <==> TypedSourceId(inputs[i]) && inputs[i].source.scope == scope
    {
      SourceIdFits(scope, inputs[i]);
    }
  }

  lemma {:induction false} ArtifactFits(scope: Scope, a: ArtifactInput)
    ensures ArtifactFormat(scope).fits(a) <==> TypedArtifact(a) && ArtifactInBounds(scope, a)
  {
    hide Utf8, Text, Counted, Optional, ContentFormat, TypedContent, ContentInBounds, SourceIdFormat, Flag,
         TypedSourceId;
    InputsFit(scope, a.inputs);
    TextFits(a.producerName, MAXIMUM_LABEL_BYTES);
    TextFits(a.producerRevision, MAXIMUM_LABEL_BYTES);
    OptionalContentFits(scope, a.content);
    FlagFits(a.completeCoverage);
    TextFits(a.limitations, MAXIMUM_REASON_BYTES);
  }

  lemma {:induction false} ValidInputs(scope: Scope, inputs: seq<SourceVersion>)
    requires ValidateInputs(scope, inputs).Ok?
    ensures forall i :: 0 <= i < |inputs| ==> inputs[i].source.scope == scope
    decreases |inputs|
  {
    if inputs != [] { ValidInputs(scope, inputs[..|inputs| - 1]); }
  }

  lemma {:induction false} ValidArtifactInBounds(scope: Scope, a: ArtifactInput)
    requires ValidateArtifact(scope, a).Ok?
    ensures ArtifactInBounds(scope, a)
  {
    hide ValidateInputs;
    ValidInputs(scope, a.inputs);
  }

  predicate CitationInBounds(scope: Scope, c: Citation) {
    c.source.source.scope == scope && (c.excerpt.Some? ==> |c.excerpt.value| <= MAXIMUM_EXCERPT_BYTES)
  }

  lemma {:induction false} CitationFits(scope: Scope, c: Citation)
    ensures CitationFormat(scope).fits(c) <==> TypedCitation(c) && CitationInBounds(scope, c)
  {
    hide Utf8, Text, Optional, SourceIdFormat, LocatorFormat, TypedSourceId, TypedLocator;
    SourceIdFits(scope, c.source);
    LocatorFits(c.locator);
    OptionalFits(Text(MAXIMUM_EXCERPT_BYTES), c.excerpt);
    if c.excerpt.Some? { TextFits(c.excerpt.value, MAXIMUM_EXCERPT_BYTES); }
  }

  predicate ClaimInBounds(scope: Scope, c: ClaimInput) {
    && c.id.scope == scope && |c.subject| <= MAXIMUM_CLAIM_FIELD_BYTES && |c.predicateName| <= MAXIMUM_CLAIM_FIELD_BYTES
    && |c.value| <= MAXIMUM_CLAIM_FIELD_BYTES
    && |c.citations| <= MAXIMUM_CITATIONS_PER_CLAIM
    && (forall i :: 0 <= i < |c.citations| ==> CitationInBounds(scope, c.citations[i]))
    && (c.corrects.Some? ==> c.corrects.value.scope == scope)
  }

  lemma {:induction false} CitationsFit(scope: Scope, citations: seq<Citation>)
    ensures Counted(CitationFormat(scope), MAXIMUM_CITATIONS_PER_CLAIM).fits(citations)
       <==> |citations| <= MAXIMUM_CITATIONS_PER_CLAIM && forall i :: 0 <= i < |citations| ==>
         TypedCitation(citations[i]) && CitationInBounds(scope, citations[i])
  {
    hide Pow256, CitationFormat, TypedCitation, CitationInBounds;
    Widths();
    forall i | 0 <= i < |citations|
      ensures CitationFormat(scope).fits(citations[i])
        <==> TypedCitation(citations[i]) && CitationInBounds(scope, citations[i])
    {
      CitationFits(scope, citations[i]);
    }
  }

  lemma {:induction false} ClaimFits(scope: Scope, c: ClaimInput)
    ensures ClaimFormat(scope).fits(c) <==> TypedClaim(c) && ClaimInBounds(scope, c)
  {
    hide Utf8, Text, Counted, Optional, CitationFormat, TypedCitation, CitationInBounds, InstantFormat, Enum,
         TypedInstant;
    TextFits(c.subject, MAXIMUM_CLAIM_FIELD_BYTES);
    TextFits(c.predicateName, MAXIMUM_CLAIM_FIELD_BYTES);
    TextFits(c.value, MAXIMUM_CLAIM_FIELD_BYTES);
    KindsFit(WebPage, c.support, Supports);
    CitationsFit(scope, c.citations);
    InstantsFit(c.validFrom);
    InstantsFit(c.validUntil);
    OptionalFits(RefFormat(scope), c.corrects);
  }

  lemma {:induction false} ValidCitations(scope: Scope, citations: seq<Citation>, sha: Hasher)
    requires ValidateCitations(scope, citations, sha).Ok?
    ensures forall i :: 0 <= i < |citations| ==> CitationInBounds(scope, citations[i])
    decreases |citations|
  {
    if citations != [] { ValidCitations(scope, citations[..|citations| - 1], sha); }
  }

  lemma {:induction false} ValidClaimInBounds(scope: Scope, c: ClaimInput, sha: Hasher)
    requires ValidateClaim(scope, c, sha).Ok?
    ensures ClaimInBounds(scope, c)
  {
    hide ValidateCitations, CitationInBounds;
    ValidCitations(scope, c.citations, sha);
  }

  predicate EdgeInBounds(scope: Scope, e: EdgeInput) {
    e.id.scope == scope && e.from.scope == scope && e.to.scope == scope && e.assertedBy.scope == scope
  }

  lemma {:induction false} EdgeFits(scope: Scope, e: EdgeInput)
    ensures EdgeFormat(scope).fits(e) <==> TypedEdge(e) && EdgeInBounds(scope, e)
  {
    hide Optional, InstantFormat, Enum, TypedInstant;
    KindsFit(WebPage, DirectQuote, e.kind);
    InstantsFit(e.validFrom);
    InstantsFit(e.validUntil);
  }

  /** A valid record whose fields have their types fits its format. */
  lemma {:induction false} ValidFits(scope: Scope, r: Record, sha: Hasher)
    requires Typed(r) && Validate(scope, r, sha).Ok?
    ensures Fits(scope, r)
  {
    hide SourceFormat, ArtifactFormat, ClaimFormat, EdgeFormat, ValidateSource, ValidateArtifact, ValidateClaim,
         TypedSource, TypedArtifact, TypedClaim, TypedEdge;
    match r
    case SourceRecord(s) => ValidSourceInBounds(scope, s); SourceFits(scope, s);
    case ArtifactRecord(a) => ValidArtifactInBounds(scope, a); ArtifactFits(scope, a);
    case ClaimRecord(c) => ValidClaimInBounds(scope, c, sha); ClaimFits(scope, c);
    case EdgeRecord(e) => EdgeFits(scope, e);
  }

  lemma {:induction false} FitsIsTyped(scope: Scope, r: Record)
    requires Fits(scope, r)
    ensures Typed(r)
  {
    hide SourceFormat, ArtifactFormat, ClaimFormat, EdgeFormat, TypedSource, TypedArtifact, TypedClaim, TypedEdge;
    match r
    case SourceRecord(s) => SourceFits(scope, s);
    case ArtifactRecord(a) => ArtifactFits(scope, a);
    case ClaimRecord(c) => ClaimFits(scope, c);
    case EdgeRecord(e) => EdgeFits(scope, e);
  }

  // The bijection

  lemma HeaderReads(scope: Scope, kind: Byte, rest: Octets)
    requires TypedScope(scope)
    ensures |Header(scope, kind)| == HEADER_BYTES
      && ReadHeader(Header(scope, kind) + rest) == Ok(((kind as nat, scope), rest))
  {
    var db, ns := scope.database, scope.namespace;
    var a, b, c, d := [FORMAT_MAJOR], [FORMAT_MINOR], [kind], [0 as Byte];
    var input := Header(scope, kind) + rest;
    assert input == MAGIC + (a + (b + (c + (d + (db + (ns + rest))))));
    Taken(MAGIC, a + (b + (c + (d + (db + (ns + rest))))));
    Taken(a, b + (c + (d + (db + (ns + rest)))));
    Taken(b, c + (d + (db + (ns + rest))));
    Taken(c, d + (db + (ns + rest)));
    Taken(d, db + (ns + rest));
    Taken(db, ns + rest);
    Taken(ns, rest);
  }

  lemma {:induction false} HeaderRestores(input: Octets)
    requires ReadHeader(input).Ok?
    ensures var ((kind, scope), rest) := ReadHeader(input).value;
      kind < 256 && TypedScope(scope) && input == Header(scope, kind as Byte) + rest
  {
    var magic, t1 := input[..4], input[4..];
    var t2, t3, t4, t5 := t1[1..], t1[2..], t1[3..], t1[4..];
    assert t2[1..] == t3 && t3[1..] == t4 && t4[1..] == t5;
    var kind := t3[0];
    assert t1[..1] == [t1[0]] && t2[..1] == [t2[0]] && t3[..1] == [t3[0]] && t4[..1] == [t4[0]];
    assert t1 == [FORMAT_MAJOR, FORMAT_MINOR, kind, 0] + t5;
    var db, t6 := t5[..16], t5[16..];
    var ns, rest := t6[..16], t6[16..];
    assert t5 == db + ns + rest;
    assert input == MAGIC + [FORMAT_MAJOR, FORMAT_MINOR, kind, 0] + db + ns + rest;
  }

  lemma {:induction false} BodyReads(scope: Scope, r: Record)
    requires Fits(scope, r)
    ensures ReadBody(scope, KindTag(r) as nat, Body(scope, r)) == Ok((r, [])) && |Body(scope, r)| <= 79210
  {
    hide SourceFormat, ArtifactFormat, ClaimFormat, EdgeFormat;
    var body := Body(scope, r);
    assert body + [] == body;
    match r
    case SourceRecord(s) => SourceLawful(scope); assert WritesOne(SourceFormat(scope), s, []);
    case ArtifactRecord(a) => ArtifactLawful(scope); assert WritesOne(ArtifactFormat(scope), a, []);
    case ClaimRecord(c) => ClaimLawful(scope); assert WritesOne(ClaimFormat(scope), c, []);
    case EdgeRecord(e) => EdgeLawful(scope); assert WritesOne(EdgeFormat(scope), e, []);
  }

  lemma {:induction false} BodyRestores(scope: Scope, kind: Byte, bytes: Octets)
    requires ReadBody(scope, kind as nat, bytes).Ok? && ReadBody(scope, kind as nat, bytes).value.1 == []
    ensures var r := ReadBody(scope, kind as nat, bytes).value.0;
      KindTag(r) == kind && Fits(scope, r) && Body(scope, r) == bytes
  {
    hide SourceFormat, ArtifactFormat, ClaimFormat, EdgeFormat;
    SourceLawful(scope);
    ArtifactLawful(scope);
    ClaimLawful(scope);
    EdgeLawful(scope);
    assert ReadsOne(SourceFormat(scope), bytes) && ReadsOne(ArtifactFormat(scope), bytes)
      && ReadsOne(ClaimFormat(scope), bytes) && ReadsOne(EdgeFormat(scope), bytes);
    var body := Body(scope, ReadBody(scope, kind as nat, bytes).value.0);
    assert body + [] == body;
  }

  /** Every valid record encodes, never too large, and decodes back to itself. */
  lemma {:induction false} ValidRecordsRoundTrip(scope: Scope, r: Record, sha: Hasher)
    requires TypedScope(scope) && Typed(r) && Validate(scope, r, sha).Ok?
    ensures Encode(scope, r, sha).Ok? && Decode(Encode(scope, r, sha).value, sha) == Ok((scope, r))
  {
    hide Fits, Typed, Validate, Header, Body, ReadHeader, ReadBody;
    ValidFits(scope, r, sha);
    BodyReads(scope, r);
    HeaderReads(scope, KindTag(r), Body(scope, r));
  }

  /** Every accepted byte string is the encoding of the record it decodes to, so each record has one byte form. */
  lemma {:induction false} AcceptedBytesAreCanonical(input: Octets, sha: Hasher)
    requires Decode(input, sha).Ok?
    ensures var (scope, r) := Decode(input, sha).value;
      TypedScope(scope) && Typed(r) && Validate(scope, r, sha).Ok? && Encode(scope, r, sha) == Ok(input)
  {
    hide Fits, Typed, Validate, Header, Body, ReadHeader, ReadBody;
    HeaderRestores(input);
    var header := ReadHeader(input).value;
    var (kind, scope) := header.0;
    BodyRestores(scope, kind as Byte, header.1);
    FitsIsTyped(scope, ReadBody(scope, kind, header.1).value.0);
  }

  // The cursor

  class Cursor {
    const input: Octets
    var offset: nat

    ghost predicate Valid()
      reads this
    {
      offset <= |input|
    }

    function Rest(): Octets
      requires offset <= |input|
      reads this
    {
      input[offset..]
    }

    constructor (bytes: Octets)
      ensures Valid() && input == bytes && Rest() == bytes
    {
      input, offset := bytes, 0;
    }

    method TakeBytes(count: nat) returns (r: Result<Octets, Fault>)
      requires Valid()
      modifies this
      ensures Valid() && r.Ok? == Take(old(Rest()), count).Ok?
      ensures r.Ok? ==> Take(old(Rest()), count) == Ok((r.value, Rest()))
      ensures r.Err? ==> r.error == Invalid && unchanged(this)
    {
      if offset + count > |input| { return Err(Invalid); }
      assert Rest()[..count] == input[offset..offset + count] && Rest()[count..] == input[offset + count..];
      r := Ok(input[offset..offset + count]);
      offset := offset + count;
    }

    method NextNumber(width: nat) returns (r: Result<nat, Fault>)
      requires Valid()
      modifies this
      ensures Valid() && ReadNumber(old(Rest()), width) == if r.Ok? then Ok((r.value, Rest())) else Err(r.error)
    {
      var bytes := TakeBytes(width);
      if bytes.Err? { return Err(bytes.error); }
      r := Ok(FromBig(bytes.value));
    }

    method NextText(maximum: nat) returns (r: Result<Octets, Fault>)
      requires Valid()
      modifies this
      ensures Valid() && ReadText(old(Rest()), maximum) == if r.Ok? then Ok((r.value, Rest())) else Err(r.error)
    {
      hide Utf8;
      var length := NextNumber(4);
      if length.Err? { return Err(length.error); }
      if length.value > maximum { return Err(OverLimit); }
      var bytes := TakeBytes(length.value);
      if bytes.Err? { return Err(bytes.error); }
      if !Utf8(bytes.value) { return Err(Invalid); }
      r := Ok(bytes.value);
    }

    method NextSourceId(scope: Scope) returns (r: Result<SourceVersion, Fault>)
      requires Valid()
      modifies this
      ensures Valid() && SourceIdFormat(scope).dec(old(Rest())) == if r.Ok? then Ok((r.value, Rest())) else Err(r.error)
    {
      var id := TakeBytes(16);
      if id.Err? { return Err(id.error); }
      var version := NextNumber(4);
      if version.Err? { return Err(version.error); }
      r := Ok(SourceVersion(Ref(scope, id.value), version.value));
    }

    /** The counted loop over an artifact's inputs. */
    method NextInputs(scope: Scope) returns (r: Result<seq<SourceVersion>, Fault>)
      requires Valid()
      modifies this
      ensures Valid()
      ensures ReadCounted(SourceIdFormat(scope), MAXIMUM_ARTIFACT_INPUTS, old(Rest())) == if r.Ok?
        then Ok((r.value, Rest())) else Err(r.error)
    {
      hide SourceIdFormat;
      var count := NextNumber(2);
      if count.Err? { return Err(count.error); }
      if count.value > MAXIMUM_ARTIFACT_INPUTS { return Err(OverLimit); }
      ghost var start := Rest();
      var inputs: seq<SourceVersion> := [];
      ContinueNothing(ReadEach(SourceIdFormat(scope), count.value, start));
      for k := 0 to count.value
        invariant Valid()
        invariant ReadEach(SourceIdFormat(scope), count.value, start)
          == Continue(inputs, ReadEach(SourceIdFormat(scope), count.value - k, Rest()))
      {
        ContinueStep(SourceIdFormat(scope), inputs, count.value - k, Rest());
        var input := NextSourceId(scope);
        if input.Err? { return Err(input.error); }
        inputs := inputs + [input.value];
      }
      assert inputs + [] == inputs;
      r := Ok(inputs);
    }
  }

  /** What a list read so far becomes once the rest is read. */
  function Continue<T>(done: seq<T>, rest: Decoded<seq<T>>): Decoded<seq<T>> {
    var more :- rest;
    Ok((done + more.0, more.1))
  }

  lemma ContinueNothing<T>(rest: Decoded<seq<T>>)
    ensures Continue([], rest) == rest
  {
    if rest.Ok? { assert [] + rest.value.0 == rest.value.0; }
  }

  lemma ContinueStep<T>(f: Format<T>, done: seq<T>, count: nat, bytes: Octets)
    requires count > 0
    ensures Continue(done, ReadEach(f, count, bytes))
         == if f.dec(bytes).Ok?
           then Continue(done + [f.dec(bytes).value.0], ReadEach(f, count - 1, f.dec(bytes).value.1))
           else Err(f.dec(bytes).error)
  {
    if f.dec(bytes).Ok? && ReadEach(f, count - 1, f.dec(bytes).value.1).Ok? {
      var first, others := f.dec(bytes).value.0, ReadEach(f, count - 1, f.dec(bytes).value.1).value.0;
      assert done + ([first] + others) == (done + [first]) + others;
    }
  }
}
