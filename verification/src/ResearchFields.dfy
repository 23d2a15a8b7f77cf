/** The byte form of every research record, as two-way formats (crates/uste-memory/src/research.rs:492-984). */
module ResearchFields {
  import opened Base
  import opened ByteStrings
  import opened Formats
  import opened Research

  // Field formats

  function RefView(scope: Scope): View<Octets, Ref> {
    View(id => Ok(Ref(scope, id)), (r: Ref) => r.id, (r: Ref) => r.scope == scope && |r.id| == 16)
  }

  function RefFormat(scope: Scope): Format<Ref> {
    Mapped(Fixed(16), RefView(scope))
  }

  lemma RefLawful(scope: Scope)
    ensures Lawful(RefFormat(scope)) && Bounded(RefFormat(scope), 16)
  {
    hide Lawful, Bounded;
    FixedLawful(16);
    MappedLawful(Fixed(16), RefView(scope), 16);
  }

  function SourceIdView(scope: Scope): View<(Ref, nat), SourceVersion> {
    View((p: (Ref, nat)) => Ok(SourceVersion(p.0, p.1)), (s: SourceVersion) => (s.source, s.version),
         (s: SourceVersion) => RefFormat(scope).fits(s.source) && s.version < Pow256(4))
  }

  function SourceIdFormat(scope: Scope): Format<SourceVersion> {
    Mapped(Pair(RefFormat(scope), Number(4)), SourceIdView(scope))
  }

  lemma SourceIdLawful(scope: Scope)
    ensures Lawful(SourceIdFormat(scope)) && Bounded(SourceIdFormat(scope), 20)
  {
    hide Lawful, Bounded, Pow256, RefFormat;
    RefLawful(scope);
    NumberLawful(4);
    PairLawful(RefFormat(scope), Number(4), 16, 4);
    MappedLawful(Pair(RefFormat(scope), Number(4)), SourceIdView(scope), 20);
  }

  // Instants: signed seconds in two's complement, then nanoseconds

  predicate InstantInRange(i: Instant) {
    MIN_EPOCH_SECONDS <= i.seconds <= MAX_EPOCH_SECONDS && i.nanoseconds <= 999_999_999
  }

  function Signed(n: nat): int {
    if n < WORD / 2 then n else n - WORD
  }

  /** `UtcInstant::new`. */
  function ReadInstant(p: (nat, nat)): Result<Instant, Fault> {
    var i := Instant(Signed(p.0), p.1);
    if InstantInRange(i) then Ok(i) else Err(Invalid)
  }

  function WriteInstant(i: Instant): (nat, nat) {
    (if 0 <= i.seconds then i.seconds else if i.seconds + WORD >= 0 then i.seconds + WORD else 0, i.nanoseconds)
  }

  function InstantView(): View<(nat, nat), Instant> {
    View(ReadInstant, WriteInstant, (i: Instant) => InstantInRange(i))
  }

  function InstantFormat(): Format<Instant> {
    Mapped(Pair(Number(8), Number(4)), InstantView())
  }

  lemma InstantWritten(i: Instant)
    requires InstantInRange(i)
    ensures WriteInstant(i).0 < WORD && Signed(WriteInstant(i).0) == i.seconds
  {
  }

  lemma InstantExact()
    ensures Exact(Pair(Number(8), Number(4)), InstantView())
  {
    hide Pow256, WriteInstant, Signed;
    Widths();
    var f, v := Pair(Number(8), Number(4)), InstantView();
    forall i: Instant | v.fits(i) ensures f.fits(v.from(i)) && v.to(v.from(i)) == Ok(i) {
      InstantWritten(i);
      assert WriteInstant(i).1 == i.nanoseconds by { InstantNanoseconds(i); }
    }
    forall p: (nat, nat) | f.fits(p) && v.to(p).Ok?
      ensures v.fits(v.to(p).value) && v.from(v.to(p).value) == p
    {
      InstantRestored(p);
    }
  }

  lemma InstantNanoseconds(i: Instant)
    ensures WriteInstant(i).1 == i.nanoseconds
  {
  }

  lemma InstantRestored(p: (nat, nat))
    requires p.0 < WORD
    ensures WriteInstant(Instant(Signed(p.0), p.1)) == p
  {
  }

  lemma InstantLawful()
    ensures Lawful(InstantFormat()) && Bounded(InstantFormat(), 12)
  {
    hide Lawful, Bounded, Pow256, Exact;
    InstantExact();
    NumberLawful(8);
    NumberLawful(4);
    PairLawful(Number(8), Number(4), 8, 4);
    MappedLawful(Pair(Number(8), Number(4)), InstantView(), 12);
  }

  lemma OptionalInstantLawful()
    ensures Lawful(Optional(InstantFormat())) && Bounded(Optional(InstantFormat()), 13)
  {
    hide Lawful, Bounded, InstantFormat;
    InstantLawful();
    OptionalLawful(InstantFormat(), 12);
  }

  /** The instant of retrieval carries a presence byte that must be set. */
  function PresentView(): View<Option<Instant>, Instant> {
    View((o: Option<Instant>) => if o.Some? then Ok(o.value)
      else Err(Invalid), (i: Instant) => Some(i), (i: Instant) => InstantInRange(i))
  }

  function PresentInstant(): Format<Instant> {
    Mapped(Optional(InstantFormat()), PresentView())
  }

  lemma PresentLawful()
    ensures Lawful(PresentInstant()) && Bounded(PresentInstant(), 13)
  {
    hide Lawful, Bounded, Optional;
    OptionalInstantLawful();
    forall o
      ensures Optional(InstantFormat()).fits(o) <==> (o.Some? ==> InstantInRange(o.value))
    {
      OptionalFits(InstantFormat(), o);
    }
    MappedLawful(Optional(InstantFormat()), PresentView(), 13);
  }

  // Retained content

  predicate ZeroId(id: Octets) {
    forall i :: 0 <= i < |id| ==> id[i] == 0
  }

  /** `valid_reference_shape`: the chunk count follows from the length, and the identity is not zero. */
  predicate BlobShape(b: Blob) {
    && b.byteLen <= MAX_BLOB_BYTES && !ZeroId(b.id)
    && b.chunkCount == if b.byteLen == 0 then 0 else (b.byteLen - 1) / BLOB_CHUNK_BYTES + 1
  }

  type ContentFields = (Octets, (nat, (nat, (Octets, Octets))))

  function ContentOf(scope: Scope, p: ContentFields): Content {
    Content(Blob(scope, p.0, p.1.0, p.1.1.0, p.1.1.1.0), p.1.1.1.1)
  }

  function ContentView(scope: Scope): View<ContentFields, Content> {
    View((p: ContentFields) => if BlobShape(ContentOf(scope, p).blob) then Ok(ContentOf(scope, p)) else Err(Invalid),
         (c: Content) => (c.blob.id, (c.blob.byteLen, (c.blob.chunkCount, (c.blob.digest, c.mediaType)))),
         (c: Content) => c.blob.scope == scope && BlobShape(c.blob) && |c.blob.id| == 16 && |c.blob.digest| == 32
           && Text(MAXIMUM_MEDIA_TYPE_BYTES).fits(c.mediaType))
  }

  function ContentFieldsFormat(): Format<ContentFields> {
    Pair(Fixed(16), Pair(Number(8), Pair(Number(4), Pair(Fixed(32), Text(MAXIMUM_MEDIA_TYPE_BYTES)))))
  }

  function ContentFormat(scope: Scope): Format<Content> {
    Mapped(ContentFieldsFormat(), ContentView(scope))
  }

  lemma ContentFieldsLawful()
    ensures Lawful(ContentFieldsFormat()) && Bounded(ContentFieldsFormat(), 320)
  {
    hide Lawful, Bounded, Fixed, Number, Text;
    FixedLawful(16);
    NumberLawful(8);
    NumberLawful(4);
    FixedLawful(32);
    TextLawful(MAXIMUM_MEDIA_TYPE_BYTES);
    var text := Text(MAXIMUM_MEDIA_TYPE_BYTES);
    PairLawful(Fixed(32), text, 32, 260);
    PairLawful(Number(4), Pair(Fixed(32), text), 4, 292);
    PairLawful(Number(8), Pair(Number(4), Pair(Fixed(32), text)), 8, 296);
    PairLawful(Fixed(16), Pair(Number(8), Pair(Number(4), Pair(Fixed(32), text))), 16, 304);
  }

  lemma BlobFits(b: Blob)
    requires BlobShape(b)
    ensures b.byteLen < Pow256(8) && b.chunkCount < Pow256(4)
  {
    Widths();
  }

  lemma ContentExact(scope: Scope)
    ensures Exact(ContentFieldsFormat(), ContentView(scope))
  {
    hide Pow256, Utf8, BlobShape;
    var f, v := ContentFieldsFormat(), ContentView(scope);
    forall c: Content | v.fits(c) ensures f.fits(v.from(c)) && v.to(v.from(c)) == Ok(c) { BlobFits(c.blob); }
    forall p: ContentFields | f.fits(p) && v.to(p).Ok? ensures v.fits(v.to(p).value) && v.from(v.to(p).value) == p {}
  }

  lemma OptionalContentLawful(scope: Scope)
    ensures Lawful(Optional(ContentFormat(scope))) && Bounded(Optional(ContentFormat(scope)), 321)
  {
    hide Lawful, Bounded, ContentFieldsFormat, ContentView, Exact;
    ContentFieldsLawful();
    ContentExact(scope);
    MappedLawful(ContentFieldsFormat(), ContentView(scope), 320);
    OptionalLawful(ContentFormat(scope), 320);
  }

  // Tagged fields

  function SourceKinds(): seq<SourceKind> {
    [WebPage, DocPackPage, RepositoryFile, RepositoryManifest, SuppliedDocument]
  }

  function SourceKindTag(k: SourceKind): nat {
    match k
    case WebPage => 1
    case DocPackPage => 2
    case RepositoryFile => 3
    case RepositoryManifest => 4
    case SuppliedDocument => 5
  }

  function SupportKinds(): seq<SupportKind> {
    [DirectQuote, Paraphrase, Inference, Unsupported]
  }

  function SupportTag(k: SupportKind): nat {
    match k
    case DirectQuote => 1
    case Paraphrase => 2
    case Inference => 3
    case Unsupported => 4
  }

  function EdgeKinds(): seq<EdgeKind> {
    [Supports, Contradicts, Corrects, DerivedFrom, DependsOn, Documents, Related]
  }

  function EdgeTag(k: EdgeKind): nat {
    match k
    case Supports => 1
    case Contradicts => 2
    case Corrects => 3
    case DerivedFrom => 4
    case DependsOn => 5
    case Documents => 6
    case Related => 7
  }

  lemma KindsLawful()
    ensures Lawful(Enum(SourceKinds(), SourceKindTag)) && Bounded(Enum(SourceKinds(), SourceKindTag), 1)
    ensures Lawful(Enum(SupportKinds(), SupportTag)) && Bounded(Enum(SupportKinds(), SupportTag), 1)
    ensures Lawful(Enum(EdgeKinds(), EdgeTag)) && Bounded(Enum(EdgeKinds(), EdgeTag), 1)
  {
    hide Lawful, Bounded, Enum;
    EnumLawful(SourceKinds(), SourceKindTag);
    EnumLawful(SupportKinds(), SupportTag);
    EnumLawful(EdgeKinds(), EdgeTag);
  }

  function OutcomeArm(tag: nat): Option<Format<FetchOutcome>> {
    match tag
    case 1 => Some(Constant(Complete))
    case 2 => Some(Mapped(Text(MAXIMUM_REASON_BYTES), PartialView()))
    case 3 => Some(Mapped(Number(8), TruncatedView()))
    case 4 => Some(Mapped(Text(MAXIMUM_REASON_BYTES), InaccessibleView()))
    case _ => None
  }

  function PartialView(): View<Octets, FetchOutcome> {
    View((reason: Octets) => Ok(Partial(reason)), (o: FetchOutcome) => if o.Partial? then o.reason
      else [], (o: FetchOutcome) => o.Partial? && Text(MAXIMUM_REASON_BYTES).fits(o.reason))
  }

  function ReadTruncated(n: nat): Result<FetchOutcome, Fault> {
    Ok(Truncated(n))
  }

  function TruncationLimit(o: FetchOutcome): nat {
    if o.Truncated? then o.limitBytes else 0
  }

  function TruncatedView(): View<nat, FetchOutcome> {
    View(ReadTruncated, TruncationLimit, (o: FetchOutcome) => o.Truncated? && o.limitBytes < Pow256(8))
  }

  function InaccessibleView(): View<Octets, FetchOutcome> {
    View((reason: Octets) => Ok(Inaccessible(reason)), (o: FetchOutcome) => if o.Inaccessible? then o.reason
      else [], (o: FetchOutcome) => o.Inaccessible? && Text(MAXIMUM_REASON_BYTES).fits(o.reason))
  }

  function OutcomeTag(o: FetchOutcome): nat {
    match o
    case Complete => 1
    case Partial(_) => 2
    case Truncated(_) => 3
    case Inaccessible(_) => 4
  }

  lemma Wider<T(!new)>(f: Format<T>, m: nat, n: nat)
    requires Bounded(f, m) && m <= n
    ensures Bounded(f, n)
  {
  }

  lemma {:induction false} OutcomeArmLawful(tag: nat)
    requires OutcomeArm(tag).Some?
    ensures Lawful(OutcomeArm(tag).value) && Bounded(OutcomeArm(tag).value, 1028)
  {
    hide Lawful, Bounded, Pow256, Utf8;
    match tag {
      case 1 => ConstantLawful(FetchOutcome.Complete); Wider(Constant(FetchOutcome.Complete), 0, 1028);
      case 2 => TextLawful(MAXIMUM_REASON_BYTES); MappedLawful(Text(MAXIMUM_REASON_BYTES), PartialView(), 1028);
      case 3 =>
        NumberLawful(8);
        MappedLawful(Number(8), TruncatedView(), 8);
        Wider(Mapped(Number(8), TruncatedView()), 8, 1028);
      case 4 => TextLawful(MAXIMUM_REASON_BYTES); MappedLawful(Text(MAXIMUM_REASON_BYTES), InaccessibleView(), 1028);
      case _ =>
    }
  }

  function OutcomeFormat(): Format<FetchOutcome> {
    Tagged(OutcomeArm, OutcomeTag)
  }

  lemma OutcomeLawful()
    ensures Lawful(OutcomeFormat()) && Bounded(OutcomeFormat(), 1029)
  {
    hide Lawful, Bounded, Pow256, Utf8;
    forall tag | OutcomeArm(tag).Some?
      ensures Lawful(OutcomeArm(tag).value) && Bounded(OutcomeArm(tag).value, 1028)
    {
      OutcomeArmLawful(tag);
    }
    TaggedLawful(OutcomeArm, OutcomeTag, 1028);
  }

  function ReadMaxAge(n: nat): Result<Freshness, Fault> {
    Ok(MaxAge(n))
  }

  function AgeOf(f: Freshness): nat {
    if f.MaxAge? then f.seconds else 0
  }

  function MaxAgeView(): View<nat, Freshness> {
    View(ReadMaxAge, AgeOf, (f: Freshness) => f.MaxAge? && f.seconds < Pow256(8))
  }

  function FreshnessArm(tag: nat): Option<Format<Freshness>> {
    match tag
    case 1 => Some(Constant(Pinned))
    case 2 => Some(Mapped(Number(8), MaxAgeView()))
    case _ => None
  }

  function FreshnessTag(f: Freshness): nat {
    if f.Pinned? then 1 else 2
  }

  function FreshnessFormat(): Format<Freshness> {
    Tagged(FreshnessArm, FreshnessTag)
  }

  lemma FreshnessLawful()
    ensures Lawful(FreshnessFormat()) && Bounded(FreshnessFormat(), 9)
  {
    hide Lawful, Bounded, Pow256;
    forall tag | FreshnessArm(tag).Some?
      ensures Lawful(FreshnessArm(tag).value) && Bounded(FreshnessArm(tag).value, 8)
    {
      if tag == 1 { ConstantLawful(Freshness.Pinned); Wider(Constant(Freshness.Pinned), 0, 8); }
      else { NumberLawful(8); MappedLawful(Number(8), MaxAgeView(), 8); }
    }
    TaggedLawful(FreshnessArm, FreshnessTag, 8);
  }

  function ReadRange(p: (nat, nat)): Result<Locator, Fault> {
    Ok(ByteRange(p.0, p.1))
  }

  function RangeView(): View<(nat, nat), Locator> {
    View(ReadRange, (l: Locator) => (l.start, l.end), (l: Locator) => l.ByteRange? && l.start < Pow256(8)
      && l.end < Pow256(8))
  }

  function ReadLines(p: (nat, (nat, (nat, nat)))): Result<Locator, Fault> {
    Ok(Utf8Lines(p.0, p.1.0, p.1.1.0, p.1.1.1))
  }

  function WriteLines(l: Locator): (nat, (nat, (nat, nat))) {
    if l.Utf8Lines? then (l.start, (l.end, (l.firstLine, l.lastLine))) else (0, (0, (0, 0)))
  }

  function LinesView(): View<(nat, (nat, (nat, nat))), Locator> {
    View(ReadLines, WriteLines, (l: Locator) => l.Utf8Lines? && l.start < Pow256(8) && l.end < Pow256(8)
      && l.firstLine < Pow256(4) && l.lastLine < Pow256(4))
  }

  function LinesFields(): Format<(nat, (nat, (nat, nat)))> {
    Pair(Number(8), Pair(Number(8), Pair(Number(4), Number(4))))
  }

  function LocatorArm(tag: nat): Option<Format<Locator>> {
    match tag
    case 1 => Some(Mapped(Pair(Number(8), Number(8)), RangeView()))
    case 2 => Some(Mapped(LinesFields(), LinesView()))
    case _ => None
  }

  function LocatorTag(l: Locator): nat {
    if l.ByteRange? then 1 else 2
  }

  function LocatorFormat(): Format<Locator> {
    Tagged(LocatorArm, LocatorTag)
  }

  lemma {:induction false} LocatorArmLawful(tag: nat)
    requires LocatorArm(tag).Some?
    ensures Lawful(LocatorArm(tag).value) && Bounded(LocatorArm(tag).value, 24)
  {
    hide Lawful, Bounded, Pow256;
    NumberLawful(8);
    NumberLawful(4);
    if tag == 1 {
      PairLawful(Number(8), Number(8), 8, 8);
      MappedLawful(Pair(Number(8), Number(8)), RangeView(), 16);
      Wider(LocatorArm(tag).value, 16, 24);
    } else {
      PairLawful(Number(4), Number(4), 4, 4);
      PairLawful(Number(8), Pair(Number(4), Number(4)), 8, 8);
      PairLawful(Number(8), Pair(Number(8), Pair(Number(4), Number(4))), 8, 16);
      MappedLawful(LinesFields(), LinesView(), 24);
    }
  }

  lemma LocatorLawful()
    ensures Lawful(LocatorFormat()) && Bounded(LocatorFormat(), 25)
  {
    hide Lawful, Bounded, Pow256;
    forall tag | LocatorArm(tag).Some?
      ensures Lawful(LocatorArm(tag).value) && Bounded(LocatorArm(tag).value, 24)
    {
      LocatorArmLawful(tag);
    }
    TaggedLawful(LocatorArm, LocatorTag, 24);
  }

  // Records

  type SourceTail = (Octets, (FetchOutcome, (Option<Content>, (Octets, (bool, Freshness)))))
  type SourceFields = (SourceVersion, (SourceKind, (Octets, (Octets, (Instant, (Octets, SourceTail))))))

  function SourceTailFormat(scope: Scope): Format<SourceTail> {
    Pair(Text(MAXIMUM_LABEL_BYTES), Pair(OutcomeFormat(),
      Pair(Optional(ContentFormat(scope)), Pair(Text(MAXIMUM_LABEL_BYTES), Pair(Flag(), FreshnessFormat())))))
  }

  lemma SourceTailLawful(scope: Scope)
    ensures Lawful(SourceTailFormat(scope)) && Bounded(SourceTailFormat(scope), 1880)
  {
    hide Lawful, Bounded, Text, OutcomeFormat, Optional, ContentFormat, Flag, FreshnessFormat;
    var name := Text(MAXIMUM_LABEL_BYTES);
    TextLawful(MAXIMUM_LABEL_BYTES);
    OutcomeLawful();
    OptionalContentLawful(scope);
    FlagLawful();
    FreshnessLawful();
    var content := Optional(ContentFormat(scope));
    PairLawful(Flag(), FreshnessFormat(), 1, 9);
    PairLawful(name, Pair(Flag(), FreshnessFormat()), 260, 10);
    PairLawful(content, Pair(name, Pair(Flag(), FreshnessFormat())), 321, 270);
    PairLawful(OutcomeFormat(), Pair(content, Pair(name, Pair(Flag(), FreshnessFormat()))), 1029, 591);
    PairLawful(name, Pair(OutcomeFormat(), Pair(content, Pair(name, Pair(Flag(), FreshnessFormat())))), 260, 1620);
  }

  function SourceFieldsFormat(scope: Scope): Format<SourceFields> {
    Pair(SourceIdFormat(scope), Pair(Enum(SourceKinds(), SourceKindTag), Pair(Text(MAXIMUM_LOCATOR_TEXT_BYTES),
      Pair(Text(MAXIMUM_LABEL_BYTES), Pair(PresentInstant(), Pair(Fixed(16), SourceTailFormat(scope)))))))
  }

  lemma SourceFieldsLawful(scope: Scope)
    ensures Lawful(SourceFieldsFormat(scope)) && Bounded(SourceFieldsFormat(scope), 4242)
  {
    hide Lawful, Bounded, Text, SourceIdFormat, Enum, PresentInstant, Fixed, SourceTailFormat;
    var kind, locator, name, tail := Enum(SourceKinds(), SourceKindTag), Text(MAXIMUM_LOCATOR_TEXT_BYTES),
      Text(MAXIMUM_LABEL_BYTES), SourceTailFormat(scope);
    SourceIdLawful(scope);
    KindsLawful();
    TextLawful(MAXIMUM_LOCATOR_TEXT_BYTES);
    TextLawful(MAXIMUM_LABEL_BYTES);
    PresentLawful();
    FixedLawful(16);
    SourceTailLawful(scope);
    PairLawful(Fixed(16), tail, 16, 1880);
    PairLawful(PresentInstant(), Pair(Fixed(16), tail), 13, 1896);
    PairLawful(name, Pair(PresentInstant(), Pair(Fixed(16), tail)), 260, 1909);
    PairLawful(locator, Pair(name, Pair(PresentInstant(), Pair(Fixed(16), tail))), 2052, 2169);
    PairLawful(kind, Pair(locator, Pair(name, Pair(PresentInstant(), Pair(Fixed(16), tail)))), 1, 4221);
    PairLawful(SourceIdFormat(scope), Pair(kind,
      Pair(locator, Pair(name, Pair(PresentInstant(), Pair(Fixed(16), tail))))), 20, 4222);
  }

  function ReadSource(p: SourceFields): Result<SourceInput, Fault> {
    var (id, (kind, (locatorText, (versionLabel, (retrievedAt, (runIdentity, tail)))))) := p;
    var (routeLabel, (outcome, (content, (licenseLabel, (redistributable, freshness))))) := tail;
    Ok(SourceInput(id, kind, locatorText, versionLabel, retrievedAt, runIdentity, routeLabel, outcome, content,
      licenseLabel, redistributable, freshness))
  }

  function WriteSource(s: SourceInput): SourceFields {
    (s.id, (s.kind, (s.locatorText, (s.versionLabel, (s.retrievedAt, (s.runIdentity,
      (s.routeLabel, (s.outcome, (s.content, (s.licenseLabel, (s.redistributable, s.freshness)))))))))))
  }

  function SourceView(scope: Scope): View<SourceFields, SourceInput> {
    View(ReadSource, WriteSource, (s: SourceInput) => SourceFieldsFormat(scope).fits(WriteSource(s)))
  }

  function SourceFormat(scope: Scope): Format<SourceInput> {
    Mapped(SourceFieldsFormat(scope), SourceView(scope))
  }

  lemma SourceFieldsRestored(p: SourceFields)
    ensures ReadSource(p).Ok? && WriteSource(ReadSource(p).value) == p
  {
    var tail := p.1.1.1.1.1.1;
    assert tail == (tail.0, (tail.1.0, (tail.1.1.0, (tail.1.1.1.0, (tail.1.1.1.1.0, tail.1.1.1.1.1)))));
    assert p == (p.0, (p.1.0, (p.1.1.0, (p.1.1.1.0, (p.1.1.1.1.0, (p.1.1.1.1.1.0, tail))))));
  }

  lemma SourceLawful(scope: Scope)
    ensures Lawful(SourceFormat(scope)) && Bounded(SourceFormat(scope), 4242)
  {
    hide Lawful, Bounded, SourceFieldsFormat;
    SourceFieldsLawful(scope);
    forall p: SourceFields
      ensures ReadSource(p).Ok? && WriteSource(ReadSource(p).value) == p
    {
      SourceFieldsRestored(p);
    }
    MappedLawful(SourceFieldsFormat(scope), SourceView(scope), 4242);
  }

  type ArtifactTail = (Octets, (Octets, (Octets, (Option<Content>, (bool, Octets)))))
  type ArtifactFields = (Ref, (seq<SourceVersion>, ArtifactTail))

  function ArtifactFieldsFormat(scope: Scope): Format<ArtifactFields> {
    Pair(RefFormat(scope), Pair(Counted(SourceIdFormat(scope), MAXIMUM_ARTIFACT_INPUTS),
      Pair(Text(MAXIMUM_LABEL_BYTES), Pair(Text(MAXIMUM_LABEL_BYTES),
      Pair(Fixed(32), Pair(Optional(ContentFormat(scope)), Pair(Flag(), Text(MAXIMUM_REASON_BYTES))))))))
  }

  lemma ArtifactFieldsLawful(scope: Scope)
    ensures Lawful(ArtifactFieldsFormat(scope)) && Bounded(ArtifactFieldsFormat(scope), 2240)
  {
    hide Lawful, Bounded, Text, SourceIdFormat, RefFormat, Counted, Fixed, Optional, ContentFormat, Flag;
    var inputs, name, content, reason := Counted(SourceIdFormat(scope), MAXIMUM_ARTIFACT_INPUTS),
      Text(MAXIMUM_LABEL_BYTES), Optional(ContentFormat(scope)), Text(MAXIMUM_REASON_BYTES);
    RefLawful(scope);
    SourceIdLawful(scope);
    CountedLawful(SourceIdFormat(scope), MAXIMUM_ARTIFACT_INPUTS, 20);
    TextLawful(MAXIMUM_LABEL_BYTES);
    TextLawful(MAXIMUM_REASON_BYTES);
    FixedLawful(32);
    OptionalContentLawful(scope);
    FlagLawful();
    PairLawful(Flag(), reason, 1, 1028);
    PairLawful(content, Pair(Flag(), reason), 321, 1029);
    PairLawful(Fixed(32), Pair(content, Pair(Flag(), reason)), 32, 1350);
    PairLawful(name, Pair(Fixed(32), Pair(content, Pair(Flag(), reason))), 260, 1382);
    PairLawful(name, Pair(name, Pair(Fixed(32), Pair(content, Pair(Flag(), reason)))), 260, 1642);
    PairLawful(inputs, Pair(name, Pair(name, Pair(Fixed(32), Pair(content, Pair(Flag(), reason))))), 322, 1902);
    PairLawful(RefFormat(scope), Pair(inputs, Pair(name,
      Pair(name, Pair(Fixed(32), Pair(content, Pair(Flag(), reason)))))), 16, 2224);
  }

  function ReadArtifact(p: ArtifactFields): Result<ArtifactInput, Fault> {
    var tail := p.1.1;
    Ok(ArtifactInput(p.0, p.1.0, tail.0, tail.1.0, tail.1.1.0, tail.1.1.1.0, tail.1.1.1.1.0, tail.1.1.1.1.1))
  }

  function WriteArtifact(a: ArtifactInput): ArtifactFields {
    (a.id, (a.inputs, (a.producerName, (a.producerRevision,
      (a.configurationDigest, (a.content, (a.completeCoverage, a.limitations)))))))
  }

  function ArtifactView(scope: Scope): View<ArtifactFields, ArtifactInput> {
    View(ReadArtifact, WriteArtifact, (a: ArtifactInput) => ArtifactFieldsFormat(scope).fits(WriteArtifact(a)))
  }

  function ArtifactFormat(scope: Scope): Format<ArtifactInput> {
    Mapped(ArtifactFieldsFormat(scope), ArtifactView(scope))
  }

  lemma ArtifactFieldsRestored(p: ArtifactFields)
    ensures ReadArtifact(p).Ok? && WriteArtifact(ReadArtifact(p).value) == p
  {
    var tail := p.1.1;
    assert tail == (tail.0, (tail.1.0, (tail.1.1.0, (tail.1.1.1.0, (tail.1.1.1.1.0, tail.1.1.1.1.1)))));
    assert p == (p.0, (p.1.0, tail));
  }

  lemma ArtifactLawful(scope: Scope)
    ensures Lawful(ArtifactFormat(scope)) && Bounded(ArtifactFormat(scope), 2240)
  {
    hide Lawful, Bounded, ArtifactFieldsFormat;
    ArtifactFieldsLawful(scope);
    forall p: ArtifactFields
      ensures ReadArtifact(p).Ok? && WriteArtifact(ReadArtifact(p).value) == p
    {
      ArtifactFieldsRestored(p);
    }
    MappedLawful(ArtifactFieldsFormat(scope), ArtifactView(scope), 2240);
  }

  type CitationFields = (SourceVersion, (Locator, (Octets, Option<Octets>)))

  function CitationFieldsFormat(scope: Scope): Format<CitationFields> {
    Pair(SourceIdFormat(scope), Pair(LocatorFormat(), Pair(Fixed(32), Optional(Text(MAXIMUM_EXCERPT_BYTES)))))
  }

  function CitationView(scope: Scope): View<CitationFields, Citation> {
    View((p: CitationFields) => Ok(Citation(p.0, p.1.0, p.1.1.0, p.1.1.1)), (c: Citation) =>
      (c.source, (c.locator, (c.excerptDigest, c.excerpt))),
         (c: Citation) => CitationFieldsFormat(scope).fits((c.source, (c.locator, (c.excerptDigest, c.excerpt)))))
  }

  function CitationFormat(scope: Scope): Format<Citation> {
    Mapped(CitationFieldsFormat(scope), CitationView(scope))
  }

  lemma CitationLawful(scope: Scope)
    ensures Lawful(CitationFormat(scope)) && Bounded(CitationFormat(scope), 4178)
  {
    hide Lawful, Bounded, Text, SourceIdFormat, LocatorFormat, Fixed, Optional;
    var excerpt := Optional(Text(MAXIMUM_EXCERPT_BYTES));
    SourceIdLawful(scope);
    LocatorLawful();
    FixedLawful(32);
    TextLawful(MAXIMUM_EXCERPT_BYTES);
    OptionalLawful(Text(MAXIMUM_EXCERPT_BYTES), 4100);
    PairLawful(Fixed(32), excerpt, 32, 4101);
    PairLawful(LocatorFormat(), Pair(Fixed(32), excerpt), 25, 4133);
    PairLawful(SourceIdFormat(scope), Pair(LocatorFormat(), Pair(Fixed(32), excerpt)), 20, 4158);
    forall p: CitationFields ensures (p.0, (p.1.0, (p.1.1.0, p.1.1.1))) == p {}
    MappedLawful(CitationFieldsFormat(scope), CitationView(scope), 4178);
  }

  type ClaimTail = (seq<Citation>, (Option<Instant>, (Option<Instant>, Option<Ref>)))
  type ClaimFields = (Ref, (Octets, (Octets, (Octets, (SupportKind, ClaimTail)))))

  function ClaimTailFormat(scope: Scope): Format<ClaimTail> {
    Pair(Counted(CitationFormat(scope), MAXIMUM_CITATIONS_PER_CLAIM),
      Pair(Optional(InstantFormat()), Pair(Optional(InstantFormat()), Optional(RefFormat(scope)))))
  }

  lemma ClaimTailLawful(scope: Scope)
    ensures Lawful(ClaimTailFormat(scope)) && Bounded(ClaimTailFormat(scope), 66893)
  {
    hide Lawful, Bounded, Counted, CitationFormat, Optional, InstantFormat, RefFormat;
    var citations, instant, corrects := Counted(CitationFormat(scope), MAXIMUM_CITATIONS_PER_CLAIM),
      Optional(InstantFormat()), Optional(RefFormat(scope));
    CitationLawful(scope);
    CountedLawful(CitationFormat(scope), MAXIMUM_CITATIONS_PER_CLAIM, 4178);
    OptionalInstantLawful();
    RefLawful(scope);
    OptionalLawful(RefFormat(scope), 16);
    PairLawful(instant, corrects, 13, 17);
    PairLawful(instant, Pair(instant, corrects), 13, 30);
    PairLawful(citations, Pair(instant, Pair(instant, corrects)), 66850, 43);
  }

  function ClaimFieldsFormat(scope: Scope): Format<ClaimFields> {
    Pair(RefFormat(scope), Pair(Text(MAXIMUM_CLAIM_FIELD_BYTES),
      Pair(Text(MAXIMUM_CLAIM_FIELD_BYTES), Pair(Text(MAXIMUM_CLAIM_FIELD_BYTES),
      Pair(Enum(SupportKinds(), SupportTag), ClaimTailFormat(scope))))))
  }

  lemma ClaimFieldsLawful(scope: Scope)
    ensures Lawful(ClaimFieldsFormat(scope)) && Bounded(ClaimFieldsFormat(scope), 79210)
  {
    hide Lawful, Bounded, Text, RefFormat, Enum, ClaimTailFormat;
    var text, support, tail := Text(MAXIMUM_CLAIM_FIELD_BYTES), Enum(SupportKinds(), SupportTag),
      ClaimTailFormat(scope);
    RefLawful(scope);
    TextLawful(MAXIMUM_CLAIM_FIELD_BYTES);
    KindsLawful();
    ClaimTailLawful(scope);
    PairLawful(support, tail, 1, 66893);
    PairLawful(text, Pair(support, tail), 4100, 66894);
    PairLawful(text, Pair(text, Pair(support, tail)), 4100, 70994);
    PairLawful(text, Pair(text, Pair(text, Pair(support, tail))), 4100, 75094);
    PairLawful(RefFormat(scope), Pair(text, Pair(text, Pair(text, Pair(support, tail)))), 16, 79194);
  }

  function ReadClaim(p: ClaimFields): Result<ClaimInput, Fault> {
    var tail := p.1.1.1.1.1;
    Ok(ClaimInput(p.0, p.1.0, p.1.1.0, p.1.1.1.0, p.1.1.1.1.0, tail.0, tail.1.0, tail.1.1.0, tail.1.1.1))
  }

  function WriteClaim(c: ClaimInput): ClaimFields {
    (c.id, (c.subject, (c.predicateName, (c.value,
      (c.support, (c.citations, (c.validFrom, (c.validUntil, c.corrects))))))))
  }

  function ClaimView(scope: Scope): View<ClaimFields, ClaimInput> {
    View(ReadClaim, WriteClaim, (c: ClaimInput) => ClaimFieldsFormat(scope).fits(WriteClaim(c)))
  }

  function ClaimFormat(scope: Scope): Format<ClaimInput> {
    Mapped(ClaimFieldsFormat(scope), ClaimView(scope))
  }

  lemma ClaimFieldsRestored(p: ClaimFields)
    ensures ReadClaim(p).Ok? && WriteClaim(ReadClaim(p).value) == p
  {
    var tail := p.1.1.1.1.1;
    assert tail == (tail.0, (tail.1.0, (tail.1.1.0, tail.1.1.1)));
    assert p == (p.0, (p.1.0, (p.1.1.0, (p.1.1.1.0, (p.1.1.1.1.0, tail)))));
  }

  lemma ClaimLawful(scope: Scope)
    ensures Lawful(ClaimFormat(scope)) && Bounded(ClaimFormat(scope), 79210)
  {
    hide Lawful, Bounded, ClaimFieldsFormat;
    ClaimFieldsLawful(scope);
    forall p: ClaimFields ensures ReadClaim(p).Ok? && WriteClaim(ReadClaim(p).value) == p { ClaimFieldsRestored(p); }
    MappedLawful(ClaimFieldsFormat(scope), ClaimView(scope), 79210);
  }

  type EdgeFields = (Ref, (EdgeKind, (Ref, (Ref, (Ref, (Option<Instant>, Option<Instant>))))))

  function EdgeFieldsFormat(scope: Scope): Format<EdgeFields> {
    Pair(RefFormat(scope), Pair(Enum(EdgeKinds(), EdgeTag),
      Pair(RefFormat(scope), Pair(RefFormat(scope), Pair(RefFormat(scope),
      Pair(Optional(InstantFormat()), Optional(InstantFormat())))))))
  }

  lemma EdgeFieldsLawful(scope: Scope)
    ensures Lawful(EdgeFieldsFormat(scope)) && Bounded(EdgeFieldsFormat(scope), 91)
  {
    hide Lawful, Bounded, RefFormat, Enum, Optional, InstantFormat;
    var ref, kind, instant := RefFormat(scope), Enum(EdgeKinds(), EdgeTag), Optional(InstantFormat());
    RefLawful(scope);
    KindsLawful();
    OptionalInstantLawful();
    PairLawful(instant, instant, 13, 13);
    PairLawful(ref, Pair(instant, instant), 16, 26);
    PairLawful(ref, Pair(ref, Pair(instant, instant)), 16, 42);
    PairLawful(ref, Pair(ref, Pair(ref, Pair(instant, instant))), 16, 58);
    PairLawful(kind, Pair(ref, Pair(ref, Pair(ref, Pair(instant, instant)))), 1, 74);
    PairLawful(ref, Pair(kind, Pair(ref, Pair(ref, Pair(ref, Pair(instant, instant))))), 16, 75);
  }

  function ReadEdge(p: EdgeFields): Result<EdgeInput, Fault> {
    Ok(EdgeInput(p.0, p.1.0, p.1.1.0, p.1.1.1.0, p.1.1.1.1.0, p.1.1.1.1.1.0, p.1.1.1.1.1.1))
  }

  function WriteEdge(e: EdgeInput): EdgeFields {
    (e.id, (e.kind, (e.from, (e.to, (e.assertedBy, (e.validFrom, e.validUntil))))))
  }

  function EdgeView(scope: Scope): View<EdgeFields, EdgeInput> {
    View(ReadEdge, WriteEdge, (e: EdgeInput) => EdgeFieldsFormat(scope).fits(WriteEdge(e)))
  }

  function EdgeFormat(scope: Scope): Format<EdgeInput> {
    Mapped(EdgeFieldsFormat(scope), EdgeView(scope))
  }

  lemma EdgeFieldsRestored(p: EdgeFields)
    ensures ReadEdge(p).Ok? && WriteEdge(ReadEdge(p).value) == p
  {
    assert p == (p.0, (p.1.0, (p.1.1.0, (p.1.1.1.0, (p.1.1.1.1.0, (p.1.1.1.1.1.0, p.1.1.1.1.1.1))))));
  }

  lemma EdgeLawful(scope: Scope)
    ensures Lawful(EdgeFormat(scope)) && Bounded(EdgeFormat(scope), 91)
  {
    hide Lawful, Bounded, EdgeFieldsFormat;
    EdgeFieldsLawful(scope);
    forall p: EdgeFields ensures ReadEdge(p).Ok? && WriteEdge(ReadEdge(p).value) == p { EdgeFieldsRestored(p); }
    MappedLawful(EdgeFieldsFormat(scope), EdgeView(scope), 91);
  }
}
