/** The publication experiment: a checksummed group, the certificate naming it, and recovery of the frontier
    (experiments/storage-publication.rs:13-79). The checksum is 64-bit FNV-1a
    (Internet-Draft draft-eastlake-fnv, section 2). */
module PublicationRecovery {
  import opened ByteStrings

  const WORD := 0x1_0000_0000_0000_0000
  const FNV_OFFSET := 0xcbf2_9ce4_8422_2325
  const FNV_PRIME := 0x100_0000_01b3
  /** The inverse of the prime modulo 2^64. */
  const FNV_INVERSE := 0xce96_5057_aff6_957b

  type Word = n: int | 0 <= n < WORD

  // Exclusive or of a word with one byte

  function XorBits(a: nat, b: nat, bits: nat): nat {
    if bits == 0 then 0 else 2 * XorBits(a / 2, b / 2, bits - 1) + (if a % 2 == b % 2 then 0 else 1)
  }

  function Power2(bits: nat): nat {
    if bits == 0 then 1 else 2 * Power2(bits - 1)
  }

  lemma {:induction false} XorBounded(a: nat, b: nat, bits: nat)
    ensures XorBits(a, b, bits) < Power2(bits)
    decreases bits
  {
    if bits > 0 { XorBounded(a / 2, b / 2, bits - 1); }
  }

  lemma {:induction false} XorInjective(a: nat, b: nat, c: nat, bits: nat)
    requires a < Power2(bits) && c < Power2(bits) && XorBits(a, b, bits) == XorBits(c, b, bits)
    ensures a == c
    decreases bits
  {
    if bits > 0 {
      XorBounded(a / 2, b / 2, bits - 1);
      XorBounded(c / 2, b / 2, bits - 1);
      XorInjective(a / 2, b / 2, c / 2, bits - 1);
    }
  }

  lemma {:induction false} XorCommutes(a: nat, b: nat, bits: nat)
    ensures XorBits(a, b, bits) == XorBits(b, a, bits)
    decreases bits
  {
    if bits > 0 { XorCommutes(a / 2, b / 2, bits - 1); }
  }

  lemma Eight()
    ensures Power2(8) == 256
  {
    assert Power2(8) == 2 * Power2(7) == 4 * Power2(6) == 8 * Power2(5) == 16 * Power2(4);
  }

  lemma LowByte(q: int, x: int)
    requires 0 <= x < 256
    ensures (256 * q + x) / 256 == q && (256 * q + x) % 256 == x
  {
  }

  lemma HighBytes(h: Word)
    ensures 0 <= h / 256 <= 0xff_ffff_ffff_ffff && h == 256 * (h / 256) + h % 256
  {
  }

  function XorByte(h: Word, b: Byte): (r: Word)
    ensures r / 256 == h / 256
  {
    XorBounded(h % 256, b, 8);
    Eight();
    HighBytes(h);
    var low := XorBits(h % 256, b, 8);
    LowByte(h / 256, low);
    256 * (h / 256) + low
  }

  lemma {:induction false} XorByteInjective(h: Word, k: Word, b: Byte)
    requires XorByte(h, b) == XorByte(k, b)
    ensures h == k
  {
    hide XorBits;
    Eight();
    XorInjective(h % 256, b, k % 256, 8);
  }

  lemma {:induction false} XorByteDiffers(h: Word, b: Byte, c: Byte)
    requires XorByte(h, b) == XorByte(h, c)
    ensures b == c
  {
    hide XorBits;
    Eight();
    XorCommutes(h % 256, b, 8);
    XorCommutes(h % 256, c, 8);
    XorInjective(b, h % 256, c, 8);
  }

  // The checksum

  function Mix(h: Word): Word {
    (h * FNV_PRIME) % WORD
  }

  lemma Remainder(x: Word, t: int, y: int)
    requires y == x + t * WORD
    ensures y % WORD == x
  {
  }

  lemma InversePair()
    ensures FNV_PRIME * FNV_INVERSE == 1 + 887285111055 * WORD
  {
  }

  lemma Multiples(h: int, q: int, m: int)
    requires m == h * FNV_PRIME - q * WORD
    ensures m * FNV_INVERSE == h + (887285111055 * h - q * FNV_INVERSE) * WORD
  {
    InversePair();
  }

  /** Multiplying by the inverse of the prime undoes a step. */
  lemma Unmix(h: Word)
    ensures (Mix(h) * FNV_INVERSE) % WORD == h
  {
    var q := (h * FNV_PRIME) / WORD;
    Multiples(h, q, Mix(h));
    Remainder(h, 887285111055 * h - q * FNV_INVERSE, Mix(h) * FNV_INVERSE);
  }

  function DigestFrom(h: Word, bytes: Octets): Word {
    if bytes == [] then h else Mix(XorByte(DigestFrom(h, bytes[..|bytes| - 1]), bytes[|bytes| - 1]))
  }

  function Digest(bytes: Octets): Word {
    DigestFrom(FNV_OFFSET, bytes)
  }

  method ComputeDigest(bytes: Octets) returns (h: Word)
    ensures h == Digest(bytes)
  {
    h := FNV_OFFSET;
    for i := 0 to |bytes|
      invariant h == Digest(bytes[..i])
    {
      assert bytes[..i + 1][..i] == bytes[..i];
      h := Mix(XorByte(h, bytes[i]));
    }
    assert bytes[..|bytes|] == bytes;
  }

  lemma StepInjective(h: Word, k: Word, b: Byte)
    requires Mix(XorByte(h, b)) == Mix(XorByte(k, b))
    ensures h == k
  {
    hide Mix, XorByte;
    Unmix(XorByte(h, b));
    Unmix(XorByte(k, b));
    XorByteInjective(h, k, b);
  }

  /** Equal checksums over the same bytes mean equal starting words. */
  lemma {:induction false} DigestInjective(h: Word, k: Word, bytes: Octets)
    requires DigestFrom(h, bytes) == DigestFrom(k, bytes)
    ensures h == k
    decreases |bytes|
  {
    hide Mix, XorByte;
    if bytes != [] {
      var front, last := bytes[..|bytes| - 1], bytes[|bytes| - 1];
      StepInjective(DigestFrom(h, front), DigestFrom(k, front), last);
      DigestInjective(h, k, front);
    }
  }

  lemma {:induction false} DigestConcat(h: Word, a: Octets, b: Octets)
    ensures DigestFrom(h, a + b) == DigestFrom(DigestFrom(h, a), b)
    decreases |b|
  {
    hide Mix, XorByte;
    if b == [] {
      assert a + b == a;
    } else {
      var front, last := b[..|b| - 1], b[|b| - 1];
      assert (a + b)[..|a + b| - 1] == a + front;
      DigestConcat(h, a, front);
    }
  }

  /** Changing any single byte changes the checksum. */
  lemma {:induction false} SingleByteChangesDigest(bytes: Octets, i: nat, b: Byte)
    requires i < |bytes| && b != bytes[i]
    ensures Digest(bytes[i := b]) != Digest(bytes)
  {
    hide Mix, XorByte;
    var before, after := bytes[..i], bytes[i + 1..];
    assert bytes == before + ([bytes[i]] + after) && bytes[i := b] == before + ([b] + after);
    DigestConcat(FNV_OFFSET, before, [bytes[i]] + after);
    DigestConcat(FNV_OFFSET, before, [b] + after);
    var h := DigestFrom(FNV_OFFSET, before);
    DigestConcat(h, [bytes[i]], after);
    DigestConcat(h, [b], after);
    if Digest(bytes[i := b]) == Digest(bytes) {
      DigestInjective(DigestFrom(h, [b]), DigestFrom(h, [bytes[i]]), after);
      OneStep(h, b);
      OneStep(h, bytes[i]);
      Unmix(XorByte(h, b));
      Unmix(XorByte(h, bytes[i]));
      XorByteDiffers(h, b, bytes[i]);
    }
  }

  lemma OneStep(h: Word, b: Byte)
    ensures DigestFrom(h, [b]) == Mix(XorByte(h, b))
  {
    hide Mix, XorByte;
    assert [b][..0] == [];
  }

  // The two records

  const G: Byte := 0x47
  const C: Byte := 0x43
  const CERTIFICATE_LEN := 41

  function GroupBody(revision: Word, payload: Octets): Octets {
    [G] + ToLittle(revision, 8) + ToLittle(|payload| % 0x1_0000_0000, 4) + payload
  }

  function Group(revision: Word, payload: Octets): Octets {
    GroupBody(revision, payload) + ToLittle(Digest(GroupBody(revision, payload)), 8)
  }

  function CertificateBody(revision: Word, group: Octets, previous: Word): Octets {
    [C] + ToLittle(revision, 8) + ToLittle(|group| % WORD, 8) + ToLittle(Digest(group), 8) + ToLittle(previous, 8)
  }

  function Certificate(revision: Word, group: Octets, previous: Word): Octets {
    CertificateBody(revision, group, previous) + ToLittle(Digest(CertificateBody(revision, group, previous)), 8)
  }

  method EncodeGroup(revision: Word, payload: Octets) returns (encoded: Octets)
    ensures encoded == Group(revision, payload)
  {
    encoded := [G];
    encoded := encoded + ToLittle(revision, 8);
    encoded := encoded + ToLittle(|payload| % 0x1_0000_0000, 4);
    encoded := encoded + payload;
    var checksum := ComputeDigest(encoded);
    encoded := encoded + ToLittle(checksum, 8);
  }

  method EncodeCertificate(revision: Word, group: Octets, previous: Word) returns (encoded: Octets)
    ensures encoded == Certificate(revision, group, previous)
  {
    encoded := [C];
    encoded := encoded + ToLittle(revision, 8);
    encoded := encoded + ToLittle(|group| % WORD, 8);
    var named := ComputeDigest(group);
    encoded := encoded + ToLittle(named, 8);
    encoded := encoded + ToLittle(previous, 8);
    var checksum := ComputeDigest(encoded);
    encoded := encoded + ToLittle(checksum, 8);
  }

  // Recovery

  datatype Recovery = Frontier(revision: nat) | IntegrityFailure

  function ReadWord(bytes: Octets, start: nat): nat
    requires start + 8 <= |bytes|
  {
    FromLittle(bytes[start..start + 8])
  }

  predicate GroupChecks(group: Octets, revision: nat, namedLen: nat, namedDigest: nat) {
    && |group| == namedLen && |group| >= 21 && group[0] == G && Digest(group) == namedDigest
    && ReadWord(group, 1) == revision
    && var payloadLen := FromLittle(group[9..13]);
       && |group| == 13 + payloadLen + 8
       && Digest(group[..13 + payloadLen]) == ReadWord(group, 13 + payloadLen)
  }

  function Recover(group: Octets, certificate: Octets): Recovery {
    if |certificate| < CERTIFICATE_LEN then Frontier(0)
    else if |certificate| != CERTIFICATE_LEN || certificate[0] != C then IntegrityFailure
    else if Digest(certificate[..33]) != ReadWord(certificate, 33) then IntegrityFailure
    else if ReadWord(certificate, 1) != 1 || ReadWord(certificate, 25) != 0 then IntegrityFailure
    else if !GroupChecks(group, ReadWord(certificate, 1), ReadWord(certificate, 9), ReadWord(certificate, 17))
      then IntegrityFailure
    else Frontier(ReadWord(certificate, 1))
  }

  lemma CertificateFields(revision: Word, group: Octets, previous: Word)
    ensures var c, body := Certificate(revision, group, previous), CertificateBody(revision, group, previous);
      && |c| == CERTIFICATE_LEN && c[0] == C && c[..33] == body
      && c[1..9] == ToLittle(revision, 8) && c[9..17] == ToLittle(|group| % WORD, 8)
      && c[17..25] == ToLittle(Digest(group), 8) && c[25..33] == ToLittle(previous, 8)
      && c[33..41] == ToLittle(Digest(body), 8)
  {
    hide Digest, ToLittle;
  }

  lemma {:induction false} CertificateReads(revision: Word, group: Octets, previous: Word)
    ensures var c := Certificate(revision, group, previous);
      && |c| == CERTIFICATE_LEN && c[0] == C && Digest(c[..33]) == ReadWord(c, 33)
      && ReadWord(c, 1) == revision && ReadWord(c, 9) == |group| % WORD
      && ReadWord(c, 17) == Digest(group) && ReadWord(c, 25) == previous
  {
    hide Digest, ToLittle, FromLittle, Pow256, CertificateBody, Certificate;
    Widths();
    CertificateFields(revision, group, previous);
    LittleRoundTrip(revision, 8);
    LittleRoundTrip(|group| % WORD, 8);
    LittleRoundTrip(Digest(group), 8);
    LittleRoundTrip(previous, 8);
    LittleRoundTrip(Digest(CertificateBody(revision, group, previous)), 8);
  }

  lemma GroupFields(revision: Word, payload: Octets)
    ensures var g, body := Group(revision, payload), GroupBody(revision, payload);
      && |g| == 13 + |payload| + 8 && g[0] == G && g[..13 + |payload|] == body
      && g[1..9] == ToLittle(revision, 8) && g[9..13] == ToLittle(|payload| % 0x1_0000_0000, 4)
      && g[13 + |payload|..13 + |payload| + 8] == ToLittle(Digest(body), 8)
  {
    hide Digest, ToLittle;
  }

  lemma {:induction false} GroupReads(revision: Word, payload: Octets)
    ensures var g := Group(revision, payload);
      && |g| == 13 + |payload| + 8 && g[0] == G
      && ReadWord(g, 1) == revision && FromLittle(g[9..13]) == |payload| % 0x1_0000_0000
      && Digest(g[..13 + |payload|]) == ReadWord(g, 13 + |payload|)
  {
    hide Digest, ToLittle, FromLittle, Pow256, GroupBody, Group;
    Widths();
    GroupFields(revision, payload);
    LittleRoundTrip(revision, 8);
    LittleRoundTrip(|payload| % 0x1_0000_0000, 4);
    LittleRoundTrip(Digest(GroupBody(revision, payload)), 8);
  }

  // What recovery promises

  /** A certificate cut anywhere before its end leaves the previous frontier, whatever the group holds. */
  lemma CutCertificateRecoversPrevious(group: Octets, payload: Octets, cut: nat)
    requires cut < |Certificate(1, Group(1, payload), 0)|
    ensures Recover(group, Certificate(1, Group(1, payload), 0)[..cut]) == Frontier(0)
  {
    hide Digest, GroupChecks, Group;
    CertificateFields(1, Group(1, payload), 0);
  }

  /** The complete pair recovers the new frontier exactly when the payload's length fits its 32-bit field. */
  lemma {:induction false} CompletePairRecoversNext(payload: Octets)
    ensures var g := Group(1, payload);
      Recover(g, Certificate(1, g, 0)) == if |payload| < 0x1_0000_0000 then Frontier(1) else IntegrityFailure
  {
    hide Digest, Group, Certificate, FromLittle;
    var g := Group(1, payload);
    CertificateReads(1, g, 0);
    GroupReads(1, payload);
  }

  /** Any group whose length or checksum differs from the certified one is refused. */
  lemma {:induction false} OtherGroupFails(payload: Octets, group: Octets)
    requires |Group(1, payload)| < WORD
    requires |group| != |Group(1, payload)| || Digest(group) != Digest(Group(1, payload))
    ensures Recover(group, Certificate(1, Group(1, payload), 0)) == IntegrityFailure
  {
    hide Digest, Group, Certificate, FromLittle;
    CertificateReads(1, Group(1, payload), 0);
    GroupReads(1, payload);
  }

  lemma {:induction false} TruncatedGroupFails(payload: Octets, cut: nat)
    requires |Group(1, payload)| < WORD && cut < |Group(1, payload)|
    ensures Recover(Group(1, payload)[..cut], Certificate(1, Group(1, payload), 0)) == IntegrityFailure
  {
    hide Digest, Group, Certificate, Recover;
    OtherGroupFails(payload, Group(1, payload)[..cut]);
  }

  /** Any single changed byte of a certified group is an integrity failure. */
  lemma {:induction false} ChangedGroupFails(payload: Octets, i: nat, b: Byte)
    requires |Group(1, payload)| < WORD && i < |Group(1, payload)| && b != Group(1, payload)[i]
    ensures Recover(Group(1, payload)[i := b], Certificate(1, Group(1, payload), 0)) == IntegrityFailure
  {
    hide Digest, Group, Certificate, Recover;
    SingleByteChangesDigest(Group(1, payload), i, b);
    OtherGroupFails(payload, Group(1, payload)[i := b]);
  }

  /** Any single changed byte of a complete certificate is an integrity failure, whatever the group holds. */
  lemma {:induction false} ChangedCertificateFails(payload: Octets, group: Octets, i: nat, b: Byte)
    requires i < |Certificate(1, Group(1, payload), 0)| && b != Certificate(1, Group(1, payload), 0)[i]
    ensures Recover(group, Certificate(1, Group(1, payload), 0)[i := b]) == IntegrityFailure
  {
    hide Digest, Group, Certificate, FromLittle, GroupChecks;
    var c := Certificate(1, Group(1, payload), 0);
    var changed := c[i := b];
    CertificateReads(1, Group(1, payload), 0);
    if i < 33 {
      assert changed[..33] == c[..33][i := b] && changed[33..41] == c[33..41];
      SingleByteChangesDigest(c[..33], i, b);
    } else {
      assert changed[..33] == c[..33];
      assert changed[33..41] != c[33..41] by { assert changed[33..41][i - 33] != c[33..41][i - 33]; }
      LittleRestores(changed[33..41]);
      LittleRestores(c[33..41]);
    }
  }
}
