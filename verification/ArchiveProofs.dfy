/** Round trip, normal form, truncation and size of the CAB wire form. */
module ArchiveProofs {
  import opened Basics
  import opened Wire
  import opened Fingerprints
  import opened Archive

  // ── Bundles the wire can carry ────────────────────────────────────

  predicate FamilyFits(f: PerFamily) {
    |f.mldsa65| < 0x1_0000 && |f.falcon512| < 0x1_0000 && |f.slhdsa128f| < 0x1_0000
  }

  predicate CoreFits(b: Bundle) {
    && b.header.magic == CAB_MAGIC && PlainType(b.header.computationType)
    && FamilyFits(b.signerKeys) && FamilyFits(b.signatures)
    && |b.evidence.metadata| < 0x1_0000_0000 && Fits(b.fingerprint)
  }

  predicate IdentityFits(c: IdentityCodec, id: SignerIdentity) {
    |c.encode(id)| < 0x1_0000_0000
  }

  /** The right magic, no named code written as a custom one, and every length within its prefix. */
  predicate Canonical(c: IdentityCodec, b: Bundle) {
    CoreFits(b) && IdentityFits(c, b.identity)
  }

  lemma TypeCodeReads(t: ComputationType)
    ensures TypeOf(TypeCode(t)) == t <==> PlainType(t)
  {
  }

  // ── What is written is read back ──────────────────────────────────

  lemma HeaderPartsAt(bytes: Bytes, h: Header)
    requires At(bytes, 0, HeaderBytes(h))
    ensures At(bytes, 0, h.magic) && At(bytes, 4, U16Bytes(h.version)) && At(bytes, 6, PrimitiveBytes(h.primitive))
    ensures At(bytes, 64, h.contentHash) && At(bytes, 96, U16Bytes(TypeCode(h.computationType)))
    ensures At(bytes, 98, U64Bytes(h.timestampNs))
  {
    var front := h.magic + U16Bytes(h.version) + PrimitiveBytes(h.primitive);
    AtSplit3(bytes, 0, front + h.contentHash, U16Bytes(TypeCode(h.computationType)), U64Bytes(h.timestampNs));
    AtSplit(bytes, 0, front, h.contentHash);
    AtSplit3(bytes, 0, h.magic, U16Bytes(h.version), PrimitiveBytes(h.primitive));
  }

  lemma ReadsPrimitive(bytes: Bytes, pos: nat, p: Primitive)
    requires At(bytes, pos, PrimitiveBytes(p))
    ensures ReadPrimitive(bytes, pos) == Ok(Got(p, pos + 58))
  {
    PrimitiveReads(p);
  }

  lemma ReadHeaderInParts(bytes: Bytes, h: Header)
    requires ReadMagic(bytes) == Ok(Got(h.magic, 4)) && ReadU16(bytes, 4) == Ok(Got(h.version, 6))
    requires ReadPrimitive(bytes, 6) == Ok(Got(h.primitive, 64)) && ReadDigest(bytes, 64) == Ok(Got(h.contentHash, 96))
    requires ReadU16(bytes, 96) == Ok(Got(TypeCode(h.computationType), 98))
    requires ReadU64(bytes, 98) == Ok(Got(h.timestampNs, 106)) && PlainType(h.computationType)
    ensures ReadHeader(bytes) == Ok(Got(h, 106))
  {
    TypeCodeReads(h.computationType);
  }

  lemma ReadsHeader(bytes: Bytes, h: Header)
    requires At(bytes, 0, HeaderBytes(h)) && h.magic == CAB_MAGIC && PlainType(h.computationType)
    ensures ReadHeader(bytes) == Ok(Got(h, 106))
  {
    HeaderPartsAt(bytes, h);
    ReadsU16(bytes, 4, h.version);
    ReadsPrimitive(bytes, 6, h.primitive);
    ReadsU16(bytes, 96, TypeCode(h.computationType));
    ReadsU64(bytes, 98, h.timestampNs);
    ReadHeaderInParts(bytes, h);
  }

  lemma ReadsWholeBlock16(bytes: Bytes, pos: nat, data: Bytes)
    requires At(bytes, pos, Block16(data)) && |data| < 0x1_0000
    ensures ReadBlock16(bytes, pos) == Ok(Got(data, pos + 2 + |data|))
  {
    ReadsBlock16(bytes, pos, data);
    assert data[..|data|] == data;
  }

  lemma ReadsWholeBlock32(bytes: Bytes, pos: nat, data: Bytes)
    requires At(bytes, pos, Block32(data)) && |data| < 0x1_0000_0000
    ensures ReadBlock32(bytes, pos) == Ok(Got(data, pos + 4 + |data|))
  {
    ReadsBlock32(bytes, pos, data);
    assert data[..|data|] == data;
  }

  lemma ReadsPerFamily(bytes: Bytes, pos: nat, f: PerFamily)
    requires At(bytes, pos, PerFamilyBytes(f)) && FamilyFits(f)
    ensures ReadPerFamily(bytes, pos) == Ok(Got(f, pos + |PerFamilyBytes(f)|))
  {
    AtSplit3(bytes, pos, Block16(f.mldsa65), Block16(f.falcon512), Block16(f.slhdsa128f));
    var p := pos + 2 + |f.mldsa65|;
    var q := p + 2 + |f.falcon512|;
    ReadsWholeBlock16(bytes, pos, f.mldsa65);
    ReadsWholeBlock16(bytes, p, f.falcon512);
    ReadsWholeBlock16(bytes, q, f.slhdsa128f);
  }

  lemma ReadsAnchor(bytes: Bytes, pos: nat, a: Option<OnChainAnchor>)
    requires At(bytes, pos, OptionalAnchor(a))
    ensures ReadAnchor(bytes, pos) == Ok(Got(a, pos + |OptionalAnchor(a)|))
  {
    if a.Some? {
      var data := AnchorBytes(a.value);
      AtSplit(bytes, pos, [1], data);
      ReadsByte(bytes, pos, 1);
      assert data[..32] == a.value.hash && data[32..] == a.value.retrievalPointer;
    } else {
      ReadsByte(bytes, pos, 0);
    }
  }

  lemma ReadsEvidence(bytes: Bytes, pos: nat, e: Evidence)
    requires At(bytes, pos, EvidenceBytes(e)) && |e.metadata| < 0x1_0000_0000
    ensures ReadEvidence(bytes, pos) == Ok(Got(e, pos + |EvidenceBytes(e)|))
  {
    AtSplit3(bytes, pos, Block32(e.metadata), OptionalAnchor(e.anchor), [LevelCode(e.completeness)]);
    var p := pos + 4 + |e.metadata|;
    ReadsWholeBlock32(bytes, pos, e.metadata);
    ReadsAnchor(bytes, p, e.anchor);
    ReadsByte(bytes, p + |OptionalAnchor(e.anchor)|, LevelCode(e.completeness));
  }

  /** These bytes read as the fingerprint, and fit a block. */
  predicate Writes(data: Bytes, fp: Fingerprint) {
    |data| < 0x1_0000_0000 && ReadFingerprint(data).Ok? && ReadFingerprint(data).value.value == fp
  }

  lemma ReadBlockInParts(bytes: Bytes, pos: nat, data: Bytes, fp: Fingerprint, end: nat)
    requires ReadBlock32(bytes, pos) == Ok(Got(data, end)) && Writes(data, fp)
    ensures ReadFingerprintBlock(bytes, pos) == Ok(Got(fp, end))
  {
  }

  lemma ReadsBlockOf(bytes: Bytes, pos: nat, data: Bytes, fp: Fingerprint, end: nat)
    requires At(bytes, pos, Block32(data)) && Writes(data, fp) && end == pos + 4 + |data|
    ensures ReadFingerprintBlock(bytes, pos) == Ok(Got(fp, end))
  {
    ReadsWholeBlock32(bytes, pos, data);
    ReadBlockInParts(bytes, pos, data, fp, end);
  }

  lemma ReadsOwnFingerprint(fp: Fingerprint, data: Bytes)
    requires Fits(fp) && data == FingerprintBytes(fp)
    ensures Writes(data, fp)
  {
    assert data[0..|data|] == data;
    ReadsFingerprint(data, fp);
    FingerprintSize(fp);
  }

  lemma SplitCore(bytes: Bytes, h: Bytes, s: Bytes, t: Bytes, e: Bytes, f: Bytes)
    requires At(bytes, 0, h + (s + t) + e + f)
    ensures At(bytes, 0, h) && At(bytes, |h|, s) && At(bytes, |h| + |s|, t)
    ensures At(bytes, |h| + |s| + |t|, e) && At(bytes, |h| + |s| + |t| + |e|, f)
  {
    AtSplit3(bytes, 0, h + (s + t), e, f);
    AtSplit(bytes, 0, h, s + t);
    AtSplit(bytes, |h|, s, t);
  }

  /** Where the parts of a written bundle start, and where its fingerprint block ends. */
  datatype Layout = Layout(signatures: nat, evidence: nat, fingerprint: nat, end: nat)

  predicate SignerAt(bytes: Bytes, b: Bundle, l: Layout) {
    && At(bytes, 106, PerFamilyBytes(b.signerKeys)) && l.signatures == 106 + |PerFamilyBytes(b.signerKeys)|
    && At(bytes, l.signatures, PerFamilyBytes(b.signatures)) && l.evidence == l.signatures + |PerFamilyBytes(b.signatures)|
  }

  predicate EvidenceAt(bytes: Bytes, b: Bundle, l: Layout) {
    At(bytes, l.evidence, EvidenceBytes(b.evidence)) && l.fingerprint == l.evidence + |EvidenceBytes(b.evidence)|
  }

  predicate FingerprintAt(bytes: Bytes, f: Bytes, l: Layout) {
    At(bytes, l.fingerprint, Block32(f)) && l.end == l.fingerprint + 4 + |f|
  }

  lemma LayoutOf(bytes: Bytes, b: Bundle, f: Bytes) returns (l: Layout)
    requires At(bytes, 0, CoreBytes(b)) && f == FingerprintBytes(b.fingerprint)
    ensures At(bytes, 0, HeaderBytes(b.header)) && SignerAt(bytes, b, l)
    ensures EvidenceAt(bytes, b, l) && FingerprintAt(bytes, f, l)
    ensures l.end == |CoreBytes(b)|
  {
    var h, k, s, e := HeaderBytes(b.header), PerFamilyBytes(b.signerKeys), PerFamilyBytes(b.signatures),
                      EvidenceBytes(b.evidence);
    l := Layout(106 + |k|, 106 + |k| + |s|, 106 + |k| + |s| + |e|, 106 + |k| + |s| + |e| + 4 + |f|);
    assert |Block32(f)| == 4 + |f|;
    SplitCore(bytes, h, k, s, e, Block32(f));
  }

  lemma ReadsKeysPart(bytes: Bytes, b: Bundle, l: Layout)
    requires SignerAt(bytes, b, l) && FamilyFits(b.signerKeys)
    ensures ReadPerFamily(bytes, 106) == Ok(Got(b.signerKeys, l.signatures))
  {
    ReadsPerFamily(bytes, 106, b.signerKeys);
  }

  lemma ReadsSignaturesPart(bytes: Bytes, b: Bundle, l: Layout)
    requires SignerAt(bytes, b, l) && FamilyFits(b.signatures)
    ensures ReadPerFamily(bytes, l.signatures) == Ok(Got(b.signatures, l.evidence))
  {
    ReadsPerFamily(bytes, l.signatures, b.signatures);
  }

  lemma ReadsEvidencePart(bytes: Bytes, b: Bundle, l: Layout)
    requires EvidenceAt(bytes, b, l) && |b.evidence.metadata| < 0x1_0000_0000
    ensures ReadEvidence(bytes, l.evidence) == Ok(Got(b.evidence, l.fingerprint))
  {
    ReadsEvidence(bytes, l.evidence, b.evidence);
  }

  lemma ReadsFingerprintPart(bytes: Bytes, fp: Fingerprint, f: Bytes, l: Layout)
    requires FingerprintAt(bytes, f, l) && Writes(f, fp)
    ensures ReadFingerprintBlock(bytes, l.fingerprint) == Ok(Got(fp, l.end))
  {
    ReadsBlockOf(bytes, l.fingerprint, f, fp, l.end);
  }

  lemma ReadCoreInParts(bytes: Bytes, b: Bundle, l: Layout)
    requires ReadHeader(bytes) == Ok(Got(b.header, 106))
    requires ReadPerFamily(bytes, 106) == Ok(Got(b.signerKeys, l.signatures))
    requires ReadPerFamily(bytes, l.signatures) == Ok(Got(b.signatures, l.evidence))
    requires ReadEvidence(bytes, l.evidence) == Ok(Got(b.evidence, l.fingerprint))
    requires ReadFingerprintBlock(bytes, l.fingerprint) == Ok(Got(b.fingerprint, l.end))
    ensures ReadCore(bytes) == Ok(Got(b.(identity := DEFAULT_IDENTITY), l.end))
  {
  }

  lemma ReadsCore(bytes: Bytes, b: Bundle)
    requires At(bytes, 0, CoreBytes(b)) && CoreFits(b)
    ensures ReadCore(bytes) == Ok(Got(b.(identity := DEFAULT_IDENTITY), |CoreBytes(b)|))
  {
    var f := FingerprintBytes(b.fingerprint);
    var l := LayoutOf(bytes, b, f);
    ReadsHeader(bytes, b.header);
    ReadsKeysPart(bytes, b, l);
    ReadsSignaturesPart(bytes, b, l);
    ReadsEvidencePart(bytes, b, l);
    ReadsOwnFingerprint(b.fingerprint, f);
    ReadsFingerprintPart(bytes, b.fingerprint, f, l);
    ReadCoreInParts(bytes, b, l);
  }

  // ── What can be read fits ─────────────────────────────────────────

  lemma ReadHeaderFits(bytes: Bytes)
    requires ReadHeader(bytes).Ok?
    ensures var h := ReadHeader(bytes).value.value; h.magic == CAB_MAGIC && PlainType(h.computationType)
  {
  }

  lemma ReadPerFamilyFits(bytes: Bytes, pos: nat)
    requires ReadPerFamily(bytes, pos).Ok?
    ensures FamilyFits(ReadPerFamily(bytes, pos).value.value)
  {
  }

  lemma ReadEvidenceFits(bytes: Bytes, pos: nat)
    requires ReadEvidence(bytes, pos).Ok?
    ensures |ReadEvidence(bytes, pos).value.value.metadata| < 0x1_0000_0000
  {
  }

  lemma ReadFingerprintBlockFits(bytes: Bytes, pos: nat)
    requires ReadFingerprintBlock(bytes, pos).Ok?
    ensures Fits(ReadFingerprintBlock(bytes, pos).value.value)
  {
    ReadFingerprintFits(ReadBlock32(bytes, pos).value.value);
  }

  lemma ReadCoreFits(bytes: Bytes)
    requires ReadCore(bytes).Ok?
    ensures CoreFits(ReadCore(bytes).value.value)
  {
    var header := ReadHeader(bytes).value;
    var signerKeys := ReadPerFamily(bytes, header.next).value;
    var signatures := ReadPerFamily(bytes, signerKeys.next).value;
    var evidence := ReadEvidence(bytes, signatures.next).value;
    ReadHeaderFits(bytes);
    ReadPerFamilyFits(bytes, header.next);
    ReadPerFamilyFits(bytes, signerKeys.next);
    ReadEvidenceFits(bytes, signatures.next);
    ReadFingerprintBlockFits(bytes, evidence.next);
  }

  // ── Reading does not look past the cursor ─────────────────────────

  lemma HeaderStable(bytes: Bytes, more: Bytes)
    requires Extends(more, bytes) && ReadHeader(bytes).Ok?
    ensures ReadHeader(more) == ReadHeader(bytes)
  {
    var version := ReadU16(bytes, 4).value;
    var primitive := ReadPrimitive(bytes, version.next).value;
    var contentHash := ReadDigest(bytes, primitive.next).value;
    var code := ReadU16(bytes, contentHash.next).value;
    TakeStable(bytes, more, 0, 4);
    ReadsStable(bytes, more, 4);
    TakeStable(bytes, more, version.next, 58);
    ReadsStable(bytes, more, primitive.next);
    ReadsStable(bytes, more, contentHash.next);
    ReadsStable(bytes, more, code.next);
  }

  lemma PerFamilyStable(bytes: Bytes, more: Bytes, pos: nat)
    requires Extends(more, bytes) && ReadPerFamily(bytes, pos).Ok?
    ensures ReadPerFamily(more, pos) == ReadPerFamily(bytes, pos)
  {
    var a := ReadBlock16(bytes, pos).value;
    var b := ReadBlock16(bytes, a.next).value;
    BlocksStable(bytes, more, pos);
    BlocksStable(bytes, more, a.next);
    BlocksStable(bytes, more, b.next);
  }

  lemma EvidenceStable(bytes: Bytes, more: Bytes, pos: nat)
    requires Extends(more, bytes) && ReadEvidence(bytes, pos).Ok?
    ensures ReadEvidence(more, pos) == ReadEvidence(bytes, pos)
  {
    var metadata := ReadBlock32(bytes, pos).value;
    var anchor := ReadAnchor(bytes, metadata.next).value;
    BlocksStable(bytes, more, pos);
    ReadsStable(bytes, more, metadata.next);
    if bytes[metadata.next] == 1 {
      TakeStable(bytes, more, metadata.next + 1, 74);
    }
    ReadsStable(bytes, more, anchor.next);
  }

  lemma CoreStable(bytes: Bytes, more: Bytes)
    requires Extends(more, bytes) && ReadCore(bytes).Ok?
    ensures ReadCore(more) == ReadCore(bytes)
  {
    var header := ReadHeader(bytes).value;
    var signerKeys := ReadPerFamily(bytes, header.next).value;
    var signatures := ReadPerFamily(bytes, signerKeys.next).value;
    var evidence := ReadEvidence(bytes, signatures.next).value;
    HeaderStable(bytes, more);
    PerFamilyStable(bytes, more, header.next);
    PerFamilyStable(bytes, more, signerKeys.next);
    EvidenceStable(bytes, more, signatures.next);
    BlocksStable(bytes, more, evidence.next);
  }

  // ── The identity tail ─────────────────────────────────────────────

  /** Reading an identity back gives it exactly when its text fits; an oversized one comes back as the default. */
  lemma ReadsIdentity(c: IdentityCodec, bytes: Bytes, pos: nat, id: SignerIdentity)
    requires CodecFaithful(c) && At(bytes, pos, Block32(c.encode(id)))
    ensures ReadIdentity(c, bytes, pos) == if IdentityFits(c, id) then id else DEFAULT_IDENTITY
    ensures !IdentityFits(c, id) ==> id != DEFAULT_IDENTITY
  {
    var text := c.encode(id);
    var k := |text| % 0x1_0000_0000;
    ReadsBlock32(bytes, pos, text);
    assert c.decode(text) == Some(id);
    if IdentityFits(c, id) {
      assert text[..k] == text;
      if text == [] { EmptyTextIsDefault(c, id); }
    } else {
      assert c.decode(text[..k]) == None;
    }
  }

  lemma CutTextUnread(c: IdentityCodec, x: SignerIdentity, k: nat)
    requires CodecFaithful(c) && k <= |c.encode(x)|
    ensures k < |c.encode(x)| ==> c.decode(c.encode(x)[..k]) == None
  {
  }

  lemma EmptyTextIsDefault(c: IdentityCodec, id: SignerIdentity)
    requires CodecFaithful(c) && c.encode(id) == []
    ensures id == DEFAULT_IDENTITY
  {
    CutTextUnread(c, DEFAULT_IDENTITY, 0);
    assert c.encode(DEFAULT_IDENTITY)[..0] == [];
    assert c.decode(c.encode(id)) == Some(id) && c.decode(c.encode(DEFAULT_IDENTITY)) == Some(DEFAULT_IDENTITY);
  }

  // ── Main results ──────────────────────────────────────────────────

  lemma ReadsSerialized(c: IdentityCodec, b: Bundle, rest: Bytes)
    requires CodecFaithful(c) && CoreFits(b)
    ensures Deserialized(c, Serialized(c, b) + rest)
         == Ok(b.(identity := if IdentityFits(c, b.identity) then b.identity else DEFAULT_IDENTITY))
  {
    var core, tail := CoreBytes(b), Block32(c.encode(b.identity));
    var bytes := Serialized(c, b) + rest;
    AtFront(core + tail, rest);
    AtSplit(bytes, 0, core, tail);
    ReadsCore(bytes, b);
    ReadsIdentity(c, bytes, |core|, b.identity);
  }

  /** The round trip holds for the canonical bundles and for no others. */
  lemma RoundTrip(c: IdentityCodec, b: Bundle)
    requires CodecFaithful(c)
    ensures Deserialized(c, Serialized(c, b)) == Ok(b) <==> Canonical(c, b)
  {
    var bytes := Serialized(c, b);
    assert bytes + [] == bytes;
    if CoreFits(b) {
      ReadsSerialized(c, b, []);
      ReadsIdentity(c, Block32(c.encode(b.identity)), 0, b.identity);
    } else if ReadCore(bytes).Ok? {
      ReadCoreFits(bytes);
    }
  }

  /** Bytes after the full form change nothing. */
  lemma AppendedBytesIgnored(c: IdentityCodec, b: Bundle, rest: Bytes)
    requires CodecFaithful(c) && Canonical(c, b)
    ensures Deserialized(c, Serialized(c, b) + rest) == Ok(b)
  {
    ReadsSerialized(c, b, rest);
  }

  lemma CutCoreRejected(bytes: Bytes, b: Bundle, k: nat)
    requires At(bytes, 0, CoreBytes(b)) && CoreFits(b) && k < |CoreBytes(b)|
    ensures ReadCore(bytes[..k]).Err?
  {
    ReadsCore(bytes, b);
    if ReadCore(bytes[..k]).Ok? {
      CoreStable(bytes[..k], bytes);
    }
  }

  lemma FrontOfRest<T>(s: seq<T>, pos: nat, t: seq<T>, n: nat)
    requires pos + n <= |s| <= pos + |t| && s[pos..] == t[..|s| - pos]
    ensures s[pos..pos + n] == t[..n]
  {
    assert s[pos..pos + n] == s[pos..][..n];
    assert t[..n] == t[..|s| - pos][..n];
  }

  lemma CutTailUnread(cut: Bytes, pos: nat, data: Bytes)
    requires |data| < 0x1_0000_0000 && pos <= |cut| < pos + |Block32(data)|
    requires cut[pos..] == Block32(data)[..|cut| - pos]
    ensures ReadBlock32(cut, pos).Err?
  {
    if |cut| >= pos + 4 {
      FrontOfRest(cut, pos, Block32(data), 4);
      assert Block32(data)[..4] == U32Bytes(|data|);
      ReadsU32(cut, pos, |data|);
    }
  }

  lemma CutTailReads(c: IdentityCodec, b: Bundle, k: nat)
    requires Canonical(c, b) && |CoreBytes(b)| <= k < |Serialized(c, b)|
    ensures Deserialized(c, Serialized(c, b)[..k]) == Ok(b.(identity := DEFAULT_IDENTITY))
  {
    var core, tail := CoreBytes(b), Block32(c.encode(b.identity));
    var cut := (core + tail)[..k];
    assert cut == core + tail[..k - |core|];
    AtFront(core, tail[..k - |core|]);
    ReadsCore(cut, b);
    CutTailUnread(cut, |core|, c.encode(b.identity));
  }

  /**
   Every prefix of the wire form of a canonical bundle: one that ends before the fingerprint does is rejected, one that
   ends inside the identity tail reads as the bundle with the default identity, and the whole reads as the bundle.
   */
  lemma Prefixes(c: IdentityCodec, b: Bundle, k: nat)
    requires CodecFaithful(c) && Canonical(c, b) && k <= |Serialized(c, b)|
    ensures var r := Deserialized(c, Serialized(c, b)[..k]);
            if k < |CoreBytes(b)| then r.Err?
            else if k < |Serialized(c, b)| then r == Ok(b.(identity := DEFAULT_IDENTITY))
            else r == Ok(b)
  {
    var core, tail := CoreBytes(b), Block32(c.encode(b.identity));
    var bytes := Serialized(c, b);
    AtFront(core, tail);
    if k < |core| {
      CutCoreRejected(bytes, b, k);
    } else if k < |bytes| {
      CutTailReads(c, b, k);
    } else {
      assert bytes[..k] == bytes;
      RoundTrip(c, b);
    }
  }

  /**
   Normal form: whatever bytes are accepted, the bundle read fits its fields, and writing it and
   reading that back gives it again exactly when its identity's text fits its prefix.
   */
  lemma NormalForm(c: IdentityCodec, bytes: Bytes)
    requires CodecFaithful(c) && Deserialized(c, bytes).Ok?
    ensures var b := Deserialized(c, bytes).value;
            && CoreFits(b)
            && (Deserialized(c, Serialized(c, b)) == Ok(b) <==> IdentityFits(c, b.identity))
  {
    ReadCoreFits(bytes);
    RoundTrip(c, Deserialized(c, bytes).value);
  }

  /** Writing an identity that was read takes at most `slack` more bytes than it was read from. */
  ghost predicate Stretches(c: IdentityCodec, slack: nat) {
    forall s :: c.decode(s).Some? ==> |c.encode(c.decode(s).value)| <= |s| + slack
  }

  /** So all accepted input survives rewriting unless it is within the codec's slack of four gibibytes. */
  lemma ShortInputIsStable(c: IdentityCodec, bytes: Bytes, slack: nat)
    requires CodecFaithful(c) && Stretches(c, slack) && |bytes| + slack < 0x1_0000_0000
    requires Deserialized(c, bytes).Ok?
    ensures var b := Deserialized(c, bytes).value; Deserialized(c, Serialized(c, b)) == Ok(b)
  {
    NormalForm(c, bytes);
  }

  /** A core with any identity text after it reads as the bundle with the identity that text holds. */
  lemma ReadsForeignIdentity(c: IdentityCodec, b: Bundle, text: Bytes)
    requires CodecFaithful(c) && CoreFits(b) && 0 < |text| < 0x1_0000_0000 && c.decode(text) == Some(b.identity)
    ensures Deserialized(c, CoreBytes(b) + Block32(text)) == Ok(b)
  {
    var bytes := CoreBytes(b) + Block32(text);
    assert At(bytes, 0, CoreBytes(b) + Block32(text));
    AtSplit(bytes, 0, CoreBytes(b), Block32(text));
    ReadsCore(bytes, b);
    ReadsWholeBlock32(bytes, |CoreBytes(b)|, text);
  }

  /** The exception is real: an identity read from a text that fits, whose own text does not, is lost. */
  lemma OversizedIdentityIsLost(c: IdentityCodec, b: Bundle, text: Bytes)
    requires CodecFaithful(c) && CoreFits(b) && |text| < 0x1_0000_0000
    requires c.decode(text) == Some(b.identity) && !IdentityFits(c, b.identity)
    ensures Deserialized(c, CoreBytes(b) + Block32(text)) == Ok(b)
    ensures Deserialized(c, Serialized(c, b)) == Ok(b.(identity := DEFAULT_IDENTITY)) != Ok(b)
  {
    CutTextUnread(c, b.identity, 0);
    assert c.encode(b.identity)[..0] == [];
    ReadsForeignIdentity(c, b, text);
    ReadsSerialized(c, b, []);
    assert Serialized(c, b) + [] == Serialized(c, b);
    RoundTrip(c, b);
  }

  // ── Verdicts ──────────────────────────────────────────────────────

  function Listed(items: seq<string>): string {
    if |items| == 0 then "" else if |items| == 1 then items[0] else Listed(items[..|items| - 1]) + "; " + items[|items| - 1]
  }

  lemma {:induction false} ListedTwo(a: string, b: string)
    ensures JoinReasons([a, b]) == a + "; " + b && Listed([a, b]) == a + "; " + b
  {
    assert [a, b][1..] == [b] && [a, b][..1] == [a];
    assert JoinReasons([b]) == b && Listed([a]) == a;
  }

  lemma {:induction false} ListedIs(items: seq<string>)
    requires |items| <= 3
    ensures JoinReasons(items) == Listed(items)
  {
    if |items| == 2 {
      ListedTwo(items[0], items[1]);
      assert items == [items[0], items[1]];
    } else if |items| == 3 {
      ListedTwo(items[1], items[2]);
      ListedTwo(items[0], items[1]);
      assert items[1..] == [items[1], items[2]] && items[..2] == [items[0], items[1]];
    }
  }

  /** All of a verdict: each check by itself, the structure, and the reasons or warnings in their words and order. */
  lemma {:induction false} VerdictIs(v: Verifiers, b: Bundle)
    ensures var r := VerifyBundle(v, b);
            if b.header.magic != [67, 65, 66, 49] then
              r == VerificationResult(Invalid("invalid CAB magic"), Cryptographic(false, false, false, false, false),
                                      Structural(false, false, false, false, false, false))
            else
              var m := v.mldsa65(b.signerKeys.mldsa65, b.header.contentHash, b.signatures.mldsa65);
              var f := v.falcon512(b.signerKeys.falcon512, b.header.contentHash, b.signatures.falcon512);
              var s := v.slhdsa128f(b.signerKeys.slhdsa128f, b.header.contentHash, b.signatures.slhdsa128f);
              var zero: Digest := seq(32, _ => 0);
              var two := (m && f) || (m && s) || (f && s);
              var whole := b.header.primitive.valueHash == b.header.contentHash;
              var present := b.fingerprint.inputHash != zero && b.fingerprint.computationHash != zero;
              var reasons := (if whole then [] else ["content hash mismatch"])
                           + (if two then [] else ["fewer than 2-of-3 signatures valid"])
                           + (if b.header.timestampNs > 0 then [] else ["invalid timestamp"]);
              var warnings := (if b.identity.posture in ["development", "Development"] then ["development posture"] else [])
                            + (if b.identity.keyId == zero then ["missing signer identity"] else [])
                            + (if present then [] else ["fingerprint not present"]);
              && r.cryptographic == Cryptographic(m, f, s, two, m && f && s)
              && r.structural == Structural(true, b.header.version == 1, present, whole, b.header.timestampNs > 0,
                                            b.identity.keyId != zero)
              && r.verdict == if |reasons| > 0 then Invalid(Listed(reasons))
                              else if |warnings| > 0 then ValidWithWarnings(warnings) else Valid
  {
    assert ZERO_DIGEST == seq(32, _ => 0);
    var r := VerifyBundle(v, b);
    if r.verdict.Invalid? {
      var m := v.mldsa65(b.signerKeys.mldsa65, b.header.contentHash, b.signatures.mldsa65);
      var f := v.falcon512(b.signerKeys.falcon512, b.header.contentHash, b.signatures.falcon512);
      var s := v.slhdsa128f(b.signerKeys.slhdsa128f, b.header.contentHash, b.signatures.slhdsa128f);
      ListedIs((if b.header.primitive.valueHash == b.header.contentHash then [] else ["content hash mismatch"])
               + (if (m && f) || (m && s) || (f && s) then [] else ["fewer than 2-of-3 signatures valid"])
               + (if b.header.timestampNs > 0 then [] else ["invalid timestamp"]));
    }
  }
}
