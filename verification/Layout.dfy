/**
 Where every byte of a bundle file stands, by number: the wire layout said once more, from the format's description,
 and proved of both the writer and the parser.
 */
module Layout {
  import opened Basics
  import opened Wire
  import opened Fingerprints
  import opened Archive
  import opened ArchiveProofs

  // ── The layout ────────────────────────────────────────────────────

  // Numbers are written most significant byte first.

  function Two(bytes: Bytes, pos: nat): nat
    requires pos + 2 <= |bytes|
  {
    (bytes[pos] as int) * 256 + bytes[pos + 1]
  }

  function Four(bytes: Bytes, pos: nat): nat
    requires pos + 4 <= |bytes|
  {
    Two(bytes, pos) * 65536 + Two(bytes, pos + 2)
  }

  function Eight(bytes: Bytes, pos: nat): nat
    requires pos + 8 <= |bytes|
  {
    Four(bytes, pos) * 4294967296 + Four(bytes, pos + 4)
  }

  /** From `from` up to `to` stand these bytes. */
  predicate Span(bytes: Bytes, from: nat, to: nat, data: Bytes) {
    from <= to <= |bytes| && bytes[from..to] == data
  }

  /** Two bytes of length, as far as they hold it, and the data. */
  predicate ShortBlock(bytes: Bytes, pos: nat, data: Bytes) {
    pos + 2 <= |bytes| && Two(bytes, pos) == |data| % 65536 && Span(bytes, pos + 2, pos + 2 + |data|, data)
  }

  /** Four bytes of length and the data. */
  predicate LongBlock(bytes: Bytes, pos: nat, data: Bytes) {
    pos + 4 <= |bytes| && Four(bytes, pos) == |data| % 4294967296 && Span(bytes, pos + 4, pos + 4 + |data|, data)
  }

  function CodeNumber(t: ComputationType): nat {
    match t
    case BiometricAuth => 1
    case DocumentAttest => 2
    case SupplyChainVerify => 3
    case FinancialAudit => 4
    case AIModelAttest => 5
    case PostQuantumMigration => 18
    case Custom(code) => code
  }

  predicate HeaderStands(bytes: Bytes, h: Header) {
    && 106 <= |bytes| && Span(bytes, 0, 4, h.magic) && Two(bytes, 4) == h.version
    && bytes[6] == h.primitive.version && Span(bytes, 7, 15, h.primitive.timestamp)
    && Span(bytes, 15, 47, h.primitive.valueHash)
    && Span(bytes, 47, 49, h.primitive.mldsaPrefix) && Span(bytes, 49, 51, h.primitive.falconPrefix)
    && Span(bytes, 51, 53, h.primitive.slhdsaPrefix) && Span(bytes, 53, 64, h.primitive.flags)
    && Span(bytes, 64, 96, h.contentHash) && Two(bytes, 96) == CodeNumber(h.computationType)
    && Eight(bytes, 98) == h.timestampNs
  }

  /** Six length bytes and three byte strings. */
  function FamilyLength(f: PerFamily): nat { 6 + |f.mldsa65| + |f.falcon512| + |f.slhdsa128f| }

  /** First ML-DSA-65, then FALCON-512, then SLH-DSA-SHA2-128f. */
  predicate FamilyStands(bytes: Bytes, pos: nat, f: PerFamily) {
    && ShortBlock(bytes, pos, f.mldsa65)
    && ShortBlock(bytes, pos + 2 + |f.mldsa65|, f.falcon512)
    && ShortBlock(bytes, pos + 4 + |f.mldsa65| + |f.falcon512|, f.slhdsa128f)
  }

  function EvidenceLength(e: Evidence): nat { 4 + |e.metadata| + (if e.anchor.Some? then 75 else 1) + 1 }

  predicate AnchorStands(bytes: Bytes, pos: nat, a: Option<OnChainAnchor>) {
    pos < |bytes| &&
    match a
    case None => bytes[pos] != 1
    case Some(anchor) =>
      && bytes[pos] == 1 && Span(bytes, pos + 1, pos + 33, anchor.hash)
      && Span(bytes, pos + 33, pos + 75, anchor.retrievalPointer)
  }

  predicate LevelStands(bytes: Bytes, pos: nat, level: CompletenessLevel) {
    pos < |bytes| && bytes[pos] == match level case Complete => 0 case Partial => 1 case MinimalViable => 2
  }

  predicate EvidenceStands(bytes: Bytes, pos: nat, e: Evidence) {
    && LongBlock(bytes, pos, e.metadata) && AnchorStands(bytes, pos + 4 + |e.metadata|, e.anchor)
    && LevelStands(bytes, pos + EvidenceLength(e) - 1, e.completeness)
  }

  function OptionalLength(t: Option<Utf8>): nat { if t.Some? then 3 + |t.value| else 1 }

  predicate OptionalStands(bytes: Bytes, pos: nat, t: Option<Utf8>) {
    pos < |bytes| && if t.Some? then bytes[pos] == 1 && ShortBlock(bytes, pos + 1, t.value) else bytes[pos] != 1
  }

  function VersionLength(v: ComputationVersion): nat { 4 + |v.engine| + |v.version| + OptionalLength(v.circuitId) }

  predicate VersionStands(bytes: Bytes, pos: nat, v: ComputationVersion) {
    && ShortBlock(bytes, pos, v.engine) && ShortBlock(bytes, pos + 2 + |v.engine|, v.version)
    && OptionalStands(bytes, pos + 4 + |v.engine| + |v.version|, v.circuitId)
  }

  function HardwareLength(hw: Option<HardwareClass>): nat {
    if hw.Some? && hw.value.NonDeterministic? then 3 + |hw.value.id| else 1
  }

  predicate HardwareStands(bytes: Bytes, pos: nat, hw: Option<HardwareClass>) {
    pos < |bytes| &&
    match hw
    case None => bytes[pos] == 0
    case Some(Deterministic) => bytes[pos] == 1
    case Some(NearDeterministic) => bytes[pos] == 2
    case Some(NonDeterministic(id)) => bytes[pos] == 3 && ShortBlock(bytes, pos + 1, id)
  }

  function FingerprintLength(fp: Fingerprint): nat { 96 + VersionLength(fp.version) + HardwareLength(fp.hardware) }

  predicate FingerprintStands(bytes: Bytes, fp: Fingerprint) {
    && Span(bytes, 0, 32, fp.inputHash) && Span(bytes, 32, 64, fp.computationHash) && Span(bytes, 64, 96, fp.parameterHash)
    && VersionStands(bytes, 96, fp.version) && HardwareStands(bytes, 96 + VersionLength(fp.version), fp.hardware)
  }

  /** A block of its own, up to `end`, which starts with the fingerprint. */
  predicate FingerprintBlockStands(bytes: Bytes, pos: nat, fp: Fingerprint, end: nat) {
    && pos + 4 <= end <= |bytes| && Four(bytes, pos) == (end - pos - 4) % 4294967296
    && FingerprintStands(bytes[pos + 4..end], fp)
  }

  /** Where the signatures, the evidence and the fingerprint block start, and where the identity does. */
  datatype Places = Places(signatures: nat, evidence: nat, fingerprint: nat, end: nat)

  predicate SignerStands(bytes: Bytes, b: Bundle, p: Places) {
    && FamilyStands(bytes, 106, b.signerKeys) && p.signatures == 106 + FamilyLength(b.signerKeys)
    && FamilyStands(bytes, p.signatures, b.signatures) && p.evidence == p.signatures + FamilyLength(b.signatures)
  }

  predicate RestStands(bytes: Bytes, b: Bundle, p: Places) {
    && EvidenceStands(bytes, p.evidence, b.evidence) && p.fingerprint == p.evidence + EvidenceLength(b.evidence)
    && FingerprintBlockStands(bytes, p.fingerprint, b.fingerprint, p.end)
  }

  /** Everything up to the identity. */
  predicate Stands(bytes: Bytes, b: Bundle, p: Places) {
    HeaderStands(bytes, b.header) && SignerStands(bytes, b, p) && RestStands(bytes, b, p)
  }

  // ── The parser, piece by piece ────────────────────────────────────

  lemma ReadsTwo(bytes: Bytes, pos: nat)
    requires pos + 2 <= |bytes|
    ensures ReadU16(bytes, pos) == Ok(Got(Two(bytes, pos), pos + 2)) && U16Value(bytes[pos..pos + 2]) == Two(bytes, pos)
  {
  }

  lemma ReadsFour(bytes: Bytes, pos: nat)
    requires pos + 4 <= |bytes|
    ensures ReadU32(bytes, pos) == Ok(Got(Four(bytes, pos), pos + 4)) && U32Value(bytes[pos..pos + 4]) == Four(bytes, pos)
  {
    assert bytes[pos..pos + 4][..2] == bytes[pos..pos + 2] && bytes[pos..pos + 4][2..] == bytes[pos + 2..pos + 4];
    ReadsTwo(bytes, pos);
    ReadsTwo(bytes, pos + 2);
  }

  lemma ReadsEight(bytes: Bytes, pos: nat)
    requires pos + 8 <= |bytes|
    ensures ReadU64(bytes, pos) == Ok(Got(Eight(bytes, pos), pos + 8)) && U64Value(bytes[pos..pos + 8]) == Eight(bytes, pos)
  {
    assert bytes[pos..pos + 8][..4] == bytes[pos..pos + 4] && bytes[pos..pos + 8][4..] == bytes[pos + 4..pos + 8];
    ReadsFour(bytes, pos);
    ReadsFour(bytes, pos + 4);
  }

  lemma ReadsTake(bytes: Bytes, pos: nat, n: nat, data: Bytes, next: nat)
    ensures Take(bytes, pos, n) == Ok(Got(data, next)) <==> |data| == n && next == pos + n && Span(bytes, pos, pos + n, data)
  {
  }

  lemma ReadsShort(bytes: Bytes, pos: nat, data: Bytes, next: nat)
    ensures ReadBlock16(bytes, pos) == Ok(Got(data, next)) <==>
            |data| < 65536 && next == pos + 2 + |data| && ShortBlock(bytes, pos, data)
  {
    if pos + 2 <= |bytes| { ReadsTwo(bytes, pos); }
  }

  lemma ReadsLong(bytes: Bytes, pos: nat, data: Bytes, next: nat)
    ensures ReadBlock32(bytes, pos) == Ok(Got(data, next)) <==>
            |data| < 4294967296 && next == pos + 4 + |data| && LongBlock(bytes, pos, data)
  {
    if pos + 4 <= |bytes| { ReadsFour(bytes, pos); }
  }

  lemma ReadsString(bytes: Bytes, pos: nat, t: Utf8, next: nat)
    ensures ReadText(bytes, pos) == Ok(Got(t, next)) <==>
            |t| < 65536 && next == pos + 2 + |t| && ShortBlock(bytes, pos, t)
  {
    ReadsShort(bytes, pos, t, next);
  }

  lemma FamilyInParts(bytes: Bytes, pos: nat, f: PerFamily, p: nat, q: nat, next: nat)
    requires ReadBlock16(bytes, pos) == Ok(Got(f.mldsa65, p)) && ReadBlock16(bytes, p) == Ok(Got(f.falcon512, q))
    requires ReadBlock16(bytes, q) == Ok(Got(f.slhdsa128f, next))
    ensures ReadPerFamily(bytes, pos) == Ok(Got(f, next))
  {
  }

  lemma FamilyParts(bytes: Bytes, pos: nat, f: PerFamily, next: nat) returns (p: nat, q: nat)
    requires ReadPerFamily(bytes, pos) == Ok(Got(f, next))
    ensures ReadBlock16(bytes, pos) == Ok(Got(f.mldsa65, p)) && ReadBlock16(bytes, p) == Ok(Got(f.falcon512, q))
    ensures ReadBlock16(bytes, q) == Ok(Got(f.slhdsa128f, next))
  {
    p := ReadBlock16(bytes, pos).value.next;
    q := ReadBlock16(bytes, p).value.next;
  }

  lemma FamilyReads(bytes: Bytes, pos: nat, f: PerFamily)
    requires FamilyFits(f) && FamilyStands(bytes, pos, f)
    ensures ReadPerFamily(bytes, pos) == Ok(Got(f, pos + FamilyLength(f)))
  {
    var p, q := pos + 2 + |f.mldsa65|, pos + 4 + |f.mldsa65| + |f.falcon512|;
    ReadsShort(bytes, pos, f.mldsa65, p);
    ReadsShort(bytes, p, f.falcon512, q);
    ReadsShort(bytes, q, f.slhdsa128f, pos + FamilyLength(f));
    FamilyInParts(bytes, pos, f, p, q, pos + FamilyLength(f));
  }

  lemma FamilyIsRead(bytes: Bytes, pos: nat, f: PerFamily, next: nat)
    requires ReadPerFamily(bytes, pos) == Ok(Got(f, next))
    ensures FamilyFits(f) && next == pos + FamilyLength(f) && FamilyStands(bytes, pos, f)
  {
    var p, q := FamilyParts(bytes, pos, f, next);
    ReadsShort(bytes, pos, f.mldsa65, p);
    ReadsShort(bytes, p, f.falcon512, q);
    ReadsShort(bytes, q, f.slhdsa128f, next);
  }

  lemma ReadsFlaggedAnchor(bytes: Bytes, pos: nat, a: Option<OnChainAnchor>, next: nat)
    ensures ReadAnchor(bytes, pos) == Ok(Got(a, next)) <==>
            next == pos + (if a.Some? then 75 else 1) && AnchorStands(bytes, pos, a)
  {
    if pos + 75 <= |bytes| {
      var data := bytes[pos + 1..pos + 75];
      assert data[..32] == bytes[pos + 1..pos + 33] && data[32..] == bytes[pos + 33..pos + 75];
    }
  }

  lemma ReadsLevel(bytes: Bytes, pos: nat, level: CompletenessLevel, next: nat)
    ensures ReadCompleteness(bytes, pos) == Ok(Got(level, next)) <==> next == pos + 1 && LevelStands(bytes, pos, level)
  {
  }

  lemma EvidenceInParts(bytes: Bytes, pos: nat, e: Evidence, p: nat, q: nat, next: nat)
    requires ReadBlock32(bytes, pos) == Ok(Got(e.metadata, p)) && ReadAnchor(bytes, p) == Ok(Got(e.anchor, q))
    requires ReadCompleteness(bytes, q) == Ok(Got(e.completeness, next))
    ensures ReadEvidence(bytes, pos) == Ok(Got(e, next))
  {
  }

  lemma EvidenceParts(bytes: Bytes, pos: nat, e: Evidence, next: nat) returns (p: nat, q: nat)
    requires ReadEvidence(bytes, pos) == Ok(Got(e, next))
    ensures ReadBlock32(bytes, pos) == Ok(Got(e.metadata, p)) && ReadAnchor(bytes, p) == Ok(Got(e.anchor, q))
    ensures ReadCompleteness(bytes, q) == Ok(Got(e.completeness, next))
  {
    p := ReadBlock32(bytes, pos).value.next;
    q := ReadAnchor(bytes, p).value.next;
  }

  lemma EvidenceReads(bytes: Bytes, pos: nat, e: Evidence)
    requires |e.metadata| < 4294967296 && EvidenceStands(bytes, pos, e)
    ensures ReadEvidence(bytes, pos) == Ok(Got(e, pos + EvidenceLength(e)))
  {
    var p, next := pos + 4 + |e.metadata|, pos + EvidenceLength(e);
    ReadsLong(bytes, pos, e.metadata, p);
    ReadsFlaggedAnchor(bytes, p, e.anchor, next - 1);
    ReadsLevel(bytes, next - 1, e.completeness, next);
    EvidenceInParts(bytes, pos, e, p, next - 1, next);
  }

  lemma EvidenceIsRead(bytes: Bytes, pos: nat, e: Evidence, next: nat)
    requires ReadEvidence(bytes, pos) == Ok(Got(e, next))
    ensures |e.metadata| < 4294967296 && next == pos + EvidenceLength(e) && EvidenceStands(bytes, pos, e)
  {
    var p, q := EvidenceParts(bytes, pos, e, next);
    ReadsLong(bytes, pos, e.metadata, p);
    ReadsFlaggedAnchor(bytes, p, e.anchor, q);
    ReadsLevel(bytes, q, e.completeness, next);
  }

  lemma ReadsOptional(bytes: Bytes, pos: nat, t: Option<Utf8>, next: nat)
    ensures ReadOptionalText(bytes, pos) == Ok(Got(t, next)) <==>
            TextFits(t) && next == pos + OptionalLength(t) && OptionalStands(bytes, pos, t)
  {
    if t.Some? { ReadsString(bytes, pos + 1, t.value, next); }
  }

  lemma VersionParts(bytes: Bytes, pos: nat, v: ComputationVersion, next: nat) returns (p: nat, q: nat)
    requires ReadVersion(bytes, pos) == Ok(Got(v, next))
    ensures ReadText(bytes, pos) == Ok(Got(v.engine, p)) && ReadText(bytes, p) == Ok(Got(v.version, q))
    ensures ReadOptionalText(bytes, q) == Ok(Got(v.circuitId, next))
  {
    p := ReadText(bytes, pos).value.next;
    q := ReadText(bytes, p).value.next;
  }

  predicate VersionFits(v: ComputationVersion) { |v.engine| < 65536 && |v.version| < 65536 && TextFits(v.circuitId) }

  lemma VersionReads(bytes: Bytes, pos: nat, v: ComputationVersion)
    requires VersionFits(v) && VersionStands(bytes, pos, v)
    ensures ReadVersion(bytes, pos) == Ok(Got(v, pos + VersionLength(v)))
  {
    var p, q := pos + 2 + |v.engine|, pos + 4 + |v.engine| + |v.version|;
    ReadsString(bytes, pos, v.engine, p);
    ReadsString(bytes, p, v.version, q);
    ReadsOptional(bytes, q, v.circuitId, pos + VersionLength(v));
    ReadVersionInParts(bytes, pos, v, p, q, pos + VersionLength(v));
  }

  lemma VersionIsRead(bytes: Bytes, pos: nat, v: ComputationVersion, next: nat)
    requires ReadVersion(bytes, pos) == Ok(Got(v, next))
    ensures VersionFits(v) && next == pos + VersionLength(v) && VersionStands(bytes, pos, v)
  {
    var p, q := VersionParts(bytes, pos, v, next);
    ReadsString(bytes, pos, v.engine, p);
    ReadsString(bytes, p, v.version, q);
    ReadsOptional(bytes, q, v.circuitId, next);
  }

  predicate HardwareFits(hw: Option<HardwareClass>) {
    hw.Some? && hw.value.NonDeterministic? ==> |hw.value.id| < 65536
  }

  lemma ReadsHardwareClass(bytes: Bytes, pos: nat, hw: Option<HardwareClass>, next: nat)
    ensures ReadHardware(bytes, pos) == Ok(Got(hw, next)) <==>
            HardwareFits(hw) && next == pos + HardwareLength(hw) && HardwareStands(bytes, pos, hw)
  {
    if hw.Some? && hw.value.NonDeterministic? { ReadsString(bytes, pos + 1, hw.value.id, next); }
  }

  lemma HashesStand(bytes: Bytes, fp: Fingerprint)
    requires |bytes| >= 96
    ensures bytes[..32] == fp.inputHash && bytes[32..64] == fp.computationHash && bytes[64..96] == fp.parameterHash <==>
            && Span(bytes, 0, 32, fp.inputHash) && Span(bytes, 32, 64, fp.computationHash)
            && Span(bytes, 64, 96, fp.parameterHash)
  {
    assert bytes[..32] == bytes[0..32];
  }

  lemma FingerprintReads(bytes: Bytes, fp: Fingerprint)
    requires Fits(fp) && FingerprintStands(bytes, fp)
    ensures ReadFingerprint(bytes) == Ok(Got(fp, FingerprintLength(fp)))
  {
    var v := 96 + VersionLength(fp.version);
    HashesStand(bytes, fp);
    VersionReads(bytes, 96, fp.version);
    ReadsHardwareClass(bytes, v, fp.hardware, FingerprintLength(fp));
    ReadFingerprintInParts(bytes, fp, v, FingerprintLength(fp));
  }

  lemma FingerprintParts(bytes: Bytes, fp: Fingerprint, next: nat) returns (v: nat)
    requires ReadFingerprint(bytes) == Ok(Got(fp, next))
    ensures |bytes| >= 96 && ReadVersion(bytes, 96) == Ok(Got(fp.version, v))
    ensures ReadHardware(bytes, v) == Ok(Got(fp.hardware, next))
    ensures bytes[..32] == fp.inputHash && bytes[32..64] == fp.computationHash && bytes[64..96] == fp.parameterHash
  {
    v := ReadVersion(bytes, 96).value.next;
  }

  lemma FingerprintIsRead(bytes: Bytes, fp: Fingerprint, next: nat)
    requires ReadFingerprint(bytes) == Ok(Got(fp, next))
    ensures Fits(fp) && next == FingerprintLength(fp) && FingerprintStands(bytes, fp)
  {
    var v := FingerprintParts(bytes, fp, next);
    HashesStand(bytes, fp);
    VersionIsRead(bytes, 96, fp.version, v);
    ReadsHardwareClass(bytes, v, fp.hardware, next);
  }

  lemma FingerprintWrites(data: Bytes, fp: Fingerprint)
    requires Fits(fp) && FingerprintStands(data, fp) && |data| < 4294967296
    ensures Writes(data, fp)
  {
    FingerprintReads(data, fp);
  }

  lemma FingerprintBlockReads(bytes: Bytes, pos: nat, fp: Fingerprint, end: nat)
    requires Fits(fp) && end - pos - 4 < 4294967296 && FingerprintBlockStands(bytes, pos, fp, end)
    ensures ReadFingerprintBlock(bytes, pos) == Ok(Got(fp, end))
  {
    var data := bytes[pos + 4..end];
    ReadsLong(bytes, pos, data, end);
    FingerprintWrites(data, fp);
    ReadBlockInParts(bytes, pos, data, fp, end);
  }

  lemma FingerprintBlockIsRead(bytes: Bytes, pos: nat, fp: Fingerprint, end: nat)
    requires ReadFingerprintBlock(bytes, pos) == Ok(Got(fp, end))
    ensures Fits(fp) && 0 <= end - pos - 4 < 4294967296 && FingerprintBlockStands(bytes, pos, fp, end)
  {
    var data := ReadBlock32(bytes, pos).value.value;
    ReadsLong(bytes, pos, data, end);
    FingerprintIsRead(data, fp, ReadFingerprint(data).value.next);
  }

  /** A custom code is not one of the named ones. */
  predicate PlainCode(t: ComputationType) { t.Custom? ==> t.code !in {1, 2, 3, 4, 5, 18} }

  lemma CodeOfType(t: ComputationType)
    ensures TypeCode(t) == CodeNumber(t) && (PlainType(t) <==> PlainCode(t))
  {
  }

  predicate FixedStands(bytes: Bytes, p: Primitive)
    requires |bytes| >= 106
  {
    && bytes[6] == p.version && Span(bytes, 7, 15, p.timestamp) && Span(bytes, 15, 47, p.valueHash)
    && Span(bytes, 47, 49, p.mldsaPrefix) && Span(bytes, 49, 51, p.falconPrefix)
    && Span(bytes, 51, 53, p.slhdsaPrefix) && Span(bytes, 53, 64, p.flags)
  }

  lemma FixedIs(bytes: Bytes) returns (q: Primitive)
    requires |bytes| >= 106
    ensures ReadPrimitive(bytes, 6) == Ok(Got(q, 64)) && FixedStands(bytes, q)
  {
    q := PrimitiveOf(bytes[6..64]);
    SliceOf(bytes, 6, 64, 1, 9);
    SliceOf(bytes, 6, 64, 9, 41);
    SliceOf(bytes, 6, 64, 41, 43);
    SliceOf(bytes, 6, 64, 43, 45);
    SliceOf(bytes, 6, 64, 45, 47);
    SliceOf(bytes, 6, 64, 47, 58);
  }

  lemma ReadsFixedPart(bytes: Bytes, p: Primitive)
    requires |bytes| >= 106
    ensures ReadPrimitive(bytes, 6) == Ok(Got(p, 64)) <==> FixedStands(bytes, p)
  {
    var q := FixedIs(bytes);
    if FixedStands(bytes, p) {
      assert p.timestamp == q.timestamp && p.valueHash == q.valueHash && p.mldsaPrefix == q.mldsaPrefix;
      assert p.falconPrefix == q.falconPrefix && p.slhdsaPrefix == q.slhdsaPrefix && p.flags == q.flags;
      assert p == q;
    }
  }

  lemma SliceOf(bytes: Bytes, from: nat, to: nat, i: nat, j: nat)
    requires from + i <= from + j <= to <= |bytes|
    ensures bytes[from..to][i..j] == bytes[from + i..from + j]
  {
    forall k | 0 <= k < j - i ensures bytes[from..to][i..j][k] == bytes[from + i..from + j][k] {
    }
  }

  lemma HeaderReads(bytes: Bytes, h: Header)
    requires HeaderStands(bytes, h) && h.magic == [67, 65, 66, 49] && PlainCode(h.computationType)
    ensures ReadHeader(bytes) == Ok(Got(h, 106))
  {
    CodeOfType(h.computationType);
    ReadsFixedPart(bytes, h.primitive);
    ReadsTwo(bytes, 4);
    ReadsTwo(bytes, 96);
    ReadsEight(bytes, 98);
    ReadHeaderInParts(bytes, h);
  }

  lemma HeaderParts(bytes: Bytes, h: Header, next: nat)
    requires ReadHeader(bytes) == Ok(Got(h, next))
    ensures next == 106 <= |bytes| && ReadMagic(bytes) == Ok(Got(h.magic, 4)) && ReadU16(bytes, 4) == Ok(Got(h.version, 6))
    ensures ReadPrimitive(bytes, 6) == Ok(Got(h.primitive, 64)) && ReadDigest(bytes, 64) == Ok(Got(h.contentHash, 96))
    ensures ReadU16(bytes, 96).Ok? && h.computationType == TypeOf(ReadU16(bytes, 96).value.value)
    ensures ReadU64(bytes, 98) == Ok(Got(h.timestampNs, 106))
  {
  }

  lemma HeaderIsRead(bytes: Bytes, h: Header, next: nat)
    requires ReadHeader(bytes) == Ok(Got(h, next))
    ensures next == 106 && HeaderStands(bytes, h) && h.magic == [67, 65, 66, 49] && PlainCode(h.computationType)
  {
    HeaderParts(bytes, h, next);
    ReadsFixedPart(bytes, h.primitive);
    ReadsTwo(bytes, 4);
    ReadsTwo(bytes, 96);
    ReadsEight(bytes, 98);
    CodeOfType(h.computationType);
  }

  // ── The whole file ────────────────────────────────────────────────

  /** What bundles that were read are like. */
  predicate Readable(b: Bundle) {
    && b.header.magic == [67, 65, 66, 49] && PlainCode(b.header.computationType)
    && FamilyFits(b.signerKeys) && FamilyFits(b.signatures) && |b.evidence.metadata| < 4294967296 && Fits(b.fingerprint)
  }

  lemma KeysRead(bytes: Bytes, b: Bundle, p: Places)
    requires SignerStands(bytes, b, p) && FamilyFits(b.signerKeys)
    ensures ReadPerFamily(bytes, 106) == Ok(Got(b.signerKeys, p.signatures))
  {
    FamilyReads(bytes, 106, b.signerKeys);
  }

  lemma SignaturesRead(bytes: Bytes, b: Bundle, p: Places)
    requires SignerStands(bytes, b, p) && FamilyFits(b.signatures)
    ensures ReadPerFamily(bytes, p.signatures) == Ok(Got(b.signatures, p.evidence))
  {
    FamilyReads(bytes, p.signatures, b.signatures);
  }

  lemma EvidenceRead(bytes: Bytes, b: Bundle, p: Places)
    requires RestStands(bytes, b, p) && |b.evidence.metadata| < 4294967296
    ensures ReadEvidence(bytes, p.evidence) == Ok(Got(b.evidence, p.fingerprint))
  {
    EvidenceReads(bytes, p.evidence, b.evidence);
  }

  lemma FingerprintRead(bytes: Bytes, b: Bundle, p: Places)
    requires RestStands(bytes, b, p) && Fits(b.fingerprint) && p.end - p.fingerprint - 4 < 4294967296
    ensures ReadFingerprintBlock(bytes, p.fingerprint) == Ok(Got(b.fingerprint, p.end))
  {
    FingerprintBlockReads(bytes, p.fingerprint, b.fingerprint, p.end);
  }

  lemma CoreReads(bytes: Bytes, b: Bundle, p: Places)
    requires Readable(b) && Stands(bytes, b, p) && p.end - p.fingerprint - 4 < 4294967296
    ensures ReadCore(bytes) == Ok(Got(b.(identity := DEFAULT_IDENTITY), p.end))
  {
    HeaderReads(bytes, b.header);
    KeysRead(bytes, b, p);
    SignaturesRead(bytes, b, p);
    EvidenceRead(bytes, b, p);
    FingerprintRead(bytes, b, p);
    ReadCoreInParts(bytes, b, ArchiveProofs.Layout(p.signatures, p.evidence, p.fingerprint, p.end));
  }

  lemma CoreParts(bytes: Bytes, b: Bundle, end: nat) returns (p: nat, q: nat, r: nat, t: nat)
    requires ReadCore(bytes) == Ok(Got(b, end))
    ensures ReadHeader(bytes) == Ok(Got(b.header, p)) && ReadPerFamily(bytes, p) == Ok(Got(b.signerKeys, q))
    ensures ReadPerFamily(bytes, q) == Ok(Got(b.signatures, r)) && ReadEvidence(bytes, r) == Ok(Got(b.evidence, t))
    ensures ReadFingerprintBlock(bytes, t) == Ok(Got(b.fingerprint, end)) && b.identity == DEFAULT_IDENTITY
  {
    p := ReadHeader(bytes).value.next;
    q := ReadPerFamily(bytes, p).value.next;
    r := ReadPerFamily(bytes, q).value.next;
    t := ReadEvidence(bytes, r).value.next;
  }

  lemma SignerIsRead(bytes: Bytes, b: Bundle, p: Places)
    requires ReadPerFamily(bytes, 106) == Ok(Got(b.signerKeys, p.signatures))
    requires ReadPerFamily(bytes, p.signatures) == Ok(Got(b.signatures, p.evidence))
    ensures SignerStands(bytes, b, p) && FamilyFits(b.signerKeys) && FamilyFits(b.signatures)
  {
    FamilyIsRead(bytes, 106, b.signerKeys, p.signatures);
    FamilyIsRead(bytes, p.signatures, b.signatures, p.evidence);
  }

  lemma RestIsRead(bytes: Bytes, b: Bundle, p: Places)
    requires ReadEvidence(bytes, p.evidence) == Ok(Got(b.evidence, p.fingerprint))
    requires ReadFingerprintBlock(bytes, p.fingerprint) == Ok(Got(b.fingerprint, p.end))
    ensures RestStands(bytes, b, p) && |b.evidence.metadata| < 4294967296 && Fits(b.fingerprint)
    ensures 0 <= p.end - p.fingerprint - 4 < 4294967296
  {
    EvidenceIsRead(bytes, p.evidence, b.evidence, p.fingerprint);
    FingerprintBlockIsRead(bytes, p.fingerprint, b.fingerprint, p.end);
  }

  lemma CoreIsRead(bytes: Bytes, b: Bundle, end: nat) returns (p: Places)
    requires ReadCore(bytes) == Ok(Got(b, end))
    ensures Readable(b) && Stands(bytes, b, p) && 0 <= p.end - p.fingerprint - 4 < 4294967296 && p.end == end
  {
    var h, q, r, t := CoreParts(bytes, b, end);
    p := Places(q, r, t, end);
    HeaderIsRead(bytes, b.header, h);
    SignerIsRead(bytes, b, p);
    RestIsRead(bytes, b, p);
  }

  /**
   The identity after `end`: the JSON text that a four-byte length announces, if it is all there, not empty and readable;
   else thirty-two zero bytes, version 0, no families, no issuer, posture "unknown".
   */
  function IdentityAt(c: IdentityCodec, bytes: Bytes, end: nat): SignerIdentity {
    var unknown := SignerIdentity(seq(32, _ => 0), 0, [], "", "unknown");
    if |bytes| < end + 4 then unknown
    else
      var n := Four(bytes, end);
      if n == 0 || |bytes| < end + 4 + n then unknown
      else c.decode(bytes[end + 4..end + 4 + n]).GetOr(unknown)
  }

  lemma ReadsTail(c: IdentityCodec, bytes: Bytes, end: nat)
    ensures ReadIdentity(c, bytes, end) == IdentityAt(c, bytes, end)
  {
    assert DEFAULT_IDENTITY.keyId == seq(32, _ => 0);
    if |bytes| >= end + 4 { ReadsFour(bytes, end); }
  }

  /** The bundle is what these bytes say. */
  predicate Says(c: IdentityCodec, bytes: Bytes, b: Bundle, p: Places) {
    Stands(bytes, b, p) && p.end - p.fingerprint - 4 < 4294967296 && b.identity == IdentityAt(c, bytes, p.end)
  }

  lemma SaidIsRead(c: IdentityCodec, bytes: Bytes, b: Bundle, p: Places)
    requires Readable(b) && Says(c, bytes, b, p)
    ensures Deserialized(c, bytes) == Ok(b)
  {
    CoreReads(bytes, b, p);
    ReadsTail(c, bytes, p.end);
    ReadInTwo(c, bytes, b, p.end);
  }

  lemma ReadInTwo(c: IdentityCodec, bytes: Bytes, b: Bundle, end: nat)
    requires ReadCore(bytes) == Ok(Got(b.(identity := DEFAULT_IDENTITY), end)) && ReadIdentity(c, bytes, end) == b.identity
    ensures Deserialized(c, bytes) == Ok(b)
  {
  }

  lemma ReadInParts(c: IdentityCodec, bytes: Bytes, b: Bundle) returns (core: Bundle, end: nat)
    requires Deserialized(c, bytes) == Ok(b)
    ensures ReadCore(bytes) == Ok(Got(core, end)) && b == core.(identity := ReadIdentity(c, bytes, end))
  {
    core, end := ReadCore(bytes).value.value, ReadCore(bytes).value.next;
  }

  /** A bundle that differs in its identity stands in the same places. */
  lemma IdentityApart(bytes: Bytes, core: Bundle, b: Bundle, p: Places)
    requires Readable(core) && Stands(bytes, core, p) && b == core.(identity := b.identity)
    ensures Readable(b) && Stands(bytes, b, p)
  {
  }

  lemma ReadIsSaid(c: IdentityCodec, bytes: Bytes, b: Bundle) returns (p: Places)
    requires Deserialized(c, bytes) == Ok(b)
    ensures Readable(b) && Says(c, bytes, b, p)
  {
    var core, end := ReadInParts(c, bytes, b);
    p := CoreIsRead(bytes, core, end);
    ReadsTail(c, bytes, end);
    IdentityApart(bytes, core, b, p);
  }

  /**
   What a file is read as, every field by its place: bytes are accepted, and give exactly this bundle, if and only if each
   field stands where the layout has it, the fingerprint at the start of a block of its own and the identity after that.
   */
  lemma {:induction false} ParserFollowsLayout(c: IdentityCodec, bytes: Bytes, b: Bundle)
    ensures Deserialized(c, bytes) == Ok(b) <==> Readable(b) && exists p :: Says(c, bytes, b, p)
  {
    if Readable(b) && exists p :: Says(c, bytes, b, p) {
      var p :| Says(c, bytes, b, p);
      SaidIsRead(c, bytes, b, p);
    }
    if Deserialized(c, bytes) == Ok(b) {
      var p := ReadIsSaid(c, bytes, b);
    }
  }

  // ── The writer, piece by piece ────────────────────────────────────

  lemma AtTwo(bytes: Bytes, pos: nat, n: u16)
    requires At(bytes, pos, U16Bytes(n))
    ensures pos + 2 <= |bytes| && Two(bytes, pos) == n
  {
    ReadsTwo(bytes, pos);
    ReadsU16(bytes, pos, n);
  }

  lemma AtFour(bytes: Bytes, pos: nat, n: u32)
    requires At(bytes, pos, U32Bytes(n))
    ensures pos + 4 <= |bytes| && Four(bytes, pos) == n
  {
    ReadsFour(bytes, pos);
    ReadsU32(bytes, pos, n);
  }

  lemma AtEight(bytes: Bytes, pos: nat, n: u64)
    requires At(bytes, pos, U64Bytes(n))
    ensures pos + 8 <= |bytes| && Eight(bytes, pos) == n
  {
    ReadsEight(bytes, pos);
    ReadsU64(bytes, pos, n);
  }

  lemma AtShort(bytes: Bytes, pos: nat, data: Bytes)
    requires At(bytes, pos, Block16(data))
    ensures ShortBlock(bytes, pos, data)
  {
    AtSplit(bytes, pos, U16Bytes(|data| % 0x1_0000), data);
    AtTwo(bytes, pos, |data| % 0x1_0000);
  }

  lemma AtLong(bytes: Bytes, pos: nat, data: Bytes)
    requires At(bytes, pos, Block32(data))
    ensures LongBlock(bytes, pos, data)
  {
    AtSplit(bytes, pos, U32Bytes(|data| % 0x1_0000_0000), data);
    AtFour(bytes, pos, |data| % 0x1_0000_0000);
  }

  lemma AtFamily(bytes: Bytes, pos: nat, f: PerFamily)
    requires At(bytes, pos, PerFamilyBytes(f))
    ensures FamilyStands(bytes, pos, f)
  {
    AtSplit3(bytes, pos, Block16(f.mldsa65), Block16(f.falcon512), Block16(f.slhdsa128f));
    AtShort(bytes, pos, f.mldsa65);
    AtShort(bytes, pos + 2 + |f.mldsa65|, f.falcon512);
    AtShort(bytes, pos + 4 + |f.mldsa65| + |f.falcon512|, f.slhdsa128f);
  }

  lemma AtHeader(bytes: Bytes, h: Header)
    requires At(bytes, 0, HeaderBytes(h))
    ensures HeaderStands(bytes, h)
  {
    HeaderPartsAt(bytes, h);
    AtTwo(bytes, 4, h.version);
    AtTwo(bytes, 96, TypeCode(h.computationType));
    AtEight(bytes, 98, h.timestampNs);
    CodeOfType(h.computationType);
    ReadsPrimitive(bytes, 6, h.primitive);
    ReadsFixedPart(bytes, h.primitive);
  }

  /** The flag of an absent anchor, as the writer leaves it. */
  predicate AnchorFlagged(bytes: Bytes, pos: nat, a: Option<OnChainAnchor>) {
    pos < |bytes| && (a.None? ==> bytes[pos] == 0)
  }

  lemma AtAnchor(bytes: Bytes, pos: nat, a: Option<OnChainAnchor>)
    requires At(bytes, pos, OptionalAnchor(a))
    ensures AnchorStands(bytes, pos, a) && AnchorFlagged(bytes, pos, a)
  {
    ReadsAnchor(bytes, pos, a);
    ReadsFlaggedAnchor(bytes, pos, a, pos + |OptionalAnchor(a)|);
    if a.None? { ReadsByte(bytes, pos, 0); }
  }

  lemma AtEvidence(bytes: Bytes, pos: nat, e: Evidence)
    requires At(bytes, pos, EvidenceBytes(e))
    ensures EvidenceStands(bytes, pos, e) && AnchorFlagged(bytes, pos + 4 + |e.metadata|, e.anchor)
  {
    AtSplit3(bytes, pos, Block32(e.metadata), OptionalAnchor(e.anchor), [LevelCode(e.completeness)]);
    AtLong(bytes, pos, e.metadata);
    AtAnchor(bytes, pos + 4 + |e.metadata|, e.anchor);
    ReadsByte(bytes, pos + EvidenceLength(e) - 1, LevelCode(e.completeness));
  }

  predicate OptionFlagged(bytes: Bytes, pos: nat, t: Option<Utf8>) {
    pos < |bytes| && (t.None? ==> bytes[pos] == 0)
  }

  lemma AtOptional(bytes: Bytes, pos: nat, t: Option<Utf8>)
    requires At(bytes, pos, OptionalText(t))
    ensures OptionalStands(bytes, pos, t) && OptionFlagged(bytes, pos, t)
  {
    if t.Some? {
      AtSplit(bytes, pos, [1], Block16(t.value));
      ReadsByte(bytes, pos, 1);
      AtShort(bytes, pos + 1, t.value);
    } else {
      ReadsByte(bytes, pos, 0);
    }
  }

  lemma VersionSize(v: ComputationVersion)
    ensures |VersionBytes(v)| == VersionLength(v)
  {
  }

  lemma VersionSplit(bytes: Bytes, pos: nat, v: ComputationVersion, p: nat, q: nat)
    requires At(bytes, pos, VersionBytes(v)) && p == pos + 2 + |v.engine| && q == p + 2 + |v.version|
    ensures At(bytes, pos, Block16(v.engine)) && At(bytes, p, Block16(v.version)) && At(bytes, q, OptionalText(v.circuitId))
  {
    AtSplit3(bytes, pos, Block16(v.engine), Block16(v.version), OptionalText(v.circuitId));
  }

  lemma AtVersion(bytes: Bytes, pos: nat, v: ComputationVersion)
    requires At(bytes, pos, VersionBytes(v))
    ensures VersionStands(bytes, pos, v) && |VersionBytes(v)| == VersionLength(v)
    ensures OptionFlagged(bytes, pos + 4 + |v.engine| + |v.version|, v.circuitId)
  {
    var p, q := pos + 2 + |v.engine|, pos + 4 + |v.engine| + |v.version|;
    VersionSize(v);
    VersionSplit(bytes, pos, v, p, q);
    AtShort(bytes, pos, v.engine);
    AtShort(bytes, p, v.version);
    AtOptional(bytes, q, v.circuitId);
  }

  lemma AtHardware(bytes: Bytes, pos: nat, hw: Option<HardwareClass>)
    requires At(bytes, pos, HardwareBytes(hw))
    ensures HardwareStands(bytes, pos, hw) && |HardwareBytes(hw)| == HardwareLength(hw)
  {
    match hw
    case None => ReadsByte(bytes, pos, 0);
    case Some(Deterministic) => ReadsByte(bytes, pos, 1);
    case Some(NearDeterministic) => ReadsByte(bytes, pos, 2);
    case Some(NonDeterministic(id)) =>
      AtSplit(bytes, pos, [3], Block16(id));
      ReadsByte(bytes, pos, 3);
      AtShort(bytes, pos + 1, id);
  }

  /** The flag of an absent circuit id, as the writer leaves it. */
  predicate CircuitFlagged(f: Bytes, fp: Fingerprint) {
    OptionFlagged(f, 100 + |fp.version.engine| + |fp.version.version|, fp.version.circuitId)
  }

  lemma FingerprintInParts(f: Bytes, fp: Fingerprint)
    requires |f| >= 96 && f[..32] == fp.inputHash && f[32..64] == fp.computationHash && f[64..96] == fp.parameterHash
    requires VersionStands(f, 96, fp.version) && HardwareStands(f, 96 + VersionLength(fp.version), fp.hardware)
    ensures FingerprintStands(f, fp)
  {
    HashesStand(f, fp);
  }

  lemma HardwareSize(hw: Option<HardwareClass>)
    ensures |HardwareBytes(hw)| == HardwareLength(hw)
  {
  }

  lemma CircuitIsFlagged(f: Bytes, fp: Fingerprint)
    requires OptionFlagged(f, 96 + 4 + |fp.version.engine| + |fp.version.version|, fp.version.circuitId)
    ensures CircuitFlagged(f, fp)
  {
  }

  lemma VersionWritten(f: Bytes, fp: Fingerprint)
    requires At(f, 96, VersionBytes(fp.version))
    ensures VersionStands(f, 96, fp.version) && CircuitFlagged(f, fp)
  {
    AtVersion(f, 96, fp.version);
    CircuitIsFlagged(f, fp);
  }

  lemma HardwareWritten(f: Bytes, fp: Fingerprint, v: nat)
    requires At(f, v, HardwareBytes(fp.hardware))
    ensures HardwareStands(f, v, fp.hardware)
  {
    AtHardware(f, v, fp.hardware);
  }

  lemma FingerprintSizes(fp: Fingerprint)
    ensures |VersionBytes(fp.version)| == VersionLength(fp.version)
    ensures |HardwareBytes(fp.hardware)| == HardwareLength(fp.hardware)
    ensures |FingerprintBytes(fp)| == FingerprintLength(fp)
  {
    VersionSize(fp.version);
    HardwareSize(fp.hardware);
  }

  /** Given the texts where they should be. */
  lemma TextsWritten(f: Bytes, fp: Fingerprint, v: nat)
    requires At(f, 96, VersionBytes(fp.version)) && At(f, v, HardwareBytes(fp.hardware))
    requires v == 96 + VersionLength(fp.version)
    ensures VersionStands(f, 96, fp.version) && CircuitFlagged(f, fp) && HardwareStands(f, v, fp.hardware)
  {
    VersionWritten(f, fp);
    HardwareWritten(f, fp, v);
  }

  lemma FingerprintWritten(f: Bytes, fp: Fingerprint)
    requires At(f, 0, FingerprintBytes(fp))
    ensures FingerprintStands(f, fp) && |FingerprintBytes(fp)| == FingerprintLength(fp) && CircuitFlagged(f, fp)
  {
    PartsAt(f, fp);
    HashesAt(f, fp);
    FingerprintSizes(fp);
    TextsWritten(f, fp, 96 + VersionLength(fp.version));
    FingerprintInParts(f, fp);
  }

  lemma AtFingerprintBlock(bytes: Bytes, pos: nat, fp: Fingerprint, f: Bytes)
    requires At(bytes, pos, Block32(f)) && FingerprintStands(f, fp)
    ensures FingerprintBlockStands(bytes, pos, fp, pos + 4 + |f|) && bytes[pos + 4..pos + 4 + |f|] == f
  {
    AtLong(bytes, pos, f);
  }

  /** Where the parts of a written bundle stand: each starts where the one before ends. */
  function WrittenPlaces(b: Bundle): Places {
    var signatures := 106 + FamilyLength(b.signerKeys);
    var evidence := signatures + FamilyLength(b.signatures);
    var fingerprint := evidence + EvidenceLength(b.evidence);
    Places(signatures, evidence, fingerprint, fingerprint + 4 + FingerprintLength(b.fingerprint))
  }

  lemma SignerWritten(bytes: Bytes, b: Bundle, l: ArchiveProofs.Layout)
    requires SignerAt(bytes, b, l)
    ensures SignerStands(bytes, b, Places(l.signatures, l.evidence, l.fingerprint, l.end))
  {
    AtFamily(bytes, 106, b.signerKeys);
    AtFamily(bytes, l.signatures, b.signatures);
  }

  lemma RestWritten(bytes: Bytes, b: Bundle, f: Bytes, l: ArchiveProofs.Layout)
    requires EvidenceAt(bytes, b, l) && FingerprintAt(bytes, f, l) && FingerprintStands(f, b.fingerprint)
    ensures RestStands(bytes, b, Places(l.signatures, l.evidence, l.fingerprint, l.end))
    ensures AnchorFlagged(bytes, l.evidence + 4 + |b.evidence.metadata|, b.evidence.anchor)
    ensures l.fingerprint + 4 <= l.end <= |bytes| && bytes[l.fingerprint + 4..l.end] == f
  {
    AtEvidence(bytes, l.evidence, b.evidence);
    AtFingerprintBlock(bytes, l.fingerprint, b.fingerprint, f);
  }

  /** The flags of what is absent are zero. */
  predicate Flagged(bytes: Bytes, b: Bundle, p: Places) {
    && AnchorFlagged(bytes, p.evidence + 4 + |b.evidence.metadata|, b.evidence.anchor)
    && p.fingerprint + 4 <= p.end <= |bytes| && CircuitFlagged(bytes[p.fingerprint + 4..p.end], b.fingerprint)
  }

  /** The parts one after the other. */
  lemma CoreInParts(bytes: Bytes, b: Bundle, f: Bytes, p: Places)
    requires HeaderStands(bytes, b.header) && SignerStands(bytes, b, p) && RestStands(bytes, b, p)
    requires AnchorFlagged(bytes, p.evidence + 4 + |b.evidence.metadata|, b.evidence.anchor)
    requires p.fingerprint + 4 <= p.end <= |bytes| && bytes[p.fingerprint + 4..p.end] == f
    requires CircuitFlagged(f, b.fingerprint) && |f| == FingerprintLength(b.fingerprint)
    ensures Stands(bytes, b, p) && Flagged(bytes, b, p) && p == WrittenPlaces(b)
  {
    assert p.end == p.fingerprint + 4 + |f|;
  }

  lemma PartsWritten(bytes: Bytes, b: Bundle, f: Bytes, l: ArchiveProofs.Layout, p: Places)
    requires At(bytes, 0, HeaderBytes(b.header)) && SignerAt(bytes, b, l)
    requires EvidenceAt(bytes, b, l) && FingerprintAt(bytes, f, l)
    requires FingerprintStands(f, b.fingerprint) && |f| == FingerprintLength(b.fingerprint)
    requires CircuitFlagged(f, b.fingerprint)
    requires p == Places(l.signatures, l.evidence, l.fingerprint, l.end)
    ensures Stands(bytes, b, p) && Flagged(bytes, b, p) && p == WrittenPlaces(b)
  {
    AtHeader(bytes, b.header);
    SignerWritten(bytes, b, l);
    RestWritten(bytes, b, f, l);
    CoreInParts(bytes, b, f, p);
  }

  lemma CoreWritten(bytes: Bytes, b: Bundle) returns (p: Places)
    requires At(bytes, 0, CoreBytes(b))
    ensures Stands(bytes, b, p) && Flagged(bytes, b, p) && p == WrittenPlaces(b) && p.end == |CoreBytes(b)|
  {
    var f := FingerprintBytes(b.fingerprint);
    var l := LayoutOf(bytes, b, f);
    p := Places(l.signatures, l.evidence, l.fingerprint, l.end);
    assert At(f, 0, f);
    FingerprintWritten(f, b.fingerprint);
    PartsWritten(bytes, b, f, l, p);
  }

  /**
   What is written, every byte by its place, for every bundle, fitting or not: the fields in the layout's order,
   each part starting where the one before ends, zero flags for what is absent, and last the identity's text.
   */
  lemma {:induction false} WriterFollowsLayout(c: IdentityCodec, b: Bundle)
    ensures var bytes := Serialized(c, b);
            var p := WrittenPlaces(b);
            && Stands(bytes, b, p) && Flagged(bytes, b, p)
            && LongBlock(bytes, p.end, c.encode(b.identity)) && |bytes| == p.end + 4 + |c.encode(b.identity)|
  {
    var bytes, core, tail := Serialized(c, b), CoreBytes(b), Block32(c.encode(b.identity));
    assert bytes[0..|bytes|] == core + tail;
    AtSplit(bytes, 0, core, tail);
    var _ := CoreWritten(bytes, b);
    AtLong(bytes, |core|, c.encode(b.identity));
  }

  // ── What is hashed ────────────────────────────────────────────────

  /** The parts a fingerprint's digest is taken over, written out. */
  lemma {:induction false} DigestIsOf(sha3: HashFn, fp: Fingerprint)
    ensures var inputHash: Bytes := fp.inputHash;
            var circuit: Bytes := if fp.version.circuitId.Some? then fp.version.circuitId.value else [];
            var tag: Bytes := match fp.hardware
                              case None => [0]
                              case Some(Deterministic) => [1]
                              case Some(NearDeterministic) => [2]
                              case Some(NonDeterministic(id)) => [3] + id;
            var text: Bytes := fp.version.engine;
            DigestOf(sha3, fp)
            == sha3(inputHash + fp.computationHash + fp.parameterHash + (text + fp.version.version + circuit) + tag)
  {
  }

  /**
   A bundle's address is the hash of a stretch of its file, the primitive and the content hash at bytes 6 to 96, followed
   by its fingerprint's digest.
   */
  lemma {:induction false} AddressIsOf(sha3: HashFn, c: IdentityCodec, b: Bundle)
    ensures |Serialized(c, b)| >= 96
    ensures AddressOf(sha3, b) == sha3(Serialized(c, b)[6..96] + DigestOf(sha3, b.fingerprint))
  {
    var bytes, core, tail := Serialized(c, b), CoreBytes(b), Block32(c.encode(b.identity));
    assert bytes[0..|bytes|] == core + tail;
    AtSplit(bytes, 0, core, tail);
    var l := LayoutOf(bytes, b, FingerprintBytes(b.fingerprint));
    HeaderPartsAt(bytes, b.header);
    assert bytes[6..96] == bytes[6..64] + bytes[64..96];
  }
}
