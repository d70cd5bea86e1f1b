/** The Cachee Archive Bundle: its wire form, content address and verdict. */
module Archive {
  import opened Basics
  import opened Wire
  import opened Fingerprints

  // ── Entities ──────────────────────────────────────────────────────

  type Bytes2 = b: Bytes | |b| == 2 witness [0, 0]
  type Bytes4 = b: Bytes | |b| == 4 witness [0, 0, 0, 0]
  type Bytes8 = b: Bytes | |b| == 8 witness [0, 0, 0, 0, 0, 0, 0, 0]
  type Bytes11 = b: Bytes | |b| == 11 witness [0, 0, 0, 0, 0, 0, 0, 0, 0, 0, 0]
  type Bytes42 = b: Bytes | |b| == 42 witness seq(42, _ => 0)

  /** "CAB1" */
  const CAB_MAGIC: Bytes4 := [67, 65, 66, 49]
  const CAB_VERSION: u16 := 1

  datatype ComputationType =
    | BiometricAuth | DocumentAttest | SupplyChainVerify | FinancialAudit | AIModelAttest | PostQuantumMigration
    | Custom(code: u16)

  datatype CompletenessLevel = Complete | Partial | MinimalViable

  datatype Primitive = Primitive(
    version: byte, timestamp: Bytes8, valueHash: Digest,
    mldsaPrefix: Bytes2, falconPrefix: Bytes2, slhdsaPrefix: Bytes2, flags: Bytes11)

  /** One byte string for each of the three signature families. */
  datatype PerFamily = PerFamily(mldsa65: Bytes, falcon512: Bytes, slhdsa128f: Bytes)

  datatype OnChainAnchor = OnChainAnchor(hash: Digest, retrievalPointer: Bytes42)

  datatype SignerIdentity = SignerIdentity(
    keyId: Digest, keyVersion: u32, families: seq<string>, issuer: string, posture: string)

  const DEFAULT_IDENTITY := SignerIdentity(ZERO_DIGEST, 0, [], "", "unknown")

  datatype Header = Header(
    magic: Bytes4, version: u16, primitive: Primitive, contentHash: Digest,
    computationType: ComputationType, timestampNs: u64)

  datatype Evidence = Evidence(metadata: Bytes, anchor: Option<OnChainAnchor>, completeness: CompletenessLevel)

  /** The fields of a bundle, grouped in the order they stand on the wire. */
  datatype Bundle = Bundle(
    header: Header, signerKeys: PerFamily, signatures: PerFamily, evidence: Evidence,
    fingerprint: Fingerprint, identity: SignerIdentity)

  /** serde_json on signer identities. */
  datatype IdentityCodec = IdentityCodec(encode: SignerIdentity -> Bytes, decode: Bytes -> Option<SignerIdentity>)

  /**
   What the format needs of the JSON text: it reads back, a text cut short does not read at all, and the
   default identity has a text of ordinary length.
   */
  ghost predicate CodecFaithful(c: IdentityCodec) {
    && (forall x :: c.decode(c.encode(x)) == Some(x))
    && (forall x, k: nat | k < |c.encode(x)| :: c.decode(c.encode(x)[..k]) == None)
    && |c.encode(DEFAULT_IDENTITY)| < 0x1_0000_0000
  }

  // ── Writing ───────────────────────────────────────────────────────

  function TypeCode(t: ComputationType): u16 {
    match t
    case BiometricAuth => 0x01
    case DocumentAttest => 0x02
    case SupplyChainVerify => 0x03
    case FinancialAudit => 0x04
    case AIModelAttest => 0x05
    case PostQuantumMigration => 0x12
    case Custom(code) => code
  }

  /** A custom code is not one of the named ones. */
  predicate PlainType(t: ComputationType) {
    t.Custom? ==> t.code !in [0x01, 0x02, 0x03, 0x04, 0x05, 0x12]
  }

  function TypeOf(code: u16): (t: ComputationType)
    ensures PlainType(t) && TypeCode(t) == code
  {
    match code
    case 0x01 => BiometricAuth
    case 0x02 => DocumentAttest
    case 0x03 => SupplyChainVerify
    case 0x04 => FinancialAudit
    case 0x05 => AIModelAttest
    case 0x12 => PostQuantumMigration
    case other => Custom(other)
  }

  function LevelCode(c: CompletenessLevel): byte {
    match c
    case Complete => 0
    case Partial => 1
    case MinimalViable => 2
  }

  function PrimitiveBytes(p: Primitive): (b: Bytes)
    ensures |b| == 58
  {
    var version: Bytes := [p.version];
    version + p.timestamp + p.valueHash + p.mldsaPrefix + p.falconPrefix + p.slhdsaPrefix + p.flags
  }

  function AnchorBytes(a: OnChainAnchor): (b: Bytes)
    ensures |b| == 74
  {
    a.hash + a.retrievalPointer
  }

  function HeaderBytes(h: Header): (b: Bytes)
    ensures |b| == 106
  {
    h.magic + U16Bytes(h.version) + PrimitiveBytes(h.primitive) + h.contentHash
    + U16Bytes(TypeCode(h.computationType)) + U64Bytes(h.timestampNs)
  }

  function PerFamilyBytes(f: PerFamily): (b: Bytes)
    ensures |b| == 6 + |f.mldsa65| + |f.falcon512| + |f.slhdsa128f|
  {
    Block16(f.mldsa65) + Block16(f.falcon512) + Block16(f.slhdsa128f)
  }

  function OptionalAnchor(a: Option<OnChainAnchor>): (b: Bytes)
    ensures |b| == if a.Some? then 75 else 1
  {
    if a.Some? then [1] + AnchorBytes(a.value) else [0]
  }

  function EvidenceBytes(e: Evidence): (b: Bytes)
    ensures |b| == 4 + |e.metadata| + (if e.anchor.Some? then 75 else 1) + 1
  {
    Block32(e.metadata) + OptionalAnchor(e.anchor) + [LevelCode(e.completeness)]
  }

  function SignerBytes(b: Bundle): Bytes {
    PerFamilyBytes(b.signerKeys) + PerFamilyBytes(b.signatures)
  }

  /** Everything up to and including the fingerprint. */
  function CoreBytes(b: Bundle): Bytes {
    HeaderBytes(b.header) + SignerBytes(b) + EvidenceBytes(b.evidence) + Block32(FingerprintBytes(b.fingerprint))
  }

  /** `serialize`. */
  function Serialized(c: IdentityCodec, b: Bundle): Bytes {
    CoreBytes(b) + Block32(c.encode(b.identity))
  }

  /** `compressed_size`: the exact length of the wire form of every bundle, whether or not its fields fit. */
  function CompressedSize(c: IdentityCodec, b: Bundle): (n: nat)
    ensures n == |Serialized(c, b)|
  {
    4 + 2 + 58 + 32 + 2 + 8
    + 2 + |b.signerKeys.mldsa65| + 2 + |b.signerKeys.falcon512| + 2 + |b.signerKeys.slhdsa128f|
    + 2 + |b.signatures.mldsa65| + 2 + |b.signatures.falcon512| + 2 + |b.signatures.slhdsa128f|
    + 4 + |b.evidence.metadata|
    + 1 + (if b.evidence.anchor.Some? then 74 else 0)
    + 1
    + 4 + |FingerprintBytes(b.fingerprint)|
    + 4 + |c.encode(b.identity)|
  }

  // ── Reading ───────────────────────────────────────────────────────

  function PrimitiveOf(b: Bytes): (p: Primitive)
    requires |b| == 58
    ensures PrimitiveBytes(p) == b
  {
    var p := Primitive(b[0], b[1..9], b[9..41], b[41..43], b[43..45], b[45..47], b[47..58]);
    assert b == b[..1] + b[1..9] + b[9..41] + b[41..43] + b[43..45] + b[45..47] + b[47..];
    p
  }

  function ReadPrimitive(bytes: Bytes, pos: nat): (r: Result<Got<Primitive>, ParseError>)
    ensures r.Ok? ==> pos < r.value.next <= |bytes|
  {
    var g :- Take(bytes, pos, 58);
    Ok(Got(PrimitiveOf(g.value), g.next))
  }

  function ReadMagic(bytes: Bytes): (r: Result<Got<Bytes4>, ParseError>)
    ensures r.Ok? ==> r.value == Got(CAB_MAGIC, 4) && |bytes| >= 4
  {
    var g :- Take(bytes, 0, 4);
    if g.value != CAB_MAGIC then Err(BadMagic) else Ok(Got(g.value, g.next))
  }

  function ReadHeader(bytes: Bytes): (r: Result<Got<Header>, ParseError>)
    ensures r.Ok? ==> r.value.next <= |bytes|
  {
    var magic :- ReadMagic(bytes);
    var version :- ReadU16(bytes, magic.next);
    var primitive :- ReadPrimitive(bytes, version.next);
    var contentHash :- ReadDigest(bytes, primitive.next);
    var code :- ReadU16(bytes, contentHash.next);
    var timestampNs :- ReadU64(bytes, code.next);
    Ok(Got(Header(magic.value, version.value, primitive.value, contentHash.value, TypeOf(code.value), timestampNs.value),
           timestampNs.next))
  }

  function ReadPerFamily(bytes: Bytes, pos: nat): (r: Result<Got<PerFamily>, ParseError>)
    ensures r.Ok? ==> pos < r.value.next <= |bytes|
  {
    var mldsa65 :- ReadBlock16(bytes, pos);
    var falcon512 :- ReadBlock16(bytes, mldsa65.next);
    var slhdsa128f :- ReadBlock16(bytes, falcon512.next);
    Ok(Got(PerFamily(mldsa65.value, falcon512.value, slhdsa128f.value), slhdsa128f.next))
  }

  function ReadAnchor(bytes: Bytes, pos: nat): (r: Result<Got<Option<OnChainAnchor>>, ParseError>)
    ensures r.Ok? ==> pos < r.value.next <= |bytes|
  {
    var flag :- ReadByte(bytes, pos);
    if flag.value != 1 then Ok(Got(None, flag.next))
    else
      var g :- Take(bytes, flag.next, 74);
      Ok(Got(Some(OnChainAnchor(g.value[..32], g.value[32..])), g.next))
  }

  function ReadCompleteness(bytes: Bytes, pos: nat): (r: Result<Got<CompletenessLevel>, ParseError>)
    ensures r.Ok? ==> pos < r.value.next <= |bytes|
  {
    var level :- ReadByte(bytes, pos);
    if level.value == 0 then Ok(Got(Complete, level.next))
    else if level.value == 1 then Ok(Got(Partial, level.next))
    else if level.value == 2 then Ok(Got(MinimalViable, level.next))
    else Err(BadCompleteness(level.value))
  }

  function ReadEvidence(bytes: Bytes, pos: nat): (r: Result<Got<Evidence>, ParseError>)
    ensures r.Ok? ==> pos < r.value.next <= |bytes|
  {
    var metadata :- ReadBlock32(bytes, pos);
    var anchor :- ReadAnchor(bytes, metadata.next);
    var completeness :- ReadCompleteness(bytes, anchor.next);
    Ok(Got(Evidence(metadata.value, anchor.value, completeness.value), completeness.next))
  }

  /** The fingerprint's own block is parsed by itself, and bytes left over in it are ignored. */
  function ReadFingerprintBlock(bytes: Bytes, pos: nat): (r: Result<Got<Fingerprint>, ParseError>)
    ensures r.Ok? ==> pos < r.value.next <= |bytes|
  {
    var data :- ReadBlock32(bytes, pos);
    var fingerprint :- ReadFingerprint(data.value);
    Ok(Got(fingerprint.value, data.next))
  }

  /** A bundle up to and including its fingerprint; the identity is still the default. */
  function ReadCore(bytes: Bytes): (r: Result<Got<Bundle>, ParseError>)
    ensures r.Ok? ==> r.value.next <= |bytes|
  {
    var header :- ReadHeader(bytes);
    var signerKeys :- ReadPerFamily(bytes, header.next);
    var signatures :- ReadPerFamily(bytes, signerKeys.next);
    var evidence :- ReadEvidence(bytes, signatures.next);
    var fingerprint :- ReadFingerprintBlock(bytes, evidence.next);
    Ok(Got(Bundle(header.value, signerKeys.value, signatures.value, evidence.value, fingerprint.value, DEFAULT_IDENTITY),
           fingerprint.next))
  }

  /** The tail older writers left out: whatever is missing or unreadable means the default identity. */
  function ReadIdentity(c: IdentityCodec, bytes: Bytes, pos: nat): SignerIdentity {
    match ReadBlock32(bytes, pos)
    case Err(_) => DEFAULT_IDENTITY
    case Ok(data) => if data.value == [] then DEFAULT_IDENTITY else c.decode(data.value).GetOr(DEFAULT_IDENTITY)
  }

  /** `deserialize`. */
  function Deserialized(c: IdentityCodec, bytes: Bytes): Result<Bundle, ParseError> {
    var core :- ReadCore(bytes);
    Ok(core.value.(identity := ReadIdentity(c, bytes, core.next)))
  }

  // ── Addresses ─────────────────────────────────────────────────────

  function AddressPreimage(sha3: HashFn, b: Bundle): Bytes {
    PrimitiveBytes(b.header.primitive) + b.header.contentHash + DigestOf(sha3, b.fingerprint)
  }

  /** `content_address`. */
  function AddressOf(sha3: HashFn, b: Bundle): Digest {
    sha3(AddressPreimage(sha3, b))
  }

  /** What an address fixes: the primitive, the content hash and the fingerprint's digest, or there is a collision. */
  lemma AddressBinds(sha3: HashFn, a: Bundle, b: Bundle)
    requires AddressOf(sha3, a) == AddressOf(sha3, b)
    ensures || Collide(sha3, AddressPreimage(sha3, a), AddressPreimage(sha3, b))
            || (&& a.header.primitive == b.header.primitive && a.header.contentHash == b.header.contentHash
                && DigestOf(sha3, a.fingerprint) == DigestOf(sha3, b.fingerprint))
  {
    if AddressPreimage(sha3, a) == AddressPreimage(sha3, b) {
      AddressParts(sha3, a);
      AddressParts(sha3, b);
      PrimitiveBinds(a.header.primitive, b.header.primitive);
    }
  }

  lemma AddressParts(sha3: HashFn, b: Bundle)
    ensures var p := AddressPreimage(sha3, b);
            |p| == 122 && p[..58] == PrimitiveBytes(b.header.primitive) && p[58..90] == b.header.contentHash
            && p[90..] == DigestOf(sha3, b.fingerprint)
  {
  }

  lemma PrimitiveReads(p: Primitive)
    ensures PrimitiveOf(PrimitiveBytes(p)) == p
  {
    var b := PrimitiveBytes(p);
    assert b[0] == p.version && b[1..9] == p.timestamp && b[9..41] == p.valueHash;
    assert b[41..43] == p.mldsaPrefix && b[43..45] == p.falconPrefix;
    assert b[45..47] == p.slhdsaPrefix;
    assert b[47..58] == p.flags;
  }

  lemma PrimitiveBinds(p: Primitive, q: Primitive)
    requires PrimitiveBytes(p) == PrimitiveBytes(q)
    ensures p == q
  {
    PrimitiveReads(p);
    PrimitiveReads(q);
  }

  // ── Verdict ───────────────────────────────────────────────────────

  /** The three signature checks, an error counting as false: public key, message, signature. */
  datatype Verifiers = Verifiers(
    mldsa65: (Bytes, Bytes, Bytes) -> bool,
    falcon512: (Bytes, Bytes, Bytes) -> bool,
    slhdsa128f: (Bytes, Bytes, Bytes) -> bool)

  datatype Verdict = Valid | ValidWithWarnings(warnings: seq<string>) | Invalid(reason: string)

  datatype Cryptographic = Cryptographic(
    mldsaValid: bool, falconValid: bool, slhdsaValid: bool, twoOfThree: bool, allThree: bool)

  datatype Structural = Structural(
    magicValid: bool, versionSupported: bool, fingerprintPresent: bool,
    contentHashMatches: bool, timestampValid: bool, signerIdentityPresent: bool)

  datatype VerificationResult = VerificationResult(verdict: Verdict, cryptographic: Cryptographic, structural: Structural) {
    predicate IsValid() { verdict.Valid? || verdict.ValidWithWarnings? }
  }

  function CountTrue(a: bool, b: bool, c: bool): nat {
    (if a then 1 else 0) + (if b then 1 else 0) + (if c then 1 else 0)
  }

  /** `join("; ")`. */
  function JoinReasons(reasons: seq<string>): string {
    if reasons == [] then "" else if |reasons| == 1 then reasons[0] else reasons[0] + "; " + JoinReasons(reasons[1..])
  }

  function Only(c: bool, s: string): seq<string> { if c then [s] else [] }

  predicate SignedBy(check: (Bytes, Bytes, Bytes) -> bool, key: Bytes, b: Bundle, signature: Bytes) {
    check(key, b.header.contentHash, signature)
  }

  /**
   `verify`. The verdict is positive exactly for a CAB1 bundle with a timestamp whose primitive carries the content
   hash and on which two families verify; it is free of warnings exactly when identity and fingerprint are also
   present and the signer is not a development one. The format version does not matter.
   */
  function VerifyBundle(v: Verifiers, b: Bundle): (r: VerificationResult)
    ensures var m := SignedBy(v.mldsa65, b.signerKeys.mldsa65, b, b.signatures.mldsa65);
            var f := SignedBy(v.falcon512, b.signerKeys.falcon512, b, b.signatures.falcon512);
            var s := SignedBy(v.slhdsa128f, b.signerKeys.slhdsa128f, b, b.signatures.slhdsa128f);
            r.IsValid() <==>
              && b.header.magic == CAB_MAGIC && b.header.timestampNs > 0
              && b.header.primitive.valueHash == b.header.contentHash && ((m && f) || (m && s) || (f && s))
    ensures r.verdict == Valid <==>
              && r.IsValid() && b.identity.keyId != ZERO_DIGEST && HasIdentity(b.fingerprint)
              && b.identity.posture != "development" && b.identity.posture != "Development"
  {
    if b.header.magic != CAB_MAGIC then
      VerificationResult(Invalid("invalid CAB magic"), Cryptographic(false, false, false, false, false),
                         Structural(false, false, false, false, false, false))
    else
      var message := b.header.contentHash;
      var m := v.mldsa65(b.signerKeys.mldsa65, message, b.signatures.mldsa65);
      var f := v.falcon512(b.signerKeys.falcon512, message, b.signatures.falcon512);
      var s := v.slhdsa128f(b.signerKeys.slhdsa128f, message, b.signatures.slhdsa128f);
      var two := CountTrue(m, f, s) >= 2;
      var timestampValid := b.header.timestampNs > 0;
      var matches := b.header.primitive.valueHash == b.header.contentHash;
      var present := HasIdentity(b.fingerprint);
      var signed := b.identity.keyId != ZERO_DIGEST;
      var warnings := Only(b.identity.posture == "development" || b.identity.posture == "Development", "development posture")
                    + Only(!signed, "missing signer identity") + Only(!present, "fingerprint not present");
      var reasons := Only(!matches, "content hash mismatch") + Only(!two, "fewer than 2-of-3 signatures valid")
                   + Only(!timestampValid, "invalid timestamp");
      VerificationResult(
        if !(matches && two && timestampValid) then Invalid(JoinReasons(reasons))
        else if warnings != [] then ValidWithWarnings(warnings) else Valid,
        Cryptographic(m, f, s, two, CountTrue(m, f, s) == 3),
        Structural(true, b.header.version == CAB_VERSION, present, matches, timestampValid, signed))
  }

  // ── The codecs as the program writes them ─────────────────────────

  method PrimitiveToBytes(p: Primitive) returns (out: Bytes)
    ensures out == PrimitiveBytes(p)
  {
    var buf := new byte[58](_ => 0);
    ghost var done: Bytes := [p.version];
    CopyInto(buf, 0, [p.version]);
    CopyInto(buf, 1, p.timestamp);
    done := done + p.timestamp;
    assert buf[..9] == done;
    CopyInto(buf, 9, p.valueHash);
    done := done + p.valueHash;
    assert buf[..41] == done;
    CopyInto(buf, 41, p.mldsaPrefix);
    done := done + p.mldsaPrefix;
    assert buf[..43] == done;
    CopyInto(buf, 43, p.falconPrefix);
    done := done + p.falconPrefix;
    assert buf[..45] == done;
    CopyInto(buf, 45, p.slhdsaPrefix);
    done := done + p.slhdsaPrefix;
    assert buf[..47] == done;
    CopyInto(buf, 47, p.flags);
    return buf[..];
  }

  method PrimitiveFromBytes(bytes: Bytes) returns (r: Option<Primitive>)
    ensures r.Some? <==> |bytes| >= 58
    ensures r.Some? ==> PrimitiveBytes(r.value) == bytes[..58]
  {
    if |bytes| < 58 {
      return None;
    }
    PrimitiveReads(PrimitiveOf(bytes[..58]));
    return Some(Primitive(bytes[0], bytes[1..9], bytes[9..41], bytes[41..43], bytes[43..45], bytes[45..47], bytes[47..58]));
  }

  method AnchorToBytes(a: OnChainAnchor) returns (out: Bytes)
    ensures out == AnchorBytes(a)
  {
    var buf := new byte[74](_ => 0);
    CopyInto(buf, 0, a.hash);
    CopyInto(buf, 32, a.retrievalPointer);
    return buf[..];
  }

  method WriteHeader(buf: Bytes, h: Header) returns (out: Bytes)
    ensures out == buf + HeaderBytes(h)
  {
    out := buf + h.magic;
    out := out + U16Bytes(h.version);
    var primitive := PrimitiveToBytes(h.primitive);
    out := out + primitive;
    out := out + h.contentHash;
    out := out + U16Bytes(TypeCode(h.computationType));
    out := out + U64Bytes(h.timestampNs);
  }

  method WritePerFamily(buf: Bytes, f: PerFamily) returns (out: Bytes)
    ensures out == buf + PerFamilyBytes(f)
  {
    out := WriteBlock16(buf, f.mldsa65);
    out := WriteBlock16(out, f.falcon512);
    out := WriteBlock16(out, f.slhdsa128f);
  }

  method WriteEvidence(buf: Bytes, e: Evidence) returns (out: Bytes)
    ensures out == buf + EvidenceBytes(e)
  {
    out := buf + U32Bytes(|e.metadata| % 0x1_0000_0000);
    out := out + e.metadata;
    match e.anchor {
      case Some(anchor) =>
        out := out + [1];
        var bytes := AnchorToBytes(anchor);
        out := out + bytes;
      case None =>
        out := out + [0];
    }
    assert out == buf + (Block32(e.metadata) + OptionalAnchor(e.anchor));
    out := out + [LevelCode(e.completeness)];
  }

  method Serialize(c: IdentityCodec, b: Bundle) returns (buf: Bytes)
    ensures buf == Serialized(c, b)
  {
    buf := WriteHeader([], b.header);
    buf := WritePerFamily(buf, b.signerKeys);
    buf := WritePerFamily(buf, b.signatures);
    assert buf == HeaderBytes(b.header) + SignerBytes(b);
    buf := WriteEvidence(buf, b.evidence);
    var fingerprint := ToBytes(b.fingerprint);
    buf := buf + U32Bytes(|fingerprint| % 0x1_0000_0000);
    buf := buf + fingerprint;
    assert buf == CoreBytes(b);
    var identity := c.encode(b.identity);
    buf := buf + U32Bytes(|identity| % 0x1_0000_0000);
    buf := buf + identity;
    assert buf == CoreBytes(b) + Block32(identity);
  }

  method NextHeader(bytes: Bytes) returns (r: Result<Header, ParseError>, pos: nat)
    ensures r.Ok? <==> ReadHeader(bytes).Ok?
    ensures r.Ok? ==> ReadHeader(bytes) == Ok(Got(r.value, pos))
    ensures r.Err? ==> ReadHeader(bytes) == Err(r.error)
  {
    pos := 0;
    if |bytes| < 4 {
      return Err(Truncated), pos;
    }
    var magic := bytes[pos..pos + 4];
    if magic != CAB_MAGIC {
      return Err(BadMagic), pos;
    }
    pos := pos + 4;
    var version, code, timestampNs;
    version, pos :- NextU16(bytes, pos);
    if |bytes| < pos + 58 {
      return Err(Truncated), pos;
    }
    var primitive := PrimitiveOf(bytes[pos..pos + 58]);
    pos := pos + 58;
    if |bytes| < pos + 32 {
      return Err(Truncated), pos;
    }
    var contentHash := bytes[pos..pos + 32];
    pos := pos + 32;
    code, pos :- NextU16(bytes, pos);
    timestampNs, pos :- NextU64(bytes, pos);
    return Ok(Header(magic, version, primitive, contentHash, TypeOf(code), timestampNs)), pos;
  }

  method NextPerFamily(bytes: Bytes, from: nat) returns (r: Result<PerFamily, ParseError>, pos: nat)
    ensures r.Ok? <==> ReadPerFamily(bytes, from).Ok?
    ensures r.Ok? ==> ReadPerFamily(bytes, from) == Ok(Got(r.value, pos))
    ensures r.Err? ==> ReadPerFamily(bytes, from) == Err(r.error)
  {
    pos := from;
    var mldsa65, falcon512, slhdsa128f;
    mldsa65, pos :- NextBlock16(bytes, pos);
    falcon512, pos :- NextBlock16(bytes, pos);
    slhdsa128f, pos :- NextBlock16(bytes, pos);
    return Ok(PerFamily(mldsa65, falcon512, slhdsa128f)), pos;
  }

  method NextEvidence(bytes: Bytes, from: nat) returns (r: Result<Evidence, ParseError>, pos: nat)
    ensures r.Ok? <==> ReadEvidence(bytes, from).Ok?
    ensures r.Ok? ==> ReadEvidence(bytes, from) == Ok(Got(r.value, pos))
    ensures r.Err? ==> ReadEvidence(bytes, from) == Err(r.error)
  {
    pos := from;
    var metadata;
    metadata, pos :- NextBlock32(bytes, pos);
    if pos >= |bytes| {
      return Err(Truncated), pos;
    }
    var hasAnchor := bytes[pos];
    pos := pos + 1;
    var anchor: Option<OnChainAnchor> := None;
    if hasAnchor == 1 {
      if |bytes| < pos + 74 {
        return Err(Truncated), pos;
      }
      var data := bytes[pos..pos + 74];
      anchor := Some(OnChainAnchor(data[..32], data[32..]));
      pos := pos + 74;
    }
    if pos >= |bytes| {
      return Err(Truncated), pos;
    }
    var completeness;
    match bytes[pos] {
      case 0 => completeness := Complete;
      case 1 => completeness := Partial;
      case 2 => completeness := MinimalViable;
      case other => return Err(BadCompleteness(other)), pos;
    }
    pos := pos + 1;
    return Ok(Evidence(metadata, anchor, completeness)), pos;
  }

  method IdentityTail(c: IdentityCodec, bytes: Bytes, pos: nat) returns (identity: SignerIdentity)
    ensures identity == ReadIdentity(c, bytes, pos)
  {
    identity := DEFAULT_IDENTITY;
    if pos + 4 <= |bytes| {
      var tail, _ := NextBlock32(bytes, pos);
      var data := if tail.Ok? then tail.value else [];
      if data != [] {
        match c.decode(data) {
          case Some(id) => identity := id;
          case None =>
        }
      }
    }
  }

  method Deserialize(c: IdentityCodec, bytes: Bytes) returns (r: Result<Bundle, ParseError>)
    ensures r == Deserialized(c, bytes)
  {
    var header, signerKeys, signatures, evidence, data, fingerprint;
    var pos := 0;
    header, pos :- NextHeader(bytes);
    signerKeys, pos :- NextPerFamily(bytes, pos);
    signatures, pos :- NextPerFamily(bytes, pos);
    evidence, pos :- NextEvidence(bytes, pos);
    data, pos :- NextBlock32(bytes, pos);
    fingerprint :- FromBytes(data);
    var identity := IdentityTail(c, bytes, pos);
    return Ok(Bundle(header, signerKeys, signatures, evidence, fingerprint.0, identity));
  }
}
