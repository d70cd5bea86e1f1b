/** Computation fingerprints: the digest that enters content addresses, and the wire form. */
module Fingerprints {
  import opened Basics
  import opened Wire

  datatype ComputationVersion = ComputationVersion(engine: Utf8, version: Utf8, circuitId: Option<Utf8>)

  datatype HardwareClass = Deterministic | NearDeterministic | NonDeterministic(id: Utf8)

  datatype Fingerprint = Fingerprint(
    inputHash: Digest, computationHash: Digest, parameterHash: Digest,
    version: ComputationVersion, hardware: Option<HardwareClass>)

  const EMPTY := Fingerprint(ZERO_DIGEST, ZERO_DIGEST, ZERO_DIGEST, ComputationVersion([], [], None), None)

  /** Both identifying hashes are present. */
  predicate HasIdentity(fp: Fingerprint) {
    fp.inputHash != ZERO_DIGEST && fp.computationHash != ZERO_DIGEST
  }

  // ── Digest ────────────────────────────────────────────────────────

  function ThreeHashes(fp: Fingerprint): (b: Bytes)
    ensures |b| == 96
  {
    fp.inputHash + fp.computationHash + fp.parameterHash
  }

  /** The strings are hashed one after the other with nothing between them. */
  function VersionText(v: ComputationVersion): Bytes {
    v.engine + v.version + v.circuitId.GetOr([])
  }

  function HardwareTag(hw: Option<HardwareClass>): Bytes {
    match hw
    case None => [0]
    case Some(Deterministic) => [1]
    case Some(NearDeterministic) => [2]
    case Some(NonDeterministic(id)) => [3] + id
  }

  function DigestPreimage(fp: Fingerprint): Bytes {
    ThreeHashes(fp) + VersionText(fp.version) + HardwareTag(fp.hardware)
  }

  /** `ComputationFingerprint::digest`. */
  function DigestOf(sha3: HashFn, fp: Fingerprint): Digest {
    sha3(DigestPreimage(fp))
  }

  lemma ThreeHashesBind(f: Fingerprint, g: Fingerprint)
    requires ThreeHashes(f) == ThreeHashes(g)
    ensures f.inputHash == g.inputHash && f.computationHash == g.computationHash && f.parameterHash == g.parameterHash
  {
    var a, b := ThreeHashes(f), ThreeHashes(g);
    assert a[..32] == f.inputHash && a[32..64] == f.computationHash && a[64..] == f.parameterHash;
    assert b[..32] == g.inputHash && b[32..64] == g.computationHash && b[64..] == g.parameterHash;
  }

  lemma PreimageParts(fp: Fingerprint)
    ensures var p := DigestPreimage(fp);
            |p| >= 96 && p[..96] == ThreeHashes(fp) && p[96..] == VersionText(fp.version) + HardwareTag(fp.hardware)
  {
  }

  /** What a digest binds for any fingerprints: the three hashes, or a collision. */
  lemma DigestBindsHashes(sha3: HashFn, f: Fingerprint, g: Fingerprint)
    requires DigestOf(sha3, f) == DigestOf(sha3, g)
    ensures || Collide(sha3, DigestPreimage(f), DigestPreimage(g))
            || (f.inputHash == g.inputHash && f.computationHash == g.computationHash && f.parameterHash == g.parameterHash)
  {
    if DigestPreimage(f) == DigestPreimage(g) {
      PreimageParts(f);
      PreimageParts(g);
      ThreeHashesBind(f, g);
    }
  }

  /** The version strings are not bound: moving a byte from one to the next keeps the digest. */
  lemma DigestIgnoresBoundaries(sha3: HashFn)
    ensures exists f, g :: f != g && DigestOf(sha3, f) == DigestOf(sha3, g)
  {
    var a, ab: Bytes := [97], [97, 98];
    var b: Bytes := [98];
    AsciiIsUtf8(a);
    AsciiIsUtf8(b);
    AsciiIsUtf8(ab);
    var f := EMPTY.(version := ComputationVersion(ab, [], None));
    var g := EMPTY.(version := ComputationVersion(a, b, None));
    assert VersionText(f.version) == VersionText(g.version);
    assert f.version.engine != g.version.engine;
    assert f != g && DigestOf(sha3, f) == DigestOf(sha3, g);
  }

  // ── Fingerprints the daemon builds ────────────────────────────────

  /** "cachee-cli" */
  const ENGINE_NAME: Bytes := [99, 97, 99, 104, 101, 101, 45, 99, 108, 105]
  /** "0.3.0" */
  const ENGINE_VERSION: Bytes := [48, 46, 51, 46, 48]

  lemma CliTextIsUtf8()
    ensures ValidUtf8(ENGINE_NAME) && ValidUtf8(ENGINE_VERSION)
  {
    AsciiIsUtf8(ENGINE_NAME);
    AsciiIsUtf8(ENGINE_VERSION);
  }

  function CliVersion(): ComputationVersion {
    CliTextIsUtf8();
    ComputationVersion(ENGINE_NAME, ENGINE_VERSION, None)
  }

  /** `parse_fingerprint`: 96 bytes or more of hexadecimal text, else the empty fingerprint. */
  function FromHex(hex: string): Fingerprint {
    match HexDecode(hex)
    case None => EMPTY
    case Some(b) =>
      if |b| < 96 then EMPTY else Fingerprint(b[..32], b[32..64], b[64..96], CliVersion(), None)
  }

  predicate DaemonBuilt(fp: Fingerprint) {
    fp == EMPTY || (fp.version == CliVersion() && fp.hardware == None)
  }

  /** `hex` writes these bytes in hexadecimal, the digits A to F in either case. */
  predicate Spells(hex: string, b: Bytes) { Lowered(hex) == HexEncode(b) }

  /**
   What a fingerprint argument means: text that writes 96 bytes or more in hexadecimal gives the fingerprint of the
   first three hashes written; any other text, malformed or short, gives the empty fingerprint.
   */
  lemma FromHexReads(hex: string)
    ensures forall b: Bytes | Spells(hex, b) ::
              FromHex(hex) == if |b| < 96 then EMPTY else Fingerprint(b[..32], b[32..64], b[64..96], CliVersion(), None)
    ensures (forall b: Bytes :: !Spells(hex, b)) ==> FromHex(hex) == EMPTY
  {
    forall b: Bytes ensures HexDecode(hex) == Some(b) <==> Spells(hex, b) {
      HexDecodeExactly(hex, b);
    }
    if HexDecode(hex).Some? {
      assert Spells(hex, HexDecode(hex).value);
    }
  }

  /** For the fingerprints a SET can build the digest binds everything, or there is a collision. */
  lemma DaemonDigestBinds(sha3: HashFn, f: Fingerprint, g: Fingerprint)
    requires DaemonBuilt(f) && DaemonBuilt(g) && DigestOf(sha3, f) == DigestOf(sha3, g)
    ensures f == g || Collide(sha3, DigestPreimage(f), DigestPreimage(g))
  {
    DigestBindsHashes(sha3, f, g);
    if DigestPreimage(f) == DigestPreimage(g) {
      assert |VersionText(f.version)| == |VersionText(g.version)|;
      assert |VersionText(EMPTY.version)| == 0 && |VersionText(CliVersion())| == 15;
      assert f.version == g.version;
    }
  }

  // ── Wire form ─────────────────────────────────────────────────────

  function OptionalText(t: Option<Utf8>): Bytes {
    match t
    case None => [0]
    case Some(s) => [1] + Block16(s)
  }

  function HardwareBytes(hw: Option<HardwareClass>): Bytes {
    match hw
    case None => [0]
    case Some(Deterministic) => [1]
    case Some(NearDeterministic) => [2]
    case Some(NonDeterministic(id)) => [3] + Block16(id)
  }

  function VersionBytes(v: ComputationVersion): Bytes {
    Block16(v.engine) + Block16(v.version) + OptionalText(v.circuitId)
  }

  /** `ComputationFingerprint::to_bytes`. */
  function FingerprintBytes(fp: Fingerprint): Bytes {
    ThreeHashes(fp) + VersionBytes(fp.version) + HardwareBytes(fp.hardware)
  }

  function ReadOptionalText(bytes: Bytes, pos: nat): (r: Result<Got<Option<Utf8>>, ParseError>)
    ensures r.Ok? ==> pos < r.value.next <= |bytes|
  {
    var flag :- ReadByte(bytes, pos);
    if flag.value != 1 then Ok(Got(None, flag.next))
    else
      var s :- ReadText(bytes, flag.next);
      Ok(Got(Some(s.value), s.next))
  }

  function ReadVersion(bytes: Bytes, pos: nat): (r: Result<Got<ComputationVersion>, ParseError>)
    ensures r.Ok? ==> pos < r.value.next <= |bytes|
  {
    var engine :- ReadText(bytes, pos);
    var version :- ReadText(bytes, engine.next);
    var circuitId :- ReadOptionalText(bytes, version.next);
    Ok(Got(ComputationVersion(engine.value, version.value, circuitId.value), circuitId.next))
  }

  function ReadHardware(bytes: Bytes, pos: nat): (r: Result<Got<Option<HardwareClass>>, ParseError>)
    ensures r.Ok? ==> pos < r.value.next <= |bytes|
  {
    var tag :- ReadByte(bytes, pos);
    if tag.value == 0 then Ok(Got(None, tag.next))
    else if tag.value == 1 then Ok(Got(Some(Deterministic), tag.next))
    else if tag.value == 2 then Ok(Got(Some(NearDeterministic), tag.next))
    else if tag.value == 3 then
      var id :- ReadText(bytes, tag.next);
      Ok(Got(Some(NonDeterministic(id.value)), id.next))
    else Err(BadHardwareClass(tag.value))
  }

  function ReadFingerprint(bytes: Bytes): (r: Result<Got<Fingerprint>, ParseError>)
    ensures r.Ok? ==> r.value.next <= |bytes|
  {
    if |bytes| < 96 then Err(Truncated)
    else
      var version :- ReadVersion(bytes, 96);
      var hardware :- ReadHardware(bytes, version.next);
      Ok(Got(Fingerprint(bytes[..32], bytes[32..64], bytes[64..96], version.value, hardware.value), hardware.next))
  }

  predicate TextFits(t: Option<Utf8>) { t.Some? ==> |t.value| < 0x1_0000 }

  /** Every string fits its two-byte length. */
  predicate Fits(fp: Fingerprint) {
    && |fp.version.engine| < 0x1_0000 && |fp.version.version| < 0x1_0000 && TextFits(fp.version.circuitId)
    && (fp.hardware.Some? && fp.hardware.value.NonDeterministic? ==> |fp.hardware.value.id| < 0x1_0000)
  }

  lemma ReadsOptionalText(bytes: Bytes, pos: nat, t: Option<Utf8>)
    requires At(bytes, pos, OptionalText(t)) && TextFits(t)
    ensures ReadOptionalText(bytes, pos) == Ok(Got(t, pos + |OptionalText(t)|))
  {
    if t.Some? {
      AtSplit(bytes, pos, [1], Block16(t.value));
      ReadsText(bytes, pos + 1, t.value);
    }
  }

  lemma ReadVersionInParts(bytes: Bytes, pos: nat, v: ComputationVersion, p: nat, q: nat, r: nat)
    requires ReadText(bytes, pos) == Ok(Got(v.engine, p)) && ReadText(bytes, p) == Ok(Got(v.version, q))
    requires ReadOptionalText(bytes, q) == Ok(Got(v.circuitId, r))
    ensures ReadVersion(bytes, pos) == Ok(Got(v, r))
  {
  }

  lemma ReadsVersion(bytes: Bytes, pos: nat, v: ComputationVersion)
    requires At(bytes, pos, VersionBytes(v))
    requires |v.engine| < 0x1_0000 && |v.version| < 0x1_0000 && TextFits(v.circuitId)
    ensures ReadVersion(bytes, pos) == Ok(Got(v, pos + |VersionBytes(v)|))
  {
    var e, w, c := Block16(v.engine), Block16(v.version), OptionalText(v.circuitId);
    var p, q, r := pos + |e|, pos + |e| + |w|, pos + |e| + |w| + |c|;
    AtSplit3(bytes, pos, e, w, c);
    ReadsText(bytes, pos, v.engine);
    ReadsText(bytes, p, v.version);
    ReadsOptionalText(bytes, q, v.circuitId);
    ReadVersionInParts(bytes, pos, v, p, q, r);
  }

  lemma ReadsHardware(bytes: Bytes, pos: nat, hw: Option<HardwareClass>)
    requires At(bytes, pos, HardwareBytes(hw))
    requires hw.Some? && hw.value.NonDeterministic? ==> |hw.value.id| < 0x1_0000
    ensures ReadHardware(bytes, pos) == Ok(Got(hw, pos + |HardwareBytes(hw)|))
  {
    if hw.Some? && hw.value.NonDeterministic? {
      AtSplit(bytes, pos, [3], Block16(hw.value.id));
      ReadsText(bytes, pos + 1, hw.value.id);
    }
  }

  lemma HashesAt(bytes: Bytes, fp: Fingerprint)
    requires At(bytes, 0, ThreeHashes(fp))
    ensures bytes[..32] == fp.inputHash && bytes[32..64] == fp.computationHash && bytes[64..96] == fp.parameterHash
  {
    AtSplit3(bytes, 0, fp.inputHash, fp.computationHash, fp.parameterHash);
  }

  lemma PartsAt(bytes: Bytes, fp: Fingerprint)
    requires At(bytes, 0, FingerprintBytes(fp))
    ensures At(bytes, 0, ThreeHashes(fp)) && At(bytes, 96, VersionBytes(fp.version))
    ensures At(bytes, 96 + |VersionBytes(fp.version)|, HardwareBytes(fp.hardware))
    ensures |FingerprintBytes(fp)| == 96 + |VersionBytes(fp.version)| + |HardwareBytes(fp.hardware)|
  {
    var h, v, w := ThreeHashes(fp), VersionBytes(fp.version), HardwareBytes(fp.hardware);
    assert |h| == 96 && FingerprintBytes(fp) == h + v + w;
    AtSplit3(bytes, 0, h, v, w);
  }

  lemma ReadFingerprintInParts(bytes: Bytes, fp: Fingerprint, v: nat, end: nat)
    requires |bytes| >= 96 && ReadVersion(bytes, 96) == Ok(Got(fp.version, v))
    requires ReadHardware(bytes, v) == Ok(Got(fp.hardware, end))
    requires bytes[..32] == fp.inputHash && bytes[32..64] == fp.computationHash && bytes[64..96] == fp.parameterHash
    ensures ReadFingerprint(bytes) == Ok(Got(fp, end))
  {
  }

  /** A fingerprint whose strings fit is read back as written, whatever follows it. */
  lemma ReadsFingerprint(bytes: Bytes, fp: Fingerprint)
    requires At(bytes, 0, FingerprintBytes(fp)) && Fits(fp)
    ensures ReadFingerprint(bytes) == Ok(Got(fp, |FingerprintBytes(fp)|))
  {
    var v := 96 + |VersionBytes(fp.version)|;
    PartsAt(bytes, fp);
    HashesAt(bytes, fp);
    ReadsVersion(bytes, 96, fp.version);
    ReadsHardware(bytes, v, fp.hardware);
    ReadFingerprintInParts(bytes, fp, v, |FingerprintBytes(fp)|);
  }

  /** What can be read fits. */
  lemma ReadFingerprintFits(bytes: Bytes)
    requires ReadFingerprint(bytes).Ok?
    ensures Fits(ReadFingerprint(bytes).value.value)
  {
  }

  lemma FingerprintSize(fp: Fingerprint)
    requires Fits(fp)
    ensures 102 <= |FingerprintBytes(fp)| < 0x1_0000_0000
  {
  }

  // ── The same as the program writes it ─────────────────────────────

  method ToBytes(fp: Fingerprint) returns (buf: Bytes)
    ensures buf == FingerprintBytes(fp)
  {
    buf := [];
    buf := buf + fp.inputHash;
    buf := buf + fp.computationHash;
    buf := buf + fp.parameterHash;
    assert buf == ThreeHashes(fp);
    buf := WriteBlock16(buf, fp.version.engine);
    buf := WriteBlock16(buf, fp.version.version);
    match fp.version.circuitId {
      case Some(cid) =>
        buf := buf + [1];
        buf := WriteBlock16(buf, cid);
      case None =>
        buf := buf + [0];
    }
    assert buf == ThreeHashes(fp) + VersionBytes(fp.version);
    match fp.hardware {
      case None => buf := buf + [0];
      case Some(Deterministic) => buf := buf + [1];
      case Some(NearDeterministic) => buf := buf + [2];
      case Some(NonDeterministic(id)) =>
        buf := buf + [3];
        buf := WriteBlock16(buf, id);
    }
  }

  method NextText(bytes: Bytes, pos: nat) returns (r: Result<Utf8, ParseError>, next: nat)
    ensures r.Ok? <==> ReadText(bytes, pos).Ok?
    ensures r.Ok? ==> ReadText(bytes, pos) == Ok(Got(r.value, next))
    ensures r.Err? ==> ReadText(bytes, pos) == Err(r.error)
  {
    next := pos;
    if |bytes| < next + 2 {
      return Err(Truncated), next;
    }
    var len := U16Value(bytes[next..next + 2]);
    next := next + 2;
    if |bytes| < next + len {
      return Err(Truncated), next;
    }
    var data := bytes[next..next + len];
    if !ValidUtf8(data) {
      return Err(BadText), next;
    }
    next := next + len;
    return Ok(data), next;
  }

  method NextOptionalText(bytes: Bytes, pos: nat) returns (r: Result<Option<Utf8>, ParseError>, next: nat)
    ensures r.Ok? <==> ReadOptionalText(bytes, pos).Ok?
    ensures r.Ok? ==> ReadOptionalText(bytes, pos) == Ok(Got(r.value, next))
    ensures r.Err? ==> ReadOptionalText(bytes, pos) == Err(r.error)
  {
    next := pos;
    if next >= |bytes| {
      return Err(Truncated), next;
    }
    var flag := bytes[next];
    next := next + 1;
    if flag != 1 {
      return Ok(None), next;
    }
    var text;
    text, next :- NextText(bytes, next);
    return Ok(Some(text)), next;
  }

  method NextHardware(bytes: Bytes, pos: nat) returns (r: Result<Option<HardwareClass>, ParseError>, next: nat)
    ensures r.Ok? <==> ReadHardware(bytes, pos).Ok?
    ensures r.Ok? ==> ReadHardware(bytes, pos) == Ok(Got(r.value, next))
    ensures r.Err? ==> ReadHardware(bytes, pos) == Err(r.error)
  {
    next := pos;
    if next >= |bytes| {
      return Err(Truncated), next;
    }
    var tag := bytes[next];
    next := next + 1;
    match tag {
      case 0 => return Ok(None), next;
      case 1 => return Ok(Some(Deterministic)), next;
      case 2 => return Ok(Some(NearDeterministic)), next;
      case 3 =>
        var id;
        id, next :- NextText(bytes, next);
        return Ok(Some(NonDeterministic(id))), next;
      case _ => return Err(BadHardwareClass(tag)), next;
    }
  }

  method NextVersion(bytes: Bytes, pos: nat) returns (r: Result<ComputationVersion, ParseError>, next: nat)
    ensures r.Ok? <==> ReadVersion(bytes, pos).Ok?
    ensures r.Ok? ==> ReadVersion(bytes, pos) == Ok(Got(r.value, next))
    ensures r.Err? ==> ReadVersion(bytes, pos) == Err(r.error)
  {
    next := pos;
    var engine, version, circuitId;
    engine, next :- NextText(bytes, next);
    version, next :- NextText(bytes, next);
    circuitId, next :- NextOptionalText(bytes, next);
    return Ok(ComputationVersion(engine, version, circuitId)), next;
  }

  method FromBytes(bytes: Bytes) returns (r: Result<(Fingerprint, nat), ParseError>)
    ensures r.Ok? <==> ReadFingerprint(bytes).Ok?
    ensures r.Ok? ==> ReadFingerprint(bytes) == Ok(Got(r.value.0, r.value.1))
    ensures r.Err? ==> ReadFingerprint(bytes) == Err(r.error)
  {
    var pos := 0;
    if |bytes| < 96 {
      return Err(Truncated);
    }
    var inputHash := bytes[pos..pos + 32];
    pos := pos + 32;
    var computationHash := bytes[pos..pos + 32];
    pos := pos + 32;
    var parameterHash := bytes[pos..pos + 32];
    pos := pos + 32;
    var version, hardware;
    version, pos :- NextVersion(bytes, pos);
    hardware, pos :- NextHardware(bytes, pos);
    return Ok((Fingerprint(inputHash, computationHash, parameterHash, version, hardware), pos));
  }
}
