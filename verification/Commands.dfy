/** The daemon's commands as changes to its four stores: engine, slot registry, content store, audit log. */
module Commands {
  import opened Basics
  import opened OrderedMaps
  import opened Fingerprints
  import opened Archive
  import opened Slots
  import opened ContentStore
  import A = Audit
  import Merkle

  // ── State and surroundings ────────────────────────────────────────

  /** The key set the daemon signs with. */
  datatype Signer = Signer(publicKeys: PerFamily, keyId: Digest, keyVersion: u32, posture: string)

  datatype DaemonEnv = DaemonEnv(
    audit: A.AuditEnv,
    store: StoreEnv,
    verifiers: Verifiers,
    upper: string -> string,     // Unicode `to_uppercase`
    utf8: string -> Bytes,       // the bytes of a string
    strictMode: bool,
    safeRead: bool,
    issuerId: string,
    signer: Option<Signer>)

  /** The engine is a map that may drop keys at any time. */
  datatype World = World(engine: map<string, Bytes>, slots: map<string, Slot>, store: StoreState, log: A.LogState)

  /** What one command takes from outside: clock readings, signatures over a content hash, how its writes end. */
  datatype Inputs = Inputs(now: u64, loggedAt: u64, signatures: PerFamily, putFault: Fault, logFault: Fault)

  datatype Verification =
    | FullyVerified(allThree: bool)
    | VerificationFailed(reason: string)
    | Unverified

  datatype ReadResponse = ReadResponse(value: Bytes, fingerprint: Fingerprint, verification: Verification, state: EntryState)

  datatype Reply =
    | Pong
    | Done
    | Nil
    | Deleted(count: nat)
    | Raw(value: Bytes)
    | Verified(response: ReadResponse)
    | StateOf(state: EntryState)
    | Info(slots: nat, bundles: u64)
    | History(entries: seq<A.AuditEntry>)
    | Chain(report: A.ChainReport)
    | AnchorRoot(root: Digest)
    | Failed(message: string)
    | Crashed               // the slice of a SET whose key is the word FP panics and drops the connection

  // ── Words ─────────────────────────────────────────────────────────

  function JoinWords(words: seq<string>): string {
    if words == [] then "" else if |words| == 1 then words[0] else words[0] + " " + JoinWords(words[1..])
  }

  predicate IsFpWord(word: string) {
    |word| == 2 && word[0] in ['f', 'F'] && word[1] in ['p', 'P']
  }

  /** The position of the first FP, or the number of words. */
  function FpIndex(words: seq<string>): (i: nat)
    ensures i <= |words|
    ensures i < |words| ==> IsFpWord(words[i])
    ensures forall j | 0 <= j < i :: !IsFpWord(words[j])
  {
    if words == [] || IsFpWord(words[0]) then 0 else 1 + FpIndex(words[1..])
  }

  // ── Pieces ────────────────────────────────────────────────────────

  /** An append whose outcome the daemon ignores. */
  function Logged(env: DaemonEnv, log: A.LogState, event: A.Event, inputs: Inputs): A.LogState {
    if A.HasRoom(log) then A.Appended(env.audit, log, event, inputs.loggedAt, inputs.logFault) else log
  }

  function Prefix2(signature: Bytes): Bytes2 {
    if |signature| >= 2 then signature[..2] else [0, 0]
  }

  const NO_KEYS := PerFamily([], [], [])

  function IdentityOf(env: DaemonEnv): SignerIdentity {
    match env.signer
    case Some(signer) =>
      SignerIdentity(signer.keyId, signer.keyVersion, ["ML-DSA-65", "FALCON-512", "SLH-DSA-SHA2-128f"],
                     env.issuerId, signer.posture)
    case None => DEFAULT_IDENTITY
  }

  /** `slot_to_bundle`. */
  function SlotToBundle(env: DaemonEnv, slot: Slot, signatures: PerFamily): Bundle {
    var contentHash := env.store.sha3(slot.value);
    var sigs := if env.signer.Some? then signatures else NO_KEYS;
    var primitive := Primitive(1, U64Bytes(slot.createdAt), contentHash, Prefix2(sigs.mldsa65), Prefix2(sigs.falcon512),
                               Prefix2(sigs.slhdsa128f), [0, 0, 0, 0, 0, 0, 0, 0, 0, 0, 0]);
    var header := Header(CAB_MAGIC, 1, primitive, contentHash, Custom(0), slot.createdAt);
    Bundle(header, if env.signer.Some? then env.signer.value.publicKeys else NO_KEYS, sigs,
           Evidence([], None, if env.signer.Some? then Complete else Partial), slot.fingerprint, IdentityOf(env))
  }

  function CreatedEvent(env: DaemonEnv, key: string, slot: Slot): A.Event {
    A.EntryCreated(key, HexEncode(slot.contentAddress), HexEncode(DigestOf(env.store.sha3, slot.fingerprint)),
                   env.signer.Some? && HasIdentity(slot.fingerprint))
  }

  // ── Effects ───────────────────────────────────────────────────────

  /** What a command does to the four stores. */
  datatype Effect =
    | Nothing
    | Set(key: string, value: Bytes, fp: Fingerprint)
    | Delete(key: string)
    | Move(key: string, to: EntryState, event: A.Event)
    | Note(event: A.Event)
    | Anchor

  /** A new slot under the key, its bundle in the content store if it has an identity, its value in the engine. */
  function Stored(env: DaemonEnv, w: World, key: string, value: Bytes, fp: Fingerprint, inputs: Inputs): World {
    var slot := NewSlot(env.store.sha3, value, fp, inputs.now);
    var bundle := SlotToBundle(env, slot, inputs.signatures);
    World(w.engine[key := value], w.slots[key := slot],
          if HasIdentity(fp) then AfterPut(env.store, w.store, bundle, inputs.putFault) else w.store,
          Logged(env, w.log, CreatedEvent(env, key, slot), inputs))
  }

  /** The key gone from engine and registry; only the engine's answer decides whether that is logged. */
  function Removed(env: DaemonEnv, w: World, key: string, inputs: Inputs): World {
    w.(engine := w.engine - {key}, slots := w.slots - {key},
       log := if key in w.engine then Logged(env, w.log, A.EntryDeleted(key), inputs) else w.log)
  }

  /** A registered slot in another state. */
  function Moved(env: DaemonEnv, w: World, key: string, to: EntryState, event: A.Event, inputs: Inputs): World
    requires key in w.slots
  {
    w.(slots := w.slots[key := w.slots[key].(state := to)], log := Logged(env, w.log, event, inputs))
  }

  /** The log anchored, if it has room. */
  function AnchorTaken(env: DaemonEnv, w: World, inputs: Inputs): World {
    if A.HasRoom(w.log) then w.(log := A.Anchored(env.audit, w.log, inputs.loggedAt, inputs.logFault)) else w
  }

  function Apply(env: DaemonEnv, w: World, effect: Effect, inputs: Inputs): World {
    match effect
    case Nothing => w
    case Set(key, value, fp) => Stored(env, w, key, value, fp, inputs)
    case Delete(key) => Removed(env, w, key, inputs)
    case Move(key, to, event) => if key in w.slots then Moved(env, w, key, to, event, inputs) else w
    case Note(event) => w.(log := Logged(env, w.log, event, inputs))
    case Anchor => AnchorTaken(env, w, inputs)
  }

  // ── Commands: the effect of each, and its reply ───────────────────

  /** The value and fingerprint of a SET, None when its key is the word FP. */
  function SetArguments(env: DaemonEnv, parts: seq<string>): Option<(Bytes, Fingerprint)>
    requires |parts| >= 3
  {
    var i := FpIndex(parts);
    if i == |parts| then Some((env.utf8(JoinWords(parts[2..])), EMPTY))
    else if i < 2 then None
    else Some((env.utf8(JoinWords(parts[2..i])), FromHex(if i + 1 < |parts| then parts[i + 1] else "")))
  }

  function SetEffect(env: DaemonEnv, parts: seq<string>): Effect
    requires |parts| >= 3
  {
    if FpIndex(parts) == |parts| && env.strictMode then Nothing
    else
      match SetArguments(env, parts)
      case None => Nothing
      case Some((value, fp)) => Set(parts[1], value, fp)
  }

  function SetReply(env: DaemonEnv, parts: seq<string>): Reply
    requires |parts| >= 3
  {
    if SetEffect(env, parts).Set? then Done
    else if FpIndex(parts) == |parts| then Failed("computation fingerprint required (strict mode)")
    else Crashed
  }

  function MoveEffect(w: World, key: string, to: EntryState, event: A.Event): Effect {
    if key in w.slots && Legal(w.slots[key].state, to) then Move(key, to, event) else Nothing
  }

  function RefusalText(r: Refusal): string {
    match r
    case TerminalSuperseded => "terminal state: superseded"
    case TerminalRevoked => "terminal state: revoked"
    case IllegalTransition => "illegal transition"
  }

  function MoveReply(slot: Slot, effect: Effect): Reply {
    if effect.Move? then Done
    else Failed(RefusalText(RefusalOf(slot.state)))
  }

  function InvalidateEffect(w: World, key: string, reason: string, inputs: Inputs): Effect {
    MoveEffect(w, key, Revoked(reason, inputs.now, None),
               A.StateTransition(key, "Active", "Revoked", "System", Some(reason)))
  }

  function InvalidateReply(w: World, key: string, reason: string, inputs: Inputs): Reply {
    if key !in w.slots then Failed("key not found") else MoveReply(w.slots[key], InvalidateEffect(w, key, reason, inputs))
  }

  function SupersededBy(newKey: string): string { "Superseded(" + newKey + ")" }

  function SupersedeEffect(w: World, oldKey: string, newKey: string): Effect {
    if newKey !in w.slots then Nothing
    else MoveEffect(w, oldKey, Superseded(w.slots[newKey].contentAddress),
                    A.StateTransition(oldKey, "Active", SupersededBy(newKey), "System", None))
  }

  function SupersedeReply(w: World, oldKey: string, newKey: string): Reply {
    if newKey !in w.slots then Failed("new key not found")
    else if oldKey !in w.slots then Failed("old key not found")
    else MoveReply(w.slots[oldKey], SupersedeEffect(w, oldKey, newKey))
  }

  function BoolWord(b: bool): string { if b then "true" else "false" }

  /** What `get_verified` finds for a registered slot. */
  function VerifySlot(env: DaemonEnv, w: World, slot: Slot): (Verification, Option<Cryptographic>) {
    if !HasIdentity(slot.fingerprint) then (Unverified, None)
    else
      match Fetched(env.store, w.store.db, slot.contentAddress)
      case Ok(Some(bundle)) =>
        var c := VerifyBundle(env.verifiers, bundle).cryptographic;
        var all := c.mldsaValid && c.falconValid && c.slhdsaValid;
        (if c.twoOfThree then FullyVerified(all)
         else VerificationFailed("signature check failed: mldsa=" + BoolWord(c.mldsaValid) + ", falcon="
                                 + BoolWord(c.falconValid) + ", slhdsa=" + BoolWord(c.slhdsaValid)), Some(c))
      case _ => (Unverified, None)
  }

  /** The event `handle_resp` logs for an outcome of `get_verified`, if any. */
  function VerifiedEvent(key: string, verification: Verification, c: Option<Cryptographic>): Option<A.Event> {
    match verification
    case FullyVerified(all) =>
      var checks := c.GetOr(Cryptographic(false, false, false, false, false));
      Some(A.VerificationPerformed(key, checks.mldsaValid, checks.falconValid, checks.slhdsaValid, checks.twoOfThree, all))
    case VerificationFailed(reason) => Some(A.VerificationFailed(key, reason))
    case Unverified => None
  }

  function NoteOf(event: Option<A.Event>): Effect {
    match event
    case Some(e) => Note(e)
    case None => Nothing
  }

  function VerifiedEffect(env: DaemonEnv, w: World, key: string): Effect {
    if key !in w.engine || key !in w.slots then Nothing
    else
      var (verification, c) := VerifySlot(env, w, w.slots[key]);
      NoteOf(VerifiedEvent(key, verification, c))
  }

  function VerifiedReply(env: DaemonEnv, w: World, key: string): Reply {
    if key !in w.engine then Nil
    else if key !in w.slots then Verified(ReadResponse(w.engine[key], EMPTY, Unverified, Active))
    else
      var slot := w.slots[key];
      Verified(ReadResponse(w.engine[key], slot.fingerprint, VerifySlot(env, w, slot).0, slot.state))
  }

  function AnchorReply(env: DaemonEnv, w: World, inputs: Inputs): Reply {
    if !A.HasRoom(w.log) then Failed("audit log full")
    else if A.Unanchored(w.log) == [] || inputs.logFault != NoFault then Failed(A.AnchorError(w.log, inputs.logFault))
    else AnchorRoot(Merkle.Root(env.audit.sha3, A.Unanchored(w.log)))
  }

  datatype Verb =
    | PingVerb | SetVerb | GetVerb | GetVerifiedVerb | DelVerb | InvalidateVerb | SupersedeVerb | StateVerb | InfoVerb
    | FlushVerb | AuditLogVerb | AuditVerifyVerb | AuditAnchorVerb | UnknownVerb

  /** The command an upper-case word names. */
  function VerbOf(word: string): Verb {
    match word
    case "PING" => PingVerb
    case "SET" => SetVerb
    case "GET" => GetVerb
    case "GETVERIFIED" => GetVerifiedVerb
    case "DEL" => DelVerb
    case "INVALIDATE" => InvalidateVerb
    case "SUPERSEDE" => SupersedeVerb
    case "STATE" => StateVerb
    case "INFO" => InfoVerb
    case "FLUSH" => FlushVerb
    case "AUDITLOG" => AuditLogVerb
    case "AUDITVERIFY" => AuditVerifyVerb
    case "AUDITANCHOR" => AuditAnchorVerb
    case _ => UnknownVerb
  }

  function VerbIn(env: DaemonEnv, parts: seq<string>): Verb {
    if parts == [] then UnknownVerb else VerbOf(env.upper(parts[0]))
  }

  /** How many words, the command included, a command needs; with fewer it is unknown. */
  function WordsNeeded(verb: Verb): nat {
    match verb
    case SetVerb => 3
    case GetVerb => 2
    case GetVerifiedVerb => 2
    case DelVerb => 2
    case InvalidateVerb => 4
    case SupersedeVerb => 3
    case StateVerb => 2
    case AuditLogVerb => 2
    case _ => 1
  }

  function EffectOf(env: DaemonEnv, w: World, parts: seq<string>, inputs: Inputs): Effect {
    var verb := VerbIn(env, parts);
    if |parts| < WordsNeeded(verb) then Nothing
    else
      match verb
      case SetVerb => SetEffect(env, parts)
      case GetVerifiedVerb => VerifiedEffect(env, w, parts[1])
      case DelVerb => Delete(parts[1])
      case InvalidateVerb => InvalidateEffect(w, parts[1], JoinWords(parts[3..]), inputs)
      case SupersedeVerb => SupersedeEffect(w, parts[1], parts[2])
      case AuditAnchorVerb => Anchor
      case _ => Nothing
  }

  function ReplyTo(env: DaemonEnv, w: World, parts: seq<string>, inputs: Inputs): Reply {
    if parts == [] then Failed("empty command")
    else if |parts| < WordsNeeded(VerbIn(env, parts)) then Failed("unknown command")
    else
      match VerbIn(env, parts)
      case PingVerb => Pong
      case SetVerb => SetReply(env, parts)
      case GetVerb =>
        if env.safeRead then Failed("GET is disabled in safe mode")
        else if parts[1] in w.engine then Raw(w.engine[parts[1]]) else Nil
      case GetVerifiedVerb => VerifiedReply(env, w, parts[1])
      case DelVerb => Deleted(if parts[1] in w.engine then 1 else 0)
      case InvalidateVerb => InvalidateReply(w, parts[1], JoinWords(parts[3..]), inputs)
      case SupersedeVerb => SupersedeReply(w, parts[1], parts[2])
      case StateVerb => if parts[1] in w.slots then StateOf(w.slots[parts[1]].state) else Nil
      case InfoVerb => Info(|w.slots|, w.store.count)
      case AuditLogVerb => History(A.HistoryOf(A.Readable(env.audit, w.log.db), parts[1]))
      case AuditVerifyVerb => Chain(A.CheckFrom(env.audit, w.log.db, 0, ZERO_DIGEST))
      case AuditAnchorVerb => AnchorReply(env, w, inputs)
      case _ => Failed("unknown command")
  }

  /** The commands that can change engine, registry or content store. */
  predicate Writes(verb: Verb) {
    verb.SetVerb? || verb.DelVerb? || verb.InvalidateVerb? || verb.SupersedeVerb?
  }

  lemma OnlyWritersWrite(env: DaemonEnv, w: World, parts: seq<string>, inputs: Inputs)
    ensures var after := Apply(env, w, EffectOf(env, w, parts, inputs), inputs);
            !Writes(VerbIn(env, parts)) ==> after.engine == w.engine && after.slots == w.slots && after.store == w.store
  {
    if !Writes(VerbIn(env, parts)) {
      var e := EffectOf(env, w, parts, inputs);
      assert e.Nothing? || e.Note? || e.Anchor?;
    }
  }

  lemma RefusedDoesNothing(env: DaemonEnv, w: World, parts: seq<string>, inputs: Inputs)
    ensures ReplyTo(env, w, parts, inputs).Failed? && !VerbIn(env, parts).AuditAnchorVerb? ==>
              EffectOf(env, w, parts, inputs).Nothing?
  {
  }

  /**
   `handle_resp`. Only the writing commands change engine, registry or content store, and a command that is
   refused changes nothing (a failed anchor may have reached the log's disk).
   */
  function Exec(env: DaemonEnv, w: World, parts: seq<string>, inputs: Inputs): (r: (World, Reply))
    ensures !Writes(VerbIn(env, parts)) ==> r.0.engine == w.engine && r.0.slots == w.slots && r.0.store == w.store
    ensures r.1.Failed? && !VerbIn(env, parts).AuditAnchorVerb? ==> r.0 == w
  {
    OnlyWritersWrite(env, w, parts, inputs);
    RefusedDoesNothing(env, w, parts, inputs);
    (Apply(env, w, EffectOf(env, w, parts, inputs), inputs), ReplyTo(env, w, parts, inputs))
  }

  // ── Starting over ─────────────────────────────────────────────────

  /** The registry rebuilt from the content store: a slot without a value for every bundle that can be read. */
  function Rebuilt(env: DaemonEnv, db: Db, addresses: seq<Digest>, now: u64): map<string, Slot> {
    if addresses == [] then map[]
    else
      var n := |addresses| - 1;
      var before := Rebuilt(env, db, addresses[..n], now);
      match Fetched(env.store, db, addresses[n])
      case Ok(Some(bundle)) =>
        before[HexEncode(addresses[n][..16]) := NewSlot(env.store.sha3, [], bundle.fingerprint, now)]
      case _ => before
  }

  /** A daemon started over what is on disk; None when the audit log cannot be opened. */
  function ColdStart(env: DaemonEnv, storeDb: Db, logDb: Db, start: A.Event, inputs: Inputs): Option<World> {
    match A.Opened(env.audit, logDb, env.issuerId)
    case Err(_) => None
    case Ok(log) =>
      Some(World(map[], Rebuilt(env, storeDb, Addresses(storeDb), inputs.now), OpenedStore(storeDb),
                 Logged(env, log, start, inputs)))
  }
}
