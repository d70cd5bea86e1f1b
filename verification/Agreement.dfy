/** What every run of the daemon keeps between engine, slot registry and content store. */
module Agreement {
  import opened Basics
  import opened OrderedMaps
  import opened Fingerprints
  import opened Archive
  import opened ArchiveProofs
  import opened Slots
  import opened ContentStore
  import opened Commands
  import opened Runs
  import A = Audit

  // ── Runs ──────────────────────────────────────────────────────────

  /** A command, the engine dropping a key, or a stop and start of the daemon. */
  datatype DaemonOp =
    | Command(parts: seq<string>, inputs: Inputs)
    | Evict(key: string)
    | Restart(start: A.Event, inputs: Inputs)

  /**
   The stores; for each key the bundle its last SET put into the content store, if it did; and for each registered key the
   clock of the SET, or of the restart, that registered it.
   */
  datatype Tracked = Tracked(w: World, landed: map<string, Bundle>, clock: map<string, u64>)

  function TrackEffect(env: DaemonEnv, landed: map<string, Bundle>, effect: Effect, inputs: Inputs): map<string, Bundle> {
    match effect
    case Set(key, value, fp) =>
      if HasIdentity(fp) && inputs.putFault != WriteFails
      then landed[key := SlotToBundle(env, NewSlot(env.store.sha3, value, fp, inputs.now), inputs.signatures)]
      else landed - {key}
    case Delete(key) => landed - {key}
    case _ => landed
  }

  function TrackClock(clock: map<string, u64>, effect: Effect, inputs: Inputs): map<string, u64> {
    match effect
    case Set(key, _, _) => clock[key := inputs.now]
    case Delete(key) => clock - {key}
    case _ => clock
  }

  function Step(env: DaemonEnv, t: Tracked, op: DaemonOp): Tracked {
    match op
    case Command(parts, inputs) =>
      var effect := EffectOf(env, t.w, parts, inputs);
      Tracked(Exec(env, t.w, parts, inputs).0, TrackEffect(env, t.landed, effect, inputs),
              TrackClock(t.clock, effect, inputs))
    case Evict(key) => t.(w := t.w.(engine := t.w.engine - {key}))
    case Restart(start, inputs) =>
      match ColdStart(env, t.w.store.db, t.w.log.db, start, inputs)
      case Some(w) => Tracked(w, map[], map k | k in w.slots :: inputs.now)
      case None => t
  }

  function RunDaemon(env: DaemonEnv, t: Tracked, ops: seq<DaemonOp>): Tracked {
    RunAll((s: Tracked, op: DaemonOp) => Step(env, s, op), t, ops)
  }

  const EMPTY_WORLD := World(map[], map[], StoreState([], 0), A.LogState([], ZERO_DIGEST, 0, "", {}, [], None, 0))
  const START := Tracked(EMPTY_WORLD, map[], map[])

  // ── What the surroundings must provide ────────────────────────────

  /** The JSON codec behaves, and what the signer puts into bundles fits the wire format. */
  ghost predicate Sane(env: DaemonEnv) {
    && CodecFaithful(env.store.codec) && IdentityFits(env.store.codec, IdentityOf(env))
    && (env.signer.Some? ==> FamilyFits(env.signer.value.publicKeys))
  }

  /** The signatures verify under the daemon's public keys, as signing with the matching secret keys makes them. */
  predicate Signs(env: DaemonEnv, contentHash: Digest, signatures: PerFamily) {
    env.signer.Some? ==>
      var keys := env.signer.value.publicKeys;
      && env.verifiers.mldsa65(keys.mldsa65, contentHash, signatures.mldsa65)
      && env.verifiers.falcon512(keys.falcon512, contentHash, signatures.falcon512)
      && env.verifiers.slhdsa128f(keys.slhdsa128f, contentHash, signatures.slhdsa128f)
  }

  /** What a SET gets from its signer: signatures of ordinary length over the hash of its value. */
  predicate WellSigned(env: DaemonEnv, effect: Effect, signatures: PerFamily) {
    FamilyFits(signatures) && (effect.Set? ==> Signs(env, env.store.sha3(effect.value), signatures))
  }

  predicate SaneOp(env: DaemonEnv, op: DaemonOp) {
    op.Command? ==> WellSigned(env, EffectOf(env, EMPTY_WORLD, op.parts, op.inputs), op.inputs.signatures)
  }

  // ── The invariant ─────────────────────────────────────────────────

  /** Every value in the engine is the value of a slot under the same key. */
  predicate EngineBacked(w: World) {
    forall k | k in w.engine :: k in w.slots && w.slots[k].value == w.engine[k]
  }

  predicate AddressRight(sha3: HashFn, slot: Slot) {
    slot.contentAddress == SlotAddress(sha3, slot.value, slot.fingerprint)
  }

  predicate AddressesRight(env: DaemonEnv, slots: map<string, Slot>) {
    forall k | k in slots :: AddressRight(env.store.sha3, slots[k])
  }

  /** The primitive repeats the header and starts each signature. */
  predicate Matches(p: Primitive, h: Header, signatures: PerFamily) {
    && p.timestamp == U64Bytes(h.timestampNs) && p.valueHash == h.contentHash
    && p.mldsaPrefix == Prefix2(signatures.mldsa65) && p.falconPrefix == Prefix2(signatures.falcon512)
    && p.slhdsaPrefix == Prefix2(signatures.slhdsa128f)
  }

  /** A bundle as SET writes them. */
  predicate SetBundle(env: DaemonEnv, b: Bundle) {
    && Canonical(env.store.codec, b) && DaemonBuilt(b.fingerprint)
    && Matches(b.header.primitive, b.header, b.signatures)
    && (env.signer.Some? ==> b.signerKeys == env.signer.value.publicKeys)
    && (b.evidence.completeness.Complete? ==> env.signer.Some?)
    && Signs(env, b.header.contentHash, b.signatures)
  }

  /** The bundle was made for this slot. */
  predicate BundleFor(env: DaemonEnv, slot: Slot, b: Bundle) {
    && b.header.contentHash == env.store.sha3(slot.value) && b.fingerprint == slot.fingerprint
    && b.header.timestampNs == slot.createdAt
  }

  ghost predicate GoodPair(env: DaemonEnv, p: Pair) {
    exists b :: SetBundle(env, b) && p == Pair(AddressOf(env.store.sha3, b), Serialized(env.store.codec, b))
  }

  ghost predicate StoreGood(env: DaemonEnv, db: Db) {
    Sorted(db) && forall p | p in db :: GoodPair(env, p)
  }

  predicate LandedFor(env: DaemonEnv, slots: map<string, Slot>, db: Db, k: string, b: Bundle) {
    && SetBundle(env, b) && Has(db, AddressOf(env.store.sha3, b))
    && k in slots && BundleFor(env, slots[k], b)
  }

  predicate LandedGood(env: DaemonEnv, t: Tracked) {
    forall k | k in t.landed :: LandedFor(env, t.w.slots, t.w.store.db, k, t.landed[k])
  }

  ghost predicate Agrees(env: DaemonEnv, t: Tracked) {
    && EngineBacked(t.w) && AddressesRight(env, t.w.slots)
    && StoreGood(env, t.w.store.db) && LandedGood(env, t)
  }

  // ── The content store ─────────────────────────────────────────────

  lemma SlotBundleIsGood(env: DaemonEnv, slot: Slot, signatures: PerFamily)
    requires Sane(env) && FamilyFits(signatures) && Signs(env, env.store.sha3(slot.value), signatures)
    requires DaemonBuilt(slot.fingerprint)
    ensures var b := SlotToBundle(env, slot, signatures); SetBundle(env, b) && BundleFor(env, slot, b)
  {
    assert |CliVersion().engine| == 10 && |CliVersion().version| == 5;
  }

  /** Every field of the bundle a slot is given: what is constant, what the signer provides, what the slot does. */
  lemma SlotBundleIs(env: DaemonEnv, slot: Slot, signatures: PerFamily)
    ensures var b := SlotToBundle(env, slot, signatures);
            var hash := env.store.sha3(slot.value);
            var zeros: Bytes := seq(11, _ => 0);
            && b.header.magic == [67, 65, 66, 49] && b.header.version == 1 && b.header.primitive.version == 1
            && b.header.primitive.timestamp == U64Bytes(slot.createdAt) && b.header.timestampNs == slot.createdAt
            && b.header.primitive.valueHash == hash && b.header.contentHash == hash
            && b.header.primitive.flags == zeros && b.header.computationType == Custom(0)
            && b.evidence.metadata == [] && b.evidence.anchor == None && b.fingerprint == slot.fingerprint
            && match env.signer
               case Some(signer) =>
                 && b.signerKeys == signer.publicKeys && b.signatures == signatures && b.evidence.completeness == Complete
                 && b.identity == SignerIdentity(signer.keyId, signer.keyVersion,
                                                 ["ML-DSA-65", "FALCON-512", "SLH-DSA-SHA2-128f"], env.issuerId,
                                                 signer.posture)
                 && (forall s: Bytes, p: Bytes | (s, p) in Prefixed(b) :: p == if |s| >= 2 then s[..2] else [0, 0])
               case None =>
                 && b.signerKeys == PerFamily([], [], []) && b.signatures == PerFamily([], [], [])
                 && b.evidence.completeness == Partial
                 && b.identity == SignerIdentity(seq(32, _ => 0), 0, [], "", "unknown")
                 && (forall s: Bytes, p: Bytes | (s, p) in Prefixed(b) :: p == [0, 0])
  {
    assert DEFAULT_IDENTITY.keyId == seq(32, _ => 0);
    assert seq(11, _ => 0) == [0, 0, 0, 0, 0, 0, 0, 0, 0, 0, 0];
  }

  /** Each signature, and what the primitive keeps of its start. */
  function Prefixed(b: Bundle): seq<(Bytes, Bytes)> {
    [(b.signatures.mldsa65, b.header.primitive.mldsaPrefix), (b.signatures.falcon512, b.header.primitive.falconPrefix),
     (b.signatures.slhdsa128f, b.header.primitive.slhdsaPrefix)]
  }

  lemma SetIsBuilt(env: DaemonEnv, w: World, parts: seq<string>, inputs: Inputs)
    ensures var e := EffectOf(env, w, parts, inputs); e.Set? ==> DaemonBuilt(e.fp)
  {
  }

  /** What a SET stores depends on its words alone. */
  lemma SetIsArguments(env: DaemonEnv, w: World, w': World, parts: seq<string>, inputs: Inputs)
    ensures EffectOf(env, w, parts, inputs).Set? ==> EffectOf(env, w', parts, inputs) == EffectOf(env, w, parts, inputs)
  {
  }

  lemma {:induction false} InsertKeeps(env: DaemonEnv, db: Db, b: Bundle)
    requires StoreGood(env, db) && SetBundle(env, b)
    ensures StoreGood(env, Insert(db, AddressOf(env.store.sha3, b), Serialized(env.store.codec, b)))
  {
    var k, v := AddressOf(env.store.sha3, b), Serialized(env.store.codec, b);
    InsertSorted(db, k, v);
    forall p | p in Insert(db, k, v) ensures GoodPair(env, p) {
      InsertMember(db, k, v, p);
    }
  }

  lemma {:induction false} InsertStillHas(db: Db, k: Bytes, v: Bytes, a: Bytes)
    requires Sorted(db)
    ensures Has(Insert(db, k, v), a) <==> a == k || Has(db, a)
  {
    GetInsert(db, k, v, a);
  }

  /** Whatever address is in use, looking it up gives a bundle some SET could have written, with that address. */
  lemma FetchedIsGood(env: DaemonEnv, db: Db, a: Digest) returns (b: Bundle)
    requires Sane(env) && StoreGood(env, db) && Has(db, a)
    ensures Fetched(env.store, db, a) == Ok(Some(b)) && SetBundle(env, b) && AddressOf(env.store.sha3, b) == a
  {
    var p := Pair(a, Get(db, a).value);
    assert p in db;
    b :| SetBundle(env, b) && p == Pair(AddressOf(env.store.sha3, b), Serialized(env.store.codec, b));
    RoundTrip(env.store.codec, b);
  }

  // ── Steps keep the invariant ──────────────────────────────────────

  lemma PutKeepsStore(env: DaemonEnv, st: StoreState, b: Bundle, fault: Fault)
    requires StoreGood(env, st.db) && SetBundle(env, b)
    ensures StoreGood(env, AfterPut(env.store, st, b, fault).db)
    ensures fault != WriteFails ==> Has(AfterPut(env.store, st, b, fault).db, AddressOf(env.store.sha3, b))
    ensures forall a | Has(st.db, a) :: Has(AfterPut(env.store, st, b, fault).db, a)
  {
    var k, v := AddressOf(env.store.sha3, b), Serialized(env.store.codec, b);
    InsertKeeps(env, st.db, b);
    forall a ensures Has(Insert(st.db, k, v), a) <==> a == k || Has(st.db, a) {
      InsertStillHas(st.db, k, v, a);
    }
  }

  lemma LandedKept(env: DaemonEnv, slots: map<string, Slot>, slots': map<string, Slot>, db: Db, db': Db,
                   k: string, b: Bundle)
    requires LandedFor(env, slots, db, k, b) && k in slots'
    requires slots'[k].value == slots[k].value && slots'[k].fingerprint == slots[k].fingerprint
    requires slots'[k].createdAt == slots[k].createdAt
    requires Has(db, AddressOf(env.store.sha3, b)) ==> Has(db', AddressOf(env.store.sha3, b))
    ensures LandedFor(env, slots', db', k, b)
  {
  }

  lemma SetKeepsStore(env: DaemonEnv, t: Tracked, key: string, value: Bytes, fp: Fingerprint, inputs: Inputs)
    requires Sane(env) && StoreGood(env, t.w.store.db) && DaemonBuilt(fp)
    requires WellSigned(env, Set(key, value, fp), inputs.signatures)
    ensures var db' := Stored(env, t.w, key, value, fp, inputs).store.db;
            && StoreGood(env, db') && (forall a | Has(t.w.store.db, a) :: Has(db', a))
            && var landed' := TrackEffect(env, t.landed, Set(key, value, fp), inputs);
               key in landed' ==>
                 LandedFor(env, Stored(env, t.w, key, value, fp, inputs).slots, db', key, landed'[key])
  {
    var slot := NewSlot(env.store.sha3, value, fp, inputs.now);
    SlotBundleIsGood(env, slot, inputs.signatures);
    PutKeepsStore(env, t.w.store, SlotToBundle(env, slot, inputs.signatures), inputs.putFault);
  }

  /** A SET of one key leaves what landed for another. */
  lemma SetKeepsOther(env: DaemonEnv, t: Tracked, key: string, value: Bytes, fp: Fingerprint, inputs: Inputs, k: string)
    requires Sane(env) && StoreGood(env, t.w.store.db) && LandedGood(env, t) && DaemonBuilt(fp)
    requires WellSigned(env, Set(key, value, fp), inputs.signatures) && k in t.landed && k != key
    ensures var w' := Stored(env, t.w, key, value, fp, inputs);
            LandedFor(env, w'.slots, w'.store.db, k, t.landed[k])
  {
    var w' := Stored(env, t.w, key, value, fp, inputs);
    SetKeepsStore(env, t, key, value, fp, inputs);
    assert LandedFor(env, t.w.slots, t.w.store.db, k, t.landed[k]);
    LandedKept(env, t.w.slots, w'.slots, t.w.store.db, w'.store.db, k, t.landed[k]);
  }

  lemma SetTracks(env: DaemonEnv, landed: map<string, Bundle>, key: string, value: Bytes, fp: Fingerprint, inputs: Inputs,
                  k: string)
    requires k != key && k in TrackEffect(env, landed, Set(key, value, fp), inputs)
    ensures k in landed && TrackEffect(env, landed, Set(key, value, fp), inputs)[k] == landed[k]
  {
  }

  lemma SetKeepsLanded(env: DaemonEnv, t: Tracked, key: string, value: Bytes, fp: Fingerprint, inputs: Inputs, k: string)
    requires Sane(env) && StoreGood(env, t.w.store.db) && LandedGood(env, t) && DaemonBuilt(fp)
    requires WellSigned(env, Set(key, value, fp), inputs.signatures)
    requires k in TrackEffect(env, t.landed, Set(key, value, fp), inputs)
    ensures var w' := Stored(env, t.w, key, value, fp, inputs);
            LandedFor(env, w'.slots, w'.store.db, k, TrackEffect(env, t.landed, Set(key, value, fp), inputs)[k])
  {
    if k == key {
      SetKeepsStore(env, t, key, value, fp, inputs);
    } else {
      SetTracks(env, t.landed, key, value, fp, inputs, k);
      SetKeepsOther(env, t, key, value, fp, inputs, k);
    }
  }

  lemma SetKeeps(env: DaemonEnv, t: Tracked, key: string, value: Bytes, fp: Fingerprint, inputs: Inputs)
    requires Sane(env) && Agrees(env, t) && DaemonBuilt(fp) && WellSigned(env, Set(key, value, fp), inputs.signatures)
    ensures Agrees(env, t.(w := Stored(env, t.w, key, value, fp, inputs),
                           landed := TrackEffect(env, t.landed, Set(key, value, fp), inputs)))
  {
    var t' := t.(w := Stored(env, t.w, key, value, fp, inputs),
                 landed := TrackEffect(env, t.landed, Set(key, value, fp), inputs));
    SetKeepsStore(env, t, key, value, fp, inputs);
    forall k | k in t'.landed ensures LandedFor(env, t'.w.slots, t'.w.store.db, k, t'.landed[k]) {
      SetKeepsLanded(env, t, key, value, fp, inputs, k);
    }
    assert LandedGood(env, t');
  }

  lemma DeleteKeeps(env: DaemonEnv, t: Tracked, key: string, inputs: Inputs)
    requires Agrees(env, t)
    ensures Agrees(env, t.(w := Removed(env, t.w, key, inputs), landed := t.landed - {key}))
  {
    var w' := Removed(env, t.w, key, inputs);
    forall k | k in t.landed && k != key ensures LandedFor(env, w'.slots, w'.store.db, k, t.landed[k]) {
      LandedKept(env, t.w.slots, w'.slots, t.w.store.db, w'.store.db, k, t.landed[k]);
    }
  }

  lemma MoveKeeps(env: DaemonEnv, t: Tracked, key: string, to: EntryState, event: A.Event, inputs: Inputs)
    requires Agrees(env, t) && key in t.w.slots
    ensures Agrees(env, t.(w := Moved(env, t.w, key, to, event, inputs)))
  {
    var w' := Moved(env, t.w, key, to, event, inputs);
    forall k | k in t.landed ensures LandedFor(env, w'.slots, w'.store.db, k, t.landed[k]) {
      LandedKept(env, t.w.slots, w'.slots, t.w.store.db, w'.store.db, k, t.landed[k]);
    }
  }

  lemma EffectKeeps(env: DaemonEnv, t: Tracked, effect: Effect, inputs: Inputs)
    requires Sane(env) && Agrees(env, t) && WellSigned(env, effect, inputs.signatures)
    requires effect.Set? ==> DaemonBuilt(effect.fp)
    ensures Agrees(env, t.(w := Apply(env, t.w, effect, inputs), landed := TrackEffect(env, t.landed, effect, inputs)))
  {
    match effect
    case Set(key, value, fp) => SetKeeps(env, t, key, value, fp, inputs);
    case Delete(key) => DeleteKeeps(env, t, key, inputs);
    case Move(key, to, event) => if key in t.w.slots { MoveKeeps(env, t, key, to, event, inputs); }
    case _ =>
  }

  lemma {:induction false} RebuiltRight(env: DaemonEnv, db: Db, addresses: seq<Digest>, now: u64)
    ensures AddressesRight(env, Rebuilt(env, db, addresses, now))
  {
    if addresses != [] {
      RebuiltRight(env, db, addresses[..|addresses| - 1], now);
    }
  }

  lemma StepKeeps(env: DaemonEnv, t: Tracked, op: DaemonOp)
    requires Sane(env) && SaneOp(env, op) && Agrees(env, t)
    ensures Agrees(env, Step(env, t, op))
  {
    match op
    case Command(parts, inputs) =>
      SetIsBuilt(env, t.w, parts, inputs);
      SetIsArguments(env, t.w, EMPTY_WORLD, parts, inputs);
      EffectKeeps(env, t, EffectOf(env, t.w, parts, inputs), inputs);
    case Evict(key) =>
    case Restart(start, inputs) => RebuiltRight(env, t.w.store.db, Addresses(t.w.store.db), inputs.now);
  }

  lemma RunAgrees(env: DaemonEnv, ops: seq<DaemonOp>)
    requires Sane(env) && forall i | 0 <= i < |ops| :: SaneOp(env, ops[i])
    ensures Agrees(env, RunDaemon(env, START, ops))
  {
    forall t, op | Agrees(env, t) && SaneOp(env, op) ensures Agrees(env, Step(env, t, op)) {
      StepKeeps(env, t, op);
    }
    RunKeeps((s: Tracked, op: DaemonOp) => Step(env, s, op), (op: DaemonOp) => SaneOp(env, op),
             (s: Tracked) => Agrees(env, s), START, ops);
  }

  // ── Clocks ────────────────────────────────────────────────────────

  /** Every slot was made when the clock read what is tracked for its key. */
  predicate ClocksRight(t: Tracked) {
    t.clock.Keys == t.w.slots.Keys && forall k | k in t.w.slots :: t.w.slots[k].createdAt == t.clock[k]
  }

  lemma EffectClocks(env: DaemonEnv, t: Tracked, effect: Effect, inputs: Inputs)
    requires ClocksRight(t)
    ensures ClocksRight(t.(w := Apply(env, t.w, effect, inputs), clock := TrackClock(t.clock, effect, inputs)))
  {
  }

  lemma {:induction false} RebuiltClocks(env: DaemonEnv, db: Db, addresses: seq<Digest>, now: u64)
    ensures forall k | k in Rebuilt(env, db, addresses, now) :: Rebuilt(env, db, addresses, now)[k].createdAt == now
  {
    if addresses != [] {
      RebuiltClocks(env, db, addresses[..|addresses| - 1], now);
    }
  }

  lemma StepClocks(env: DaemonEnv, t: Tracked, op: DaemonOp)
    requires ClocksRight(t)
    ensures ClocksRight(Step(env, t, op))
  {
    match op
    case Command(parts, inputs) => EffectClocks(env, t, EffectOf(env, t.w, parts, inputs), inputs);
    case Evict(_) =>
    case Restart(start, inputs) => RebuiltClocks(env, t.w.store.db, Addresses(t.w.store.db), inputs.now);
  }

  lemma RunClocks(env: DaemonEnv, ops: seq<DaemonOp>)
    ensures ClocksRight(RunDaemon(env, START, ops))
  {
    forall t, op | ClocksRight(t) ensures ClocksRight(Step(env, t, op)) {
      StepClocks(env, t, op);
    }
    RunKeeps((s: Tracked, op: DaemonOp) => Step(env, s, op), (_: DaemonOp) => true,
             (s: Tracked) => ClocksRight(s), START, ops);
  }

  /**
   The content store answers the address of `put` with a bundle of this time, which is valid, if the daemon signs, exactly
   if the clock did not read zero; or with one that collides with `put`.
   */
  predicate FoundAt(env: DaemonEnv, w: World, put: Bundle, clock: u64) {
    match Fetched(env.store, w.store.db, AddressOf(env.store.sha3, put))
    case Ok(Some(b)) =>
      || (&& b.header.timestampNs == clock && b.header.primitive.timestamp == U64Bytes(clock)
          && (env.signer.Some? ==> (VerifyBundle(env.verifiers, b).IsValid() <==> clock > 0)))
      || Collide(env.store.sha3, Archive.AddressPreimage(env.store.sha3, put), Archive.AddressPreimage(env.store.sha3, b))
      || Collide(env.store.sha3, DigestPreimage(put.fingerprint), DigestPreimage(b.fingerprint))
    case _ => false
  }

  /**
   Three-store agreement. After any run of commands, evictions, failed writes and restarts: every value in the engine is
   that of a slot under its key; every slot's address is computed from its value and fingerprint, and its creation time is
   the clock reading of the SET or the restart that registered it; and for a key whose last SET reached the content store,
   looking up the bundle it put gives one with the hash of the slot's value, its fingerprint and the clock reading of
   that SET, on which, if the daemon signs, all three families verify, with a positive verdict exactly if that reading was
   above zero; unless that bundle and the put one collide.
   */
  lemma ThreeStoresAgree(env: DaemonEnv, ops: seq<DaemonOp>, key: string)
    requires Sane(env) && forall i | 0 <= i < |ops| :: SaneOp(env, ops[i])
    ensures var t := RunDaemon(env, START, ops);
            && EngineBacked(t.w) && AddressesRight(env, t.w.slots)
            && (key in t.w.slots <==> key in t.clock) && (key in t.w.slots ==> t.w.slots[key].createdAt == t.clock[key])
            && (key in t.landed ==>
                  && key in t.w.slots && InContentStore(env, t.w, t.w.slots[key], t.landed[key])
                  && FoundAt(env, t.w, t.landed[key], t.clock[key]))
  {
    RunAgrees(env, ops);
    RunClocks(env, ops);
    var t := RunDaemon(env, START, ops);
    if key in t.landed {
      LandedIsFound(env, t, key);
      FoundInTime(env, t, key);
    }
  }

  lemma FoundInTime(env: DaemonEnv, t: Tracked, key: string)
    requires Sane(env) && Agrees(env, t) && ClocksRight(t) && key in t.landed
    ensures key in t.w.slots && FoundAt(env, t.w, t.landed[key], t.clock[key])
  {
    var put := t.landed[key];
    LandedIsFound(env, t, key);
    assert LandedFor(env, t.w.slots, t.w.store.db, key, put);
    var b := FetchedIsGood(env, t.w.store.db, AddressOf(env.store.sha3, put));
  }

  /**
   A bundle marked complete verifies under all three families; if the daemon signs, so does any, and the verdict is
   positive unless the slot's clock read zero.
   */
  predicate VerifiesFor(env: DaemonEnv, slot: Slot, b: Bundle) {
    var r := VerifyBundle(env.verifiers, b);
    && (b.evidence.completeness.Complete? ==> r.cryptographic.allThree)
    && (env.signer.Some? ==> r.cryptographic.allThree && (r.IsValid() <==> slot.createdAt > 0))
  }

  lemma SetBundleVerifies(env: DaemonEnv, slot: Slot, b: Bundle)
    requires SetBundle(env, b) && BundleFor(env, slot, b)
    ensures VerifiesFor(env, slot, b)
  {
  }

  /** One address means one creation time: the primitive holds it. */
  lemma SameTime(env: DaemonEnv, a: Bundle, b: Bundle)
    requires SetBundle(env, a) && SetBundle(env, b) && a.header.primitive == b.header.primitive
    ensures a.header.timestampNs == b.header.timestampNs
  {
    U64RoundTrip(a.header.timestampNs);
    U64RoundTrip(b.header.timestampNs);
  }

  /** The content store answers the address of `put` with a bundle for this slot, or with one that collides with `put`. */
  predicate InContentStore(env: DaemonEnv, w: World, slot: Slot, put: Bundle) {
    match Fetched(env.store, w.store.db, AddressOf(env.store.sha3, put))
    case Ok(Some(b)) =>
      || (BundleFor(env, slot, b) && VerifiesFor(env, slot, b))
      || Collide(env.store.sha3, Archive.AddressPreimage(env.store.sha3, put), Archive.AddressPreimage(env.store.sha3, b))
      || Collide(env.store.sha3, DigestPreimage(put.fingerprint), DigestPreimage(b.fingerprint))
    case _ => false
  }

  /** A stored bundle that was made for a slot is found, or collides with what is. */
  lemma PutIsFound(env: DaemonEnv, w: World, slot: Slot, put: Bundle)
    requires Sane(env) && StoreGood(env, w.store.db)
    requires SetBundle(env, put) && Has(w.store.db, AddressOf(env.store.sha3, put)) && BundleFor(env, slot, put)
    ensures InContentStore(env, w, slot, put)
  {
    var b := FetchedIsGood(env, w.store.db, AddressOf(env.store.sha3, put));
    AddressBinds(env.store.sha3, put, b);
    if DigestOf(env.store.sha3, put.fingerprint) == DigestOf(env.store.sha3, b.fingerprint) {
      DaemonDigestBinds(env.store.sha3, put.fingerprint, b.fingerprint);
    }
    if BundleFor(env, slot, b) { SetBundleVerifies(env, slot, b); }
    if put.header.primitive == b.header.primitive { SameTime(env, put, b); }
  }

  lemma LandedIsFound(env: DaemonEnv, t: Tracked, key: string)
    requires Sane(env) && Agrees(env, t) && key in t.landed
    ensures key in t.w.slots && InContentStore(env, t.w, t.w.slots[key], t.landed[key])
  {
    assert LandedFor(env, t.w.slots, t.w.store.db, key, t.landed[key]);
    PutIsFound(env, t.w, t.w.slots[key], t.landed[key]);
  }

  // ── What a cold start brings back ─────────────────────────────────

  /** The slot was made from the bundle at `a`. */
  predicate FromBundle(env: DaemonEnv, db: Db, slot: Slot, a: Digest) {
    match Fetched(env.store, db, a)
    case Ok(Some(b)) => slot.fingerprint == b.fingerprint && slot.value == [] && slot.state == Active
    case _ => false
  }

  predicate Readable(env: DaemonEnv, db: Db, a: Digest) {
    Fetched(env.store, db, a).Ok? && Fetched(env.store, db, a).value.Some?
  }

  predicate MadeAt(env: DaemonEnv, db: Db, a: Digest, k: string, slot: Slot) {
    k == HexEncode(a[..16]) && FromBundle(env, db, slot, a)
  }

  /** The slot under `k` was made from one of these addresses, which starts as `k` says. */
  predicate MadeFrom(env: DaemonEnv, db: Db, addresses: seq<Digest>, k: string, slot: Slot) {
    exists i | 0 <= i < |addresses| :: MadeAt(env, db, addresses[i], k, slot)
  }

  /** A cold start gives every readable address a slot under its first sixteen bytes in hexadecimal. */
  lemma {:induction false} RebuiltCovers(env: DaemonEnv, db: Db, addresses: seq<Digest>, now: u64, i: nat)
    requires i < |addresses| && Readable(env, db, addresses[i])
    ensures HexEncode(addresses[i][..16]) in Rebuilt(env, db, addresses, now)
  {
    if i < |addresses| - 1 {
      RebuiltCovers(env, db, addresses[..|addresses| - 1], now, i);
    }
  }

  /** And every slot it makes comes from one of them. */
  lemma {:induction false} RebuiltIsMade(env: DaemonEnv, db: Db, addresses: seq<Digest>, now: u64, k: string)
    requires k in Rebuilt(env, db, addresses, now)
    ensures MadeFrom(env, db, addresses, k, Rebuilt(env, db, addresses, now)[k])
  {
    var n := |addresses| - 1;
    if k in Rebuilt(env, db, addresses[..n], now) {
      RebuiltIsMade(env, db, addresses[..n], now, k);
      MadeFromMore(env, db, addresses, n, k, Rebuilt(env, db, addresses[..n], now)[k]);
    }
    if Readable(env, db, addresses[n]) && k == HexEncode(addresses[n][..16]) {
      assert MadeAt(env, db, addresses[n], k, Rebuilt(env, db, addresses, now)[k]);
    }
  }

  lemma MadeFromMore(env: DaemonEnv, db: Db, addresses: seq<Digest>, n: nat, k: string, slot: Slot)
    requires n <= |addresses| && MadeFrom(env, db, addresses[..n], k, slot)
    ensures MadeFrom(env, db, addresses, k, slot)
  {
    var i :| 0 <= i < n && MadeAt(env, db, addresses[..n][i], k, slot);
    assert addresses[..n][i] == addresses[i];
  }

  lemma StoreKeysAreAddresses(env: DaemonEnv, db: Db)
    requires StoreGood(env, db)
    ensures KeysAreAddresses(db)
  {
    forall i | 0 <= i < |db| ensures |db[i].key| == 32 {
      assert db[i] in db;
      assert GoodPair(env, db[i]);
    }
  }

  predicate SameStart(a: Digest, b: Digest) { a[..16] == b[..16] }

  /** There is a slot named after address `a`, made from a stored bundle whose address starts the same way. */
  ghost predicate Recovered(env: DaemonEnv, db: Db, slots: map<string, Slot>, a: Digest) {
    HexEncode(a[..16]) in slots &&
    exists b: Digest :: SameStart(a, b) && Has(db, b) && FromBundle(env, db, slots[HexEncode(a[..16])], b)
  }

  lemma SameName(a: Digest, b: Digest)
    requires HexEncode(a[..16]) == HexEncode(b[..16])
    ensures SameStart(a, b)
  {
    HexRoundTrip(a[..16]);
    HexRoundTrip(b[..16]);
  }

  lemma {:induction false} MadeIsRecovered(env: DaemonEnv, db: Db, slots: map<string, Slot>, a: Digest)
    requires StoreGood(env, db) && HexEncode(a[..16]) in slots
    requires MadeFrom(env, db, Addresses(db), HexEncode(a[..16]), slots[HexEncode(a[..16])])
    ensures Recovered(env, db, slots, a)
  {
    var k, addresses := HexEncode(a[..16]), Addresses(db);
    var j :| 0 <= j < |addresses| && MadeAt(env, db, addresses[j], k, slots[k]);
    StoreKeysAreAddresses(env, db);
    AddressesAreKeys(db);
    SameName(a, addresses[j]);
    assert db[j].key == addresses[j];
  }

  lemma {:induction false} RebuiltRecovers(env: DaemonEnv, db: Db, a: Digest, now: u64)
    requires Sane(env) && StoreGood(env, db) && Has(db, a)
    ensures Recovered(env, db, Rebuilt(env, db, Addresses(db), now), a)
  {
    StoreKeysAreAddresses(env, db);
    AddressesAreKeys(db);
    var i :| 0 <= i < |db| && db[i].key == a;
    var _ := FetchedIsGood(env, db, a);
    RebuiltCovers(env, db, Addresses(db), now, i);
    RebuiltIsMade(env, db, Addresses(db), now, HexEncode(a[..16]));
    MadeIsRecovered(env, db, Rebuilt(env, db, Addresses(db), now), a);
  }

  lemma ColdStartRecovers(env: DaemonEnv, w: World, start: A.Event, inputs: Inputs, a: Digest)
    requires Sane(env) && StoreGood(env, w.store.db) && Has(w.store.db, a)
    requires ColdStart(env, w.store.db, w.log.db, start, inputs).Some?
    ensures Recovered(env, w.store.db, ColdStart(env, w.store.db, w.log.db, start, inputs).value.slots, a)
  {
    RebuiltRecovers(env, w.store.db, a, inputs.now);
  }

  /** After any run of the daemon a restart that can open the log recovers a slot for every stored address. */
  lemma RestartRecovers(env: DaemonEnv, ops: seq<DaemonOp>, start: A.Event, inputs: Inputs, a: Digest)
    requires Sane(env) && forall i | 0 <= i < |ops| :: SaneOp(env, ops[i])
    ensures var w := RunDaemon(env, START, ops).w;
            Has(w.store.db, a) && ColdStart(env, w.store.db, w.log.db, start, inputs).Some? ==>
              Recovered(env, w.store.db, ColdStart(env, w.store.db, w.log.db, start, inputs).value.slots, a)
  {
    RunAgrees(env, ops);
    var w := RunDaemon(env, START, ops).w;
    if Has(w.store.db, a) && ColdStart(env, w.store.db, w.log.db, start, inputs).Some? {
      ColdStartRecovers(env, w, start, inputs, a);
    }
  }
}
