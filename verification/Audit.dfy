/** The hash-chained, Merkle-anchored audit log: entries, state, and the operations that change it. */
module Audit {
  import opened Basics
  import opened OrderedMaps
  import opened Chains
  import Merkle

  datatype Event =
    | StateTransition(key: string, fromState: string, toState: string, authority: string, reason: Option<string>)
    | VerificationPerformed(
        key: string, mldsaValid: bool, falconValid: bool, slhdsaValid: bool, twoOfThree: bool, allThree: bool)
    | VerificationFailed(key: string, error: string)
    | EntryCreated(key: string, contentAddress: string, fingerprintDigest: string, signed: bool)
    | EntryDeleted(key: string)
    | KeyRotation(oldKeyId: u64, newKeyId: u64, oldVersion: u32, newVersion: u32)
    | DaemonStart(version: string, attestEnabled: bool, verifyMode: string)
    | ReplayRejected(command: string, nonce: string)
    | MerkleAnchor(merkleRoot: string, fromSequence: u64, toSequence: u64, entryCount: u64)

  datatype AuditEntry = AuditEntry(
    sequence: u64, prevHash: Digest, hash: Digest, timestampNs: u64, event: Event, issuerId: string)

  /** SHA3-256 and the JSON codecs the log is built on. */
  datatype AuditEnv = AuditEnv(
    sha3: HashFn,
    eventJson: Event -> Bytes,
    entryJson: AuditEntry -> Bytes,
    parseEntry: Bytes -> Option<AuditEntry>)

  /** What serde_json promises: entries read back as written, different events have different text. */
  ghost predicate JsonFaithful(env: AuditEnv) {
    && (forall e :: env.parseEntry(env.entryJson(e)) == Some(e))
    && (forall a, b :: env.eventJson(a) == env.eventJson(b) ==> a == b)
  }

  /** The bytes an entry's hash is taken over. */
  function Preimage(env: AuditEnv, prevHash: Digest, event: Event, timestampNs: u64, sequence: u64): Bytes {
    prevHash + U64Bytes(timestampNs) + U64Bytes(sequence) + env.eventJson(event)
  }

  function EntryPreimage(env: AuditEnv, e: AuditEntry): Bytes {
    Preimage(env, e.prevHash, e.event, e.timestampNs, e.sequence)
  }

  /** `AuditEntry::compute_hash`. */
  function ComputeHash(env: AuditEnv, prevHash: Digest, event: Event, timestampNs: u64, sequence: u64): Digest {
    env.sha3(Preimage(env, prevHash, event, timestampNs, sequence))
  }

  // ── State ─────────────────────────────────────────────────────────

  datatype LogState = LogState(
    db: Db,
    headHash: Digest,
    nextSequence: u64,
    issuerId: string,
    seenNonces: set<Digest>,
    merkleLeaves: seq<Digest>,
    lastMerkleRoot: Option<Digest>,
    lastAnchorSequence: u64)

  const MAX_NONCES := 100_000

  /** Room for one more sequence number. */
  predicate HasRoom(st: LogState) { st.nextSequence + 1 < U64_LIMIT }

  function NewEntry(env: AuditEnv, st: LogState, event: Event, timestampNs: u64): AuditEntry {
    AuditEntry(st.nextSequence, st.headHash, ComputeHash(env, st.headHash, event, timestampNs, st.nextSequence),
               timestampNs, event, st.issuerId)
  }

  /** `append` as a change of state. */
  function Appended(env: AuditEnv, st: LogState, event: Event, timestampNs: u64, fault: Fault): LogState
    requires HasRoom(st)
  {
    var entry := NewEntry(env, st, event, timestampNs);
    var written := st.(db := Insert(st.db, U64Bytes(st.nextSequence), env.entryJson(entry)));
    match fault
    case WriteFails => st
    case FlushFails => written
    case NoFault =>
      written.(headHash := entry.hash, nextSequence := st.nextSequence + 1, merkleLeaves := st.merkleLeaves + [entry.hash])
  }

  /** The hashes `compute_merkle_anchor` would anchor now. */
  function Unanchored(st: LogState): seq<Digest> {
    if st.lastAnchorSequence <= |st.merkleLeaves| then st.merkleLeaves[st.lastAnchorSequence..] else []
  }

  function AnchorEvent(env: AuditEnv, st: LogState): Event {
    MerkleAnchor(HexEncode(Merkle.Root(env.sha3, Unanchored(st))), st.lastAnchorSequence,
                 if st.nextSequence == 0 then 0 else st.nextSequence - 1, |Unanchored(st)| % 0x1_0000_0000_0000_0000)
  }

  /** `compute_merkle_anchor` as a change of state. */
  function Anchored(env: AuditEnv, st: LogState, timestampNs: u64, fault: Fault): LogState
    requires HasRoom(st)
  {
    if Unanchored(st) == [] then st
    else
      var logged := Appended(env, st, AnchorEvent(env, st), timestampNs, fault);
      if fault != NoFault then logged
      else logged.(lastMerkleRoot := Some(Merkle.Root(env.sha3, Unanchored(st))), lastAnchorSequence := logged.nextSequence)
  }

  function AnchorError(st: LogState, fault: Fault): string {
    if Unanchored(st) == [] then "no entries since last anchor"
    else if fault == WriteFails then "audit write" else "audit flush"
  }

  /** `check_nonce` on the set of nonces seen. */
  function Remember(seen: set<Digest>, nonce: Digest): set<Digest> {
    if nonce in seen then seen
    else if |seen + {nonce}| > MAX_NONCES then {nonce}
    else seen + {nonce}
  }

  /** The entries of a database that can be read, in key order. */
  function Readable(env: AuditEnv, db: Db): seq<AuditEntry> {
    if db == [] then []
    else
      var n := |db| - 1;
      Readable(env, db[..n]) + match env.parseEntry(db[n].value) case Some(e) => [e] case None => []
  }

  function Hashes(es: seq<AuditEntry>): (hs: seq<Digest>)
    ensures |hs| == |es|
  {
    if es == [] then [] else Hashes(es[..|es| - 1]) + [es[|es| - 1].hash]
  }

  /** `open`: the state recovered from what is on disk. */
  function Opened(env: AuditEnv, db: Db, issuerId: string): Result<LogState, string> {
    var leaves := Hashes(Readable(env, db));
    if db == [] then Ok(LogState(db, ZERO_DIGEST, 0, issuerId, {}, leaves, None, 0))
    else match env.parseEntry(db[|db| - 1].value)
      case None => Err("audit deserialize")
      case Some(e) =>
        Ok(LogState(db, e.hash, Successor(e.sequence), issuerId, {}, leaves, None, 0))
  }

  predicate Concerns(event: Event, key: string) {
    match event
    case StateTransition(k, _, _, _, _) => k == key
    case VerificationPerformed(k, _, _, _, _, _) => k == key
    case VerificationFailed(k, _) => k == key
    case EntryCreated(k, _, _, _) => k == key
    case EntryDeleted(k) => k == key
    case _ => false
  }

  /** The entries of one key, oldest first. */
  function HistoryOf(es: seq<AuditEntry>, key: string): seq<AuditEntry> {
    if es == [] then []
    else
      var n := |es| - 1;
      HistoryOf(es[..n], key) + if Concerns(es[n].event, key) then [es[n]] else []
  }

  lemma {:induction false} ReadableNext(env: AuditEnv, db: Db, i: nat)
    requires i < |db|
    ensures Readable(env, db[..i + 1]) ==
            Readable(env, db[..i]) + match env.parseEntry(db[i].value) case Some(e) => [e] case None => []
  {
    assert db[..i + 1][..i] == db[..i];
  }

  lemma {:induction false} HashesNext(es: seq<AuditEntry>, e: AuditEntry)
    ensures Hashes(es + [e]) == Hashes(es) + [e.hash]
  {
    assert (es + [e])[..|es|] == es;
  }

  lemma {:induction false} HistoryNext(es: seq<AuditEntry>, e: AuditEntry, key: string)
    ensures HistoryOf(es + [e], key) == HistoryOf(es, key) + if Concerns(e.event, key) then [e] else []
  {
    assert (es + [e])[..|es|] == es;
  }

  // ── Chain verification ────────────────────────────────────────────

  /** `Checked(count, None)`: intact; `Checked(count, Some(s))`: `count` links hold and entry `s` breaks. */
  datatype ChainReport = Checked(count: nat, broken: Option<u64>) | Unreadable

  /** An entry as a link of the chain. */
  function LinkOf(env: AuditEnv, e: AuditEntry): Link<Digest, Bytes> {
    Link(e.prevHash, e.hash, EntryPreimage(env, e))
  }

  /** The report on the pairs from `i` on, given the hash before them. */
  function CheckFrom(env: AuditEnv, db: Db, i: nat, prev: Digest): ChainReport
    requires i <= |db|
    decreases |db| - i
  {
    if i == |db| then Checked(i, None)
    else match env.parseEntry(db[i].value)
      case None => Unreadable
      case Some(e) =>
        if LinkHolds(env.sha3, prev, LinkOf(env, e)) then CheckFrom(env, db, i + 1, e.hash)
        else Checked(i, Some(e.sequence))
  }

  // ── The log object ────────────────────────────────────────────────

  class AuditLog {
    const env: AuditEnv
    var db: Db
    var headHash: Digest
    var nextSequence: u64
    var issuerId: string
    var seenNonces: set<Digest>
    var merkleLeaves: seq<Digest>
    var lastMerkleRoot: Option<Digest>
    var lastAnchorSequence: u64

    ghost function State(): LogState
      reads this
    {
      LogState(db, headHash, nextSequence, issuerId, seenNonces, merkleLeaves, lastMerkleRoot, lastAnchorSequence)
    }

    constructor (env: AuditEnv, st: LogState)
      ensures this.env == env && State() == st
    {
      this.env := env;
      db, headHash, nextSequence, issuerId := st.db, st.headHash, st.nextSequence, st.issuerId;
      seenNonces, merkleLeaves := st.seenNonces, st.merkleLeaves;
      lastMerkleRoot, lastAnchorSequence := st.lastMerkleRoot, st.lastAnchorSequence;
    }

    static method Open(env: AuditEnv, db: Db, issuerId: string) returns (r: Result<AuditLog, string>)
      ensures r.Ok? <==> Opened(env, db, issuerId).Ok?
      ensures r.Ok? ==> fresh(r.value) && r.value.env == env && r.value.State() == Opened(env, db, issuerId).value
    {
      var head, next := ZERO_DIGEST, 0;
      if |db| > 0 {
        match env.parseEntry(db[|db| - 1].value) {
          case None => return Err("audit deserialize");
          case Some(e) => head, next := e.hash, Successor(e.sequence);
        }
      }
      var leaves: seq<Digest> := [];
      for i := 0 to |db|
        invariant leaves == Hashes(Readable(env, db[..i]))
      {
        ReadableNext(env, db, i);
        match env.parseEntry(db[i].value) {
          case None =>
            assert Readable(env, db[..i]) + [] == Readable(env, db[..i]);
          case Some(e) =>
            HashesNext(Readable(env, db[..i]), e);
            leaves := leaves + [e.hash];
        }
      }
      assert db[..|db|] == db;
      var log := new AuditLog(env, LogState(db, head, next, issuerId, {}, leaves, None, 0));
      return Ok(log);
    }

    method Append(event: Event, timestampNs: u64, fault: Fault) returns (r: Result<Digest, string>)
      requires HasRoom(State())
      modifies this
      ensures State() == Appended(env, old(State()), event, timestampNs, fault)
      ensures r == if fault == NoFault then Ok(headHash)
                   else Err(if fault == WriteFails then "audit write" else "audit flush")
    {
      var hash := ComputeHash(env, headHash, event, timestampNs, nextSequence);
      var entry := AuditEntry(nextSequence, headHash, hash, timestampNs, event, issuerId);
      if fault == WriteFails {
        return Err("audit write");
      }
      db := Insert(db, U64Bytes(nextSequence), env.entryJson(entry));
      if fault == FlushFails {
        return Err("audit flush");
      }
      headHash := hash;
      nextSequence := nextSequence + 1;
      merkleLeaves := merkleLeaves + [hash];
      return Ok(hash);
    }

    method VerifyChain() returns (r: ChainReport)
      ensures r == CheckFrom(env, db, 0, ZERO_DIGEST)
    {
      var prevHash := ZERO_DIGEST;
      var count := 0;
      while count < |db|
        invariant count <= |db|
        invariant CheckFrom(env, db, count, prevHash) == CheckFrom(env, db, 0, ZERO_DIGEST)
      {
        match env.parseEntry(db[count].value) {
          case None => return Unreadable;
          case Some(entry) =>
            if entry.prevHash != prevHash {
              return Checked(count, Some(entry.sequence));
            }
            var expected := ComputeHash(env, entry.prevHash, entry.event, entry.timestampNs, entry.sequence);
            if entry.hash != expected {
              return Checked(count, Some(entry.sequence));
            }
            prevHash := entry.hash;
        }
        count := count + 1;
      }
      return Checked(count, None);
    }

    method KeyHistory(key: string) returns (history: seq<AuditEntry>)
      ensures history == HistoryOf(Readable(env, db), key)
    {
      history := [];
      for i := 0 to |db|
        invariant history == HistoryOf(Readable(env, db[..i]), key)
      {
        ReadableNext(env, db, i);
        match env.parseEntry(db[i].value) {
          case None =>
            assert Readable(env, db[..i]) + [] == Readable(env, db[..i]);
          case Some(entry) =>
            HistoryNext(Readable(env, db[..i]), entry, key);
            if Concerns(entry.event, key) {
              history := history + [entry];
            }
        }
      }
      assert db[..|db|] == db;
    }

    method CheckNonce(nonce: Digest) returns (accepted: bool)
      modifies this`seenNonces
      ensures accepted == (nonce !in old(seenNonces))
      ensures seenNonces == Remember(old(seenNonces), nonce)
    {
      if nonce in seenNonces {
        return false;
      }
      seenNonces := seenNonces + {nonce};
      if |seenNonces| > MAX_NONCES {
        seenNonces := {};
        seenNonces := seenNonces + {nonce};
      }
      return true;
    }

    method ComputeMerkleAnchor(timestampNs: u64, fault: Fault) returns (r: Result<Digest, string>)
      requires HasRoom(State())
      modifies this
      ensures State() == Anchored(env, old(State()), timestampNs, fault)
      ensures r.Ok? <==> Unanchored(old(State())) != [] && fault == NoFault
      ensures r.Ok? ==> r.value == Merkle.Root(env.sha3, Unanchored(old(State())))
      ensures r.Err? ==> r.error == AnchorError(old(State()), fault)
    {
      var leaves := if lastAnchorSequence <= |merkleLeaves| then merkleLeaves[lastAnchorSequence..] else [];
      if leaves == [] {
        return Err("no entries since last anchor");
      }
      var root, _ := Merkle.MerkleRoot(env.sha3, leaves);
      var toSeq := if nextSequence == 0 then 0 else nextSequence - 1;
      var count := |leaves| % 0x1_0000_0000_0000_0000;
      var event := MerkleAnchor(HexEncode(root), lastAnchorSequence, toSeq, count);
      assert event == AnchorEvent(env, State());
      var appended := Append(event, timestampNs, fault);
      if appended.Err? {
        return Err(appended.error);
      }
      lastMerkleRoot := Some(root);
      lastAnchorSequence := nextSequence;
      return Ok(root);
    }
  }
}
