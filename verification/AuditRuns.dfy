/** What every run of the audit log keeps: through appends, failed writes, anchors and reopens. */
module AuditRuns {
  import opened Basics
  import opened OrderedMaps
  import opened Chains
  import opened Audit
  import opened AuditChain
  import opened Runs
  import Merkle

  // ── The invariant ─────────────────────────────────────────────────

  predicate KeyedBy(p: Pair, n: nat) {
    n < U64_LIMIT && p.key == U64Bytes(n)
  }

  /** The database holds exactly these entries, entry `i` under the big-endian bytes of `i`. */
  predicate Recorded(env: AuditEnv, db: Db, es: seq<AuditEntry>) {
    && |db| == |es| < U64_LIMIT
    && (forall i | 0 <= i < |db| :: KeyedBy(db[i], i))
    && (forall i | 0 <= i < |db| :: db[i].value == env.entryJson(es[i]))
  }

  /**
   The stored entries `es` are one unbroken, numbered chain, and the state in memory is at most one entry
   behind: the extra one is an append whose flush failed.
   */
  predicate Sound(env: AuditEnv, st: LogState, es: seq<AuditEntry>) {
    && Recorded(env, st.db, es) && Unbroken(env, es) && Numbered(es)
    && st.nextSequence <= |es| <= st.nextSequence + 1
    && st.headHash == HeadOf(es[..st.nextSequence])
    && st.merkleLeaves == Hashes(es[..st.nextSequence])
    && st.lastAnchorSequence <= st.nextSequence
  }

  lemma {:induction false} RecordedReads(env: AuditEnv, db: Db, es: seq<AuditEntry>)
    requires JsonFaithful(env) && Recorded(env, db, es)
    ensures Readable(env, db) == es && AllReadable(env, db)
    decreases |db|
  {
    if db != [] {
      var n := |db| - 1;
      RecordedReads(env, db[..n], es[..n]);
      assert db[n].value == env.entryJson(es[n]);
      forall i | 0 <= i < |db| ensures env.parseEntry(db[i].value).Some? {
        assert db[i].value == env.entryJson(es[i]);
      }
    }
  }

  lemma RecordedNext(env: AuditEnv, db: Db, es: seq<AuditEntry>, n: nat, e: AuditEntry)
    requires Recorded(env, db, es) && n <= |es| && n + 1 < U64_LIMIT
    ensures Recorded(env, db[..n] + [Pair(U64Bytes(n), env.entryJson(e))], es[..n] + [e])
  {
    var db', es' := db[..n] + [Pair(U64Bytes(n), env.entryJson(e))], es[..n] + [e];
    forall i | 0 <= i < |db'| ensures KeyedBy(db'[i], i) && db'[i].value == env.entryJson(es'[i]) {
      if i < n {
        assert KeyedBy(db[i], i);
        assert db[i].value == env.entryJson(es[i]);
      }
    }
  }

  lemma {:induction false} RecordedInsert(env: AuditEnv, db: Db, es: seq<AuditEntry>, n: nat, e: AuditEntry)
    requires Recorded(env, db, es) && n <= |es| <= n + 1 && n + 1 < U64_LIMIT
    ensures Recorded(env, Insert(db, U64Bytes(n), env.entryJson(e)), es[..n] + [e])
  {
    KeysBelow(db, n);
    if |es| == n {
      InsertAtEnd(db, U64Bytes(n), env.entryJson(e));
      assert db[..n] == db;
    } else {
      assert KeyedBy(db[n], n);
      InsertOverLast(db, U64Bytes(n), env.entryJson(e));
    }
    RecordedNext(env, db, es, n, e);
  }

  lemma KeysBelow(db: Db, n: nat)
    requires n <= |db| && n < U64_LIMIT && forall i | 0 <= i < |db| :: KeyedBy(db[i], i)
    ensures forall i | 0 <= i < n :: Less(db[i].key, U64Bytes(n))
  {
    forall i | 0 <= i < n ensures Less(db[i].key, U64Bytes(n)) {
      assert KeyedBy(db[i], i);
      U64Order(i, n);
    }
  }

  lemma SoundExtended(env: AuditEnv, es: seq<AuditEntry>, n: nat, e: AuditEntry)
    requires Unbroken(env, es) && Numbered(es) && n <= |es| && e.sequence == n
    requires LinkHolds(env.sha3, HeadOf(es[..n]), LinkOf(env, e))
    ensures var t := es[..n] + [e];
            && Unbroken(env, t) && Numbered(t) && HeadOf(t) == e.hash && Hashes(t) == Hashes(es[..n]) + [e.hash]
            && t[..n] == es[..n] && t[..n + 1] == t
  {
    UnbrokenPrefix(env, es, n);
    UnbrokenNext(env, es[..n], e);
    HashesNext(es[..n], e);
  }

  /** The entries on disk after an append. */
  function Stored(env: AuditEnv, st: LogState, es: seq<AuditEntry>, event: Event, timestampNs: u64, fault: Fault)
    : seq<AuditEntry>
    requires st.nextSequence <= |es|
  {
    if fault == WriteFails then es else es[..st.nextSequence] + [NewEntry(env, st, event, timestampNs)]
  }

  lemma WrittenSound(env: AuditEnv, st: LogState, es: seq<AuditEntry>, event: Event, timestampNs: u64)
    requires Sound(env, st, es) && HasRoom(st)
    ensures var e := NewEntry(env, st, event, timestampNs);
            var t := es[..st.nextSequence] + [e];
            && Recorded(env, Insert(st.db, U64Bytes(st.nextSequence), env.entryJson(e)), t)
            && Unbroken(env, t) && Numbered(t) && |t| == st.nextSequence + 1
            && HeadOf(t) == e.hash && Hashes(t) == st.merkleLeaves + [e.hash]
            && HeadOf(t[..st.nextSequence]) == st.headHash && Hashes(t[..st.nextSequence]) == st.merkleLeaves
            && t[..st.nextSequence + 1] == t
  {
    var e := NewEntry(env, st, event, timestampNs);
    RecordedInsert(env, st.db, es, st.nextSequence, e);
    SoundExtended(env, es, st.nextSequence, e);
  }

  lemma AppendedSound(env: AuditEnv, st: LogState, es: seq<AuditEntry>, event: Event, timestampNs: u64, fault: Fault)
    requires Sound(env, st, es) && HasRoom(st)
    ensures Sound(env, Appended(env, st, event, timestampNs, fault), Stored(env, st, es, event, timestampNs, fault))
  {
    WrittenSound(env, st, es, event, timestampNs);
  }

  lemma AnchoredSound(env: AuditEnv, st: LogState, es: seq<AuditEntry>, timestampNs: u64, fault: Fault)
    requires Sound(env, st, es) && HasRoom(st)
    ensures Sound(env, Anchored(env, st, timestampNs, fault),
                  if Unanchored(st) == [] then es else Stored(env, st, es, AnchorEvent(env, st), timestampNs, fault))
  {
    AppendedSound(env, st, es, AnchorEvent(env, st), timestampNs, fault);
  }

  lemma LastRecorded(env: AuditEnv, db: Db, es: seq<AuditEntry>)
    requires JsonFaithful(env) && Recorded(env, db, es) && Numbered(es) && es != []
    ensures env.parseEntry(db[|db| - 1].value) == Some(es[|es| - 1]) && es[|es| - 1].sequence == |es| - 1
  {
    assert db[|db| - 1].value == env.entryJson(es[|es| - 1]);
  }

  lemma {:induction false} OpenedAtLast(env: AuditEnv, db: Db, last: AuditEntry, issuerId: string)
    requires db != [] && env.parseEntry(db[|db| - 1].value) == Some(last) && last.sequence + 1 < U64_LIMIT
    ensures Opened(env, db, issuerId)
         == Ok(LogState(db, last.hash, last.sequence + 1, issuerId, {}, Hashes(Readable(env, db)), None, 0))
  {
  }

  lemma {:induction false} OpenedFrom(env: AuditEnv, db: Db, es: seq<AuditEntry>, issuerId: string)
    requires Readable(env, db) == es && |db| == |es| < U64_LIMIT
    requires es != [] ==>
               env.parseEntry(db[|db| - 1].value) == Some(es[|es| - 1]) && es[|es| - 1].sequence == |es| - 1
    ensures Opened(env, db, issuerId) == Ok(LogState(db, HeadOf(es), |es|, issuerId, {}, Hashes(es), None, 0))
  {
    if es != [] { OpenedAtLast(env, db, es[|es| - 1], issuerId); }
  }

  lemma {:induction false} AllCounted(env: AuditEnv, db: Db, es: seq<AuditEntry>, issuerId: string)
    requires Recorded(env, db, es) && Unbroken(env, es) && Numbered(es)
    ensures Sound(env, LogState(db, HeadOf(es), |es|, issuerId, {}, Hashes(es), None, 0), es)
  {
    assert es[..|es|] == es;
  }

  /** Opening a database that holds an unbroken chain takes up exactly where the chain ends. */
  lemma {:induction false} OpenedSound(env: AuditEnv, db: Db, es: seq<AuditEntry>, issuerId: string)
    requires JsonFaithful(env) && Recorded(env, db, es) && Unbroken(env, es) && Numbered(es)
    ensures Opened(env, db, issuerId) == Ok(LogState(db, HeadOf(es), |es|, issuerId, {}, Hashes(es), None, 0))
    ensures Sound(env, Opened(env, db, issuerId).value, es)
  {
    RecordedReads(env, db, es);
    if es != [] { LastRecorded(env, db, es); }
    OpenedFrom(env, db, es, issuerId);
    AllCounted(env, db, es, issuerId);
  }

  // ── Runs ──────────────────────────────────────────────────────────

  /** A reopen after a crash may or may not find the entry whose flush failed. */
  datatype LogOp =
    | AppendOp(event: Event, timestampNs: u64, fault: Fault)
    | AnchorOp(timestampNs: u64, fault: Fault)
    | NonceOp(nonce: Digest)
    | ReopenOp(issuerId: string, keepsUnflushed: bool)

  function Surviving(st: LogState, keepsUnflushed: bool): Db {
    if keepsUnflushed || |st.db| <= st.nextSequence then st.db else st.db[..st.nextSequence]
  }

  function Perform(env: AuditEnv, st: LogState, op: LogOp): LogState {
    match op
    case AppendOp(event, ts, fault) => if HasRoom(st) then Appended(env, st, event, ts, fault) else st
    case AnchorOp(ts, fault) => if HasRoom(st) then Anchored(env, st, ts, fault) else st
    case NonceOp(nonce) => st.(seenNonces := Remember(st.seenNonces, nonce))
    case ReopenOp(issuerId, keeps) =>
      match Opened(env, Surviving(st, keeps), issuerId)
      case Ok(reopened) => reopened
      case Err(_) => st
  }

  function PerformAll(env: AuditEnv, st: LogState, ops: seq<LogOp>): LogState {
    RunAll((t: LogState, op: LogOp) => Perform(env, t, op), st, ops)
  }

  const EMPTY_LOG := LogState([], ZERO_DIGEST, 0, "", {}, [], None, 0)

  lemma SurvivingSound(env: AuditEnv, st: LogState, es: seq<AuditEntry>, keeps: bool) returns (kept: seq<AuditEntry>)
    requires Sound(env, st, es)
    ensures Recorded(env, Surviving(st, keeps), kept) && Unbroken(env, kept) && Numbered(kept)
    ensures kept == es || kept == es[..st.nextSequence]
  {
    if keeps || |st.db| <= st.nextSequence {
      kept := es;
    } else {
      kept := es[..st.nextSequence];
      UnbrokenPrefix(env, es, st.nextSequence);
    }
  }

  /** Opening fails exactly when there is a last entry and it cannot be read. */
  lemma {:induction false} OpenFails(env: AuditEnv, db: Db, issuerId: string)
    ensures Opened(env, db, issuerId).Err? <==> |db| > 0 && env.parseEntry(db[|db| - 1].value).None?
  {
  }

  /** The second state is sound too, and keeps what the first had counted. */
  predicate Continues(env: AuditEnv, st: LogState, es: seq<AuditEntry>, st': LogState, es': seq<AuditEntry>)
    requires st.nextSequence <= |es|
  {
    Sound(env, st', es') && st.nextSequence <= st'.nextSequence && es'[..st.nextSequence] == es[..st.nextSequence]
  }

  lemma AppendContinues(env: AuditEnv, st: LogState, es: seq<AuditEntry>, event: Event, timestampNs: u64, fault: Fault)
    requires Sound(env, st, es) && HasRoom(st)
    ensures Continues(env, st, es, Appended(env, st, event, timestampNs, fault),
                      Stored(env, st, es, event, timestampNs, fault))
  {
    AppendedSound(env, st, es, event, timestampNs, fault);
  }

  lemma AnchorContinues(env: AuditEnv, st: LogState, es: seq<AuditEntry>, timestampNs: u64, fault: Fault)
    requires Sound(env, st, es) && HasRoom(st)
    ensures Continues(env, st, es, Anchored(env, st, timestampNs, fault),
                      if Unanchored(st) == [] then es else Stored(env, st, es, AnchorEvent(env, st), timestampNs, fault))
  {
    AnchoredSound(env, st, es, timestampNs, fault);
  }

  lemma ReopenContinues(env: AuditEnv, st: LogState, es: seq<AuditEntry>, issuerId: string, keeps: bool)
    returns (kept: seq<AuditEntry>)
    requires JsonFaithful(env) && Sound(env, st, es)
    ensures Opened(env, Surviving(st, keeps), issuerId).Ok?
    ensures Continues(env, st, es, Opened(env, Surviving(st, keeps), issuerId).value, kept)
  {
    kept := SurvivingSound(env, st, es, keeps);
    OpenedSound(env, Surviving(st, keeps), kept, issuerId);
  }

  lemma PerformSound(env: AuditEnv, st: LogState, es: seq<AuditEntry>, op: LogOp) returns (es': seq<AuditEntry>)
    requires JsonFaithful(env) && Sound(env, st, es)
    ensures Continues(env, st, es, Perform(env, st, op), es')
  {
    match op
    case AppendOp(event, ts, fault) =>
      es' := if HasRoom(st) then Stored(env, st, es, event, ts, fault) else es;
      if HasRoom(st) { AppendContinues(env, st, es, event, ts, fault); }
    case AnchorOp(ts, fault) =>
      es' := if HasRoom(st) && Unanchored(st) != [] then Stored(env, st, es, AnchorEvent(env, st), ts, fault) else es;
      if HasRoom(st) { AnchorContinues(env, st, es, ts, fault); }
    case NonceOp(_) => es' := es;
    case ReopenOp(issuerId, keeps) => es' := ReopenContinues(env, st, es, issuerId, keeps);
  }

  ghost predicate SomeSound(env: AuditEnv, st: LogState) {
    exists es :: Sound(env, st, es)
  }

  lemma {:induction false} PerformAllSound(env: AuditEnv, st: LogState, es: seq<AuditEntry>, ops: seq<LogOp>)
    requires JsonFaithful(env) && Sound(env, st, es)
    ensures var t := PerformAll(env, st, ops); Sound(env, t, Readable(env, t.db))
  {
    forall t, op | SomeSound(env, t) ensures SomeSound(env, Perform(env, t, op)) {
      var ts :| Sound(env, t, ts);
      var ts' := PerformSound(env, t, ts, op);
    }
    RunKeeps((t: LogState, op: LogOp) => Perform(env, t, op), (_: LogOp) => true,
             (t: LogState) => SomeSound(env, t), st, ops);
    var t := PerformAll(env, st, ops);
    var ts :| Sound(env, t, ts);
    RecordedReads(env, t.db, ts);
  }

  lemma EmptyLogSound(env: AuditEnv)
    ensures Sound(env, EMPTY_LOG, [])
  {
    assert Links(env, []) == [];
  }

  /**
   Crash and reopen. After any mix of appends, anchors, failed writes, failed flushes and reopens the stored entries
   are numbered from zero and pass `verify_chain` whole; reopening succeeds, and recovers the head hash, the
   next sequence number and the Merkle leaves held in memory exactly when no unflushed entry is left behind
   (otherwise it takes that entry up too).
   */
  lemma {:induction false} CrashAndReopen(env: AuditEnv, ops: seq<LogOp>, issuerId: string)
    requires JsonFaithful(env)
    ensures var st := PerformAll(env, EMPTY_LOG, ops);
            var es := Readable(env, st.db);
            && CheckFrom(env, st.db, 0, ZERO_DIGEST) == Checked(|st.db|, None)
            && |es| == |st.db| && Numbered(es) && Unbroken(env, es)
            && st.nextSequence <= |es| <= st.nextSequence + 1
            && Opened(env, st.db, issuerId).Ok?
            && var again := Opened(env, st.db, issuerId).value;
               && again.nextSequence == |es| && again.headHash == HeadOf(es) && again.merkleLeaves == Hashes(es)
               && (&& again.nextSequence == st.nextSequence && again.headHash == st.headHash
                   && again.merkleLeaves == st.merkleLeaves
                   <==> |st.db| == st.nextSequence)
  {
    EmptyLogSound(env);
    PerformAllSound(env, EMPTY_LOG, [], ops);
    var st := PerformAll(env, EMPTY_LOG, ops);
    var es := Readable(env, st.db);
    RecordedReads(env, st.db, es);
    VerifyChainIsRight(env, st.db);
    OpenedSound(env, st.db, es, issuerId);
    assert |st.db| == st.nextSequence ==> es[..st.nextSequence] == es;
  }

  lemma {:induction false} PerformAllContinues(env: AuditEnv, st: LogState, es: seq<AuditEntry>, ops: seq<LogOp>)
      returns (es': seq<AuditEntry>)
    requires JsonFaithful(env) && Sound(env, st, es)
    ensures Continues(env, st, es, PerformAll(env, st, ops), es')
    decreases |ops|
  {
    es' := es;
    if ops != [] {
      var next := PerformSound(env, st, es, ops[0]);
      es' := PerformAllContinues(env, Perform(env, st, ops[0]), next, ops[1..]);
      assert es'[..st.nextSequence] == es'[..Perform(env, st, ops[0]).nextSequence][..st.nextSequence];
      assert next[..st.nextSequence] == next[..Perform(env, st, ops[0]).nextSequence][..st.nextSequence];
    }
  }

  /** Entry `n` of a log is this event at this time, hashed with the hash before it. */
  predicate Stands(env: AuditEnv, es: seq<AuditEntry>, n: nat, event: Event, timestampNs: u64, issuerId: string) {
    n < |es| && n < U64_LIMIT &&
    var e := es[n];
    var previous: Bytes := if n == 0 then seq(32, _ => 0) else es[n - 1].hash;
    && e.sequence == n && e.event == event && e.timestampNs == timestampNs && e.issuerId == issuerId
    && e.prevHash == previous
    && e.hash == env.sha3(previous + U64Bytes(timestampNs) + U64Bytes(n) + env.eventJson(event))
  }

  lemma NewStands(env: AuditEnv, st: LogState, es: seq<AuditEntry>, event: Event, timestampNs: u64)
    requires Sound(env, st, es) && HasRoom(st)
    ensures Stands(env, es[..st.nextSequence] + [NewEntry(env, st, event, timestampNs)], st.nextSequence, event, timestampNs,
                   st.issuerId)
  {
    assert ZERO_DIGEST == seq(32, _ => 0);
    var t := es[..st.nextSequence] + [NewEntry(env, st, event, timestampNs)];
    if st.nextSequence > 0 { assert t[st.nextSequence - 1] == es[..st.nextSequence][st.nextSequence - 1]; }
  }

  lemma StandsLonger(env: AuditEnv, es: seq<AuditEntry>, es': seq<AuditEntry>, n: nat, event: Event, timestampNs: u64,
                     issuerId: string)
    requires Stands(env, es, n, event, timestampNs, issuerId) && n + 1 <= |es'| && es'[..n + 1] == es[..n + 1]
    ensures Stands(env, es', n, event, timestampNs, issuerId)
  {
    assert es'[n] == es'[..n + 1][n] && es[n] == es[..n + 1][n];
    if n > 0 { assert es'[n - 1] == es'[..n + 1][n - 1] && es[n - 1] == es[..n + 1][n - 1]; }
  }

  lemma {:induction false} PerformConcat(env: AuditEnv, st: LogState, a: seq<LogOp>, op: LogOp, b: seq<LogOp>)
    ensures PerformAll(env, st, a + [op] + b) == PerformAll(env, Perform(env, PerformAll(env, st, a), op), b)
  {
    RunAllConcat((t: LogState, o: LogOp) => Perform(env, t, o), st, a + [op], b);
    RunAllConcat((t: LogState, o: LogOp) => Perform(env, t, o), st, a, [op]);
    RunAllOne((t: LogState, o: LogOp) => Perform(env, t, o), PerformAll(env, st, a), op);
  }

  lemma {:induction false} AppendStaysFrom(env: AuditEnv, st: LogState, es: seq<AuditEntry>, event: Event, timestampNs: u64,
                                           after: seq<LogOp>)
    requires JsonFaithful(env) && Sound(env, st, es) && HasRoom(st)
    ensures var last := PerformAll(env, Appended(env, st, event, timestampNs, NoFault), after);
            Stands(env, Readable(env, last.db), st.nextSequence, event, timestampNs, st.issuerId)
  {
    var appended, es' := Appended(env, st, event, timestampNs, NoFault), Stored(env, st, es, event, timestampNs, NoFault);
    AppendedSound(env, st, es, event, timestampNs, NoFault);
    NewStands(env, st, es, event, timestampNs);
    var all := PerformAllContinues(env, appended, es', after);
    RecordedReads(env, PerformAll(env, appended, after).db, all);
    assert es'[..st.nextSequence + 1] == all[..st.nextSequence + 1];
    StandsLonger(env, es', all, st.nextSequence, event, timestampNs, st.issuerId);
  }

  /**
   An append that succeeds is there for good. Whatever came before and whatever comes after, failed writes, anchors and
   reopens included, the entry at its sequence number has its event, its clock reading, its issuer, the hash
   before it, and the hash of these.
   */
  lemma {:induction false} AppendStays(env: AuditEnv, before: seq<LogOp>, event: Event, timestampNs: u64, after: seq<LogOp>)
    requires JsonFaithful(env) && HasRoom(PerformAll(env, EMPTY_LOG, before))
    ensures var st := PerformAll(env, EMPTY_LOG, before);
            var last := PerformAll(env, EMPTY_LOG, before + [AppendOp(event, timestampNs, NoFault)] + after);
            Stands(env, Readable(env, last.db), st.nextSequence, event, timestampNs, st.issuerId)
  {
    var st := PerformAll(env, EMPTY_LOG, before);
    EmptyLogSound(env);
    PerformAllSound(env, EMPTY_LOG, [], before);
    AppendStaysFrom(env, st, Readable(env, st.db), event, timestampNs, after);
    PerformConcat(env, EMPTY_LOG, before, AppendOp(event, timestampNs, NoFault), after);
  }

  predicate FlushesFine(op: LogOp) {
    (op.AppendOp? || op.AnchorOp?) ==> op.fault != FlushFails
  }

  ghost predicate NothingUnflushed(env: AuditEnv, st: LogState) {
    SomeSound(env, st) && |st.db| == st.nextSequence
  }

  lemma PerformLeavesNothing(env: AuditEnv, st: LogState, op: LogOp)
    requires JsonFaithful(env) && NothingUnflushed(env, st) && FlushesFine(op)
    ensures NothingUnflushed(env, Perform(env, st, op))
  {
    var es :| Sound(env, st, es);
    var es' := PerformSound(env, st, es, op);
    match op
    case AppendOp(event, ts, fault) => if HasRoom(st) { AppendedSound(env, st, es, event, ts, fault); }
    case AnchorOp(ts, fault) => if HasRoom(st) { AnchoredSound(env, st, es, ts, fault); }
    case NonceOp(_) =>
    case ReopenOp(issuerId, keeps) =>
      var kept := SurvivingSound(env, st, es, keeps);
      OpenedSound(env, Surviving(st, keeps), kept, issuerId);
  }

  /** So with no failed flush reopening recovers exactly what was in memory. */
  lemma ReopenAfterCleanRun(env: AuditEnv, ops: seq<LogOp>, issuerId: string)
    requires JsonFaithful(env) && forall i | 0 <= i < |ops| :: FlushesFine(ops[i])
    ensures var st := PerformAll(env, EMPTY_LOG, ops);
            var again := Opened(env, st.db, issuerId);
            && again.Ok? && again.value.headHash == st.headHash
            && again.value.nextSequence == st.nextSequence && again.value.merkleLeaves == st.merkleLeaves
  {
    EmptyLogSound(env);
    forall t, op | NothingUnflushed(env, t) && FlushesFine(op) ensures NothingUnflushed(env, Perform(env, t, op)) {
      PerformLeavesNothing(env, t, op);
    }
    RunKeeps((t: LogState, op: LogOp) => Perform(env, t, op), (op: LogOp) => FlushesFine(op),
             (t: LogState) => NothingUnflushed(env, t), EMPTY_LOG, ops);
    CrashAndReopen(env, ops, issuerId);
  }

  // ── Anchors within one session ────────────────────────────────────

  /** One recorded anchor: the window it covers, its root, and the sequence number of the anchor entry itself. */
  datatype Anchor = Anchor(from: u64, to: u64, count: u64, root: Digest, at: u64)

  datatype Session = Session(st: LogState, anchors: seq<Anchor>)

  predicate Anchors(st: LogState, op: LogOp) {
    op.AnchorOp? && op.fault.NoFault? && HasRoom(st) && Unanchored(st) != []
  }

  /** `Perform`, listing the anchors it records. */
  function PerformInSession(env: AuditEnv, s: Session, op: LogOp): Session {
    var st := Perform(env, s.st, op);
    if !Anchors(s.st, op) then Session(st, s.anchors)
    else
      var e := AnchorEvent(env, s.st);
      var root := st.lastMerkleRoot.GetOr(ZERO_DIGEST);
      Session(st, s.anchors + [Anchor(e.fromSequence, e.toSequence, e.entryCount, root, s.st.nextSequence)])
  }

  function RunSession(env: AuditEnv, s: Session, ops: seq<LogOp>): Session {
    RunAll((t: Session, op: LogOp) => PerformInSession(env, t, op), s, ops)
  }

  /** Where the window after these anchors starts. */
  function NextFrom(anchors: seq<Anchor>): nat {
    if anchors == [] then 0 else anchors[|anchors| - 1].at + 1
  }

  /** Each window starts right after the previous anchor entry, and its own anchor entry right after it. */
  predicate Spaced(anchors: seq<Anchor>) {
    anchors == [] ||
    var m := |anchors| - 1;
    var a := anchors[m];
    Spaced(anchors[..m]) && NextFrom(anchors[..m]) == a.from <= a.to && a.at == a.to + 1 && a.count == a.to - a.from + 1
  }

  /** The event records this anchor, and the root is that of the window's hashes. */
  predicate AnchorRecords(env: AuditEnv, event: Event, window: seq<AuditEntry>, a: Anchor) {
    && event == MerkleAnchor(HexEncode(a.root), a.from, a.to, a.count)
    && a.root == Merkle.Root(env.sha3, Hashes(window))
  }

  /** The log holds the anchor's own entry, recording the entries from `from` up to it. */
  predicate AnchorIn(env: AuditEnv, es: seq<AuditEntry>, a: Anchor) {
    a.from <= a.at < |es| && AnchorRecords(env, es[a.at].event, es[a.from..a.at], a)
  }

  predicate AllIn(env: AuditEnv, es: seq<AuditEntry>, anchors: seq<Anchor>) {
    forall j | 0 <= j < |anchors| :: AnchorIn(env, es, anchors[j])
  }

  predicate Tiled(env: AuditEnv, es: seq<AuditEntry>, anchors: seq<Anchor>) {
    Spaced(anchors) && AllIn(env, es, anchors)
  }

  predicate SessionSound(env: AuditEnv, s: Session, es: seq<AuditEntry>) {
    Sound(env, s.st, es) && Tiled(env, es, s.anchors) && s.st.lastAnchorSequence == NextFrom(s.anchors)
  }

  lemma {:induction false} HashesSlice(es: seq<AuditEntry>, k: nat)
    requires k <= |es|
    ensures Hashes(es)[k..] == Hashes(es[k..])
    decreases |es|
  {
    if k < |es| {
      var n := |es| - 1;
      HashesSlice(es[..n], k);
      assert es[k..][..n - k] == es[..n][k..];
    }
  }

  lemma UnanchoredIs(env: AuditEnv, st: LogState, es: seq<AuditEntry>)
    requires Sound(env, st, es)
    ensures Unanchored(st) == Hashes(es[st.lastAnchorSequence..st.nextSequence])
  {
    HashesSlice(es[..st.nextSequence], st.lastAnchorSequence);
    assert es[..st.nextSequence][st.lastAnchorSequence..] == es[st.lastAnchorSequence..st.nextSequence];
  }

  /** The anchor a successful `compute_merkle_anchor` records. */
  function NewAnchor(env: AuditEnv, st: LogState): Anchor {
    var e := AnchorEvent(env, st);
    Anchor(e.fromSequence, e.toSequence, e.entryCount, Merkle.Root(env.sha3, Unanchored(st)), st.nextSequence)
  }

  lemma NewAnchorPlaced(env: AuditEnv, st: LogState)
    requires st.lastAnchorSequence <= st.nextSequence && Unanchored(st) != []
    requires |Unanchored(st)| == st.nextSequence - st.lastAnchorSequence
    ensures var a := NewAnchor(env, st);
            a.from == st.lastAnchorSequence <= a.to && a.at == a.to + 1 && a.count == a.to - a.from + 1
  {
  }

  lemma NewAnchorIn(env: AuditEnv, st: LogState, es: seq<AuditEntry>, ts: u64)
    requires Sound(env, st, es) && HasRoom(st) && Unanchored(st) != []
    ensures AnchorIn(env, Stored(env, st, es, AnchorEvent(env, st), ts, NoFault), NewAnchor(env, st))
  {
    UnanchoredIs(env, st, es);
    var n := st.nextSequence;
    var t := Stored(env, st, es, AnchorEvent(env, st), ts, NoFault);
    assert t[st.lastAnchorSequence..n] == es[st.lastAnchorSequence..n];
  }

  lemma SharedPrefix<T>(s: seq<T>, t: seq<T>, n: nat, i: nat, j: nat)
    requires i <= j < n <= |s| && n <= |t| && s[..n] == t[..n]
    ensures s[j] == t[j] && s[i..j] == t[i..j]
  {
    assert forall k | 0 <= k < n :: s[k] == s[..n][k] == t[..n][k] == t[k];
  }

  lemma AnchorStays(env: AuditEnv, es: seq<AuditEntry>, es': seq<AuditEntry>, a: Anchor, n: nat)
    requires AnchorIn(env, es, a) && a.at < n <= |es| && n <= |es'| && es'[..n] == es[..n]
    ensures AnchorIn(env, es', a)
  {
    SharedPrefix(es, es', n, a.from, a.at);
  }

  lemma TiledGrows(env: AuditEnv, es: seq<AuditEntry>, es': seq<AuditEntry>, anchors: seq<Anchor>, n: nat)
    requires Tiled(env, es, anchors) && NextFrom(anchors) <= n <= |es| && n <= |es'| && es'[..n] == es[..n]
    ensures Tiled(env, es', anchors)
  {
    forall j | 0 <= j < |anchors| ensures AnchorIn(env, es', anchors[j]) {
      AnchorBelow(anchors, j);
      AnchorStays(env, es, es', anchors[j], n);
    }
  }

  lemma {:induction false} AnchorBelow(anchors: seq<Anchor>, j: nat)
    requires Spaced(anchors) && j < |anchors|
    ensures anchors[j].at < NextFrom(anchors)
    decreases |anchors|
  {
    var m := |anchors| - 1;
    if j < m {
      AnchorBelow(anchors[..m], j);
    }
  }

  lemma {:induction false} SpacedNext(anchors: seq<Anchor>, a: Anchor)
    requires Spaced(anchors) && a.from == NextFrom(anchors) <= a.to && a.at == a.to + 1 && a.count == a.to - a.from + 1
    ensures Spaced(anchors + [a]) && NextFrom(anchors + [a]) == a.at + 1
  {
    assert (anchors + [a])[..|anchors|] == anchors;
  }

  lemma Append<T>(s: seq<T>, x: T, j: nat)
    requires j < |s + [x]|
    ensures (s + [x])[j] == if j < |s| then s[j] else x
  {
  }

  lemma AllInNext(env: AuditEnv, es: seq<AuditEntry>, anchors: seq<Anchor>, a: Anchor)
    requires AllIn(env, es, anchors) && AnchorIn(env, es, a)
    ensures AllIn(env, es, anchors + [a])
  {
    forall j | 0 <= j < |anchors + [a]| ensures AnchorIn(env, es, (anchors + [a])[j]) {
      Append(anchors, a, j);
    }
  }

  lemma TiledNext(env: AuditEnv, es: seq<AuditEntry>, anchors: seq<Anchor>, a: Anchor)
    requires Tiled(env, es, anchors) && AnchorIn(env, es, a)
    requires a.from == NextFrom(anchors) <= a.to && a.at == a.to + 1 && a.count == a.to - a.from + 1
    ensures Tiled(env, es, anchors + [a]) && NextFrom(anchors + [a]) == a.at + 1
  {
    SpacedNext(anchors, a);
    AllInNext(env, es, anchors, a);
  }

  lemma AnchoredInSession(env: AuditEnv, s: Session, es: seq<AuditEntry>, op: LogOp)
    requires SessionSound(env, s, es) && Anchors(s.st, op)
    ensures SessionSound(env, Session(Anchored(env, s.st, op.timestampNs, NoFault), s.anchors + [NewAnchor(env, s.st)]),
                         Stored(env, s.st, es, AnchorEvent(env, s.st), op.timestampNs, NoFault))
  {
    var es' := Stored(env, s.st, es, AnchorEvent(env, s.st), op.timestampNs, NoFault);
    AnchoredSound(env, s.st, es, op.timestampNs, NoFault);
    TiledGrows(env, es, es', s.anchors, s.st.nextSequence);
    UnanchoredIs(env, s.st, es);
    NewAnchorPlaced(env, s.st);
    NewAnchorIn(env, s.st, es, op.timestampNs);
    TiledNext(env, es', s.anchors, NewAnchor(env, s.st));
  }

  lemma PerformInSessionSound(env: AuditEnv, s: Session, es: seq<AuditEntry>, op: LogOp) returns (es': seq<AuditEntry>)
    requires JsonFaithful(env) && SessionSound(env, s, es) && !op.ReopenOp?
    ensures SessionSound(env, PerformInSession(env, s, op), es')
  {
    if Anchors(s.st, op) {
      es' := Stored(env, s.st, es, AnchorEvent(env, s.st), op.timestampNs, NoFault);
      AnchoredInSession(env, s, es, op);
    } else {
      es' := PerformSound(env, s.st, es, op);
      TiledGrows(env, es, es', s.anchors, s.st.nextSequence);
      AnchorPositionKept(env, s.st, op);
    }
  }

  lemma AnchorPositionKept(env: AuditEnv, st: LogState, op: LogOp)
    requires !Anchors(st, op) && !op.ReopenOp?
    ensures Perform(env, st, op).lastAnchorSequence == st.lastAnchorSequence
  {
  }

  ghost predicate SomeSessionSound(env: AuditEnv, s: Session) {
    exists es :: SessionSound(env, s, es)
  }

  lemma RunSessionSound(env: AuditEnv, s: Session, ops: seq<LogOp>)
    requires JsonFaithful(env) && SomeSessionSound(env, s)
    requires forall i | 0 <= i < |ops| :: !ops[i].ReopenOp?
    ensures SomeSessionSound(env, RunSession(env, s, ops))
  {
    forall t, op: LogOp | SomeSessionSound(env, t) && !op.ReopenOp?
      ensures SomeSessionSound(env, PerformInSession(env, t, op))
    {
      var es :| SessionSound(env, t, es);
      var es' := PerformInSessionSound(env, t, es, op);
    }
    RunKeeps((t: Session, op: LogOp) => PerformInSession(env, t, op), (op: LogOp) => !op.ReopenOp?,
             (t: Session) => SomeSessionSound(env, t), s, ops);
  }

  /** A position below the last anchor is in exactly one window or is exactly one anchor entry. */
  predicate Covers(a: Anchor, p: nat) { a.from <= p <= a.at }

  lemma {:induction false} TilingCovers(anchors: seq<Anchor>, p: nat) returns (j: nat)
    requires Spaced(anchors) && p < NextFrom(anchors)
    ensures j < |anchors| && Covers(anchors[j], p)
    ensures forall i | 0 <= i < |anchors| :: Covers(anchors[i], p) ==> i == j
    decreases |anchors|
  {
    var m := |anchors| - 1;
    var before := anchors[..m];
    if p < anchors[m].from {
      j := TilingCovers(before, p);
      assert forall i | 0 <= i < m :: anchors[i] == before[i];
    } else {
      j := m;
      forall i | 0 <= i < m ensures !Covers(anchors[i], p) {
        AnchorBelow(before, i);
        assert anchors[i] == before[i];
      }
    }
  }

  /**
   Anchor tiling. In a session that opens a sound log and never reopens it, whatever else fails: the recorded
   windows and their anchor entries tile the sequence numbers below `last_anchor_sequence`, every position
   belonging to exactly one; each anchor entry stands right after its window, holds its
   bounds and count, and its root is the Merkle root of exactly the hashes in the window.
   */
  lemma {:induction false} AnchorTiling(env: AuditEnv, db: Db, es: seq<AuditEntry>, issuerId: string, ops: seq<LogOp>,
                                        p: nat)
    requires JsonFaithful(env) && Recorded(env, db, es) && Unbroken(env, es) && Numbered(es)
    requires forall i | 0 <= i < |ops| :: !ops[i].ReopenOp?
    ensures Opened(env, db, issuerId).Ok?
    ensures var s := RunSession(env, Session(Opened(env, db, issuerId).value, []), ops);
            && Tiled(env, Readable(env, s.st.db), s.anchors)
            && s.st.lastAnchorSequence == NextFrom(s.anchors)
            && (p < s.st.lastAnchorSequence ==>
                  exists j | 0 <= j < |s.anchors| ::
                    Covers(s.anchors[j], p) && forall i | 0 <= i < |s.anchors| :: Covers(s.anchors[i], p) ==> i == j)
  {
    OpenedSound(env, db, es, issuerId);
    var s0 := Session(Opened(env, db, issuerId).value, []);
    assert SessionSound(env, s0, es);
    RunSessionSound(env, s0, ops);
    var s := RunSession(env, s0, ops);
    var es' :| SessionSound(env, s, es');
    RecordedReads(env, s.st.db, es');
    if p < s.st.lastAnchorSequence {
      var j := TilingCovers(s.anchors, p);
    }
  }

  // ── Nonces ────────────────────────────────────────────────────────

  /** The nonces presented so far: the set remembered, those accepted in order, and how often the set was cleared. */
  datatype NonceLog = NonceLog(seen: set<Digest>, accepted: seq<Digest>, clears: nat)

  function PresentNonce(l: NonceLog, nonce: Digest): NonceLog {
    if nonce in l.seen then l
    else NonceLog(Remember(l.seen, nonce), l.accepted + [nonce],
                  if |l.seen + {nonce}| > MAX_NONCES then l.clears + 1 else l.clears)
  }

  function PresentAll(l: NonceLog, nonces: seq<Digest>): NonceLog
    decreases |nonces|
  {
    if nonces == [] then l else PresentAll(PresentNonce(l, nonces[0]), nonces[1..])
  }

  /** Accepted nonces fill the set, and an accepted nonce was either cleared away or is still remembered. */
  ghost predicate NoncesCounted(l: NonceLog) {
    && l.clears * MAX_NONCES + |l.seen| == |l.accepted|
    && (l.accepted == [] ==> l.clears == 0)
    && (l.accepted != [] ==> 1 <= |l.seen| <= MAX_NONCES)
    && forall n: Digest :: multiset(l.accepted)[n] <= l.clears + if n in l.seen then 1 else 0
  }

  lemma PresentNonceCounted(l: NonceLog, nonce: Digest)
    requires NoncesCounted(l)
    ensures NoncesCounted(PresentNonce(l, nonce))
  {
    var t := PresentNonce(l, nonce);
    if nonce !in l.seen {
      assert |l.seen + {nonce}| == |l.seen| + 1;
      forall n: Digest ensures multiset(t.accepted)[n] <= t.clears + if n in t.seen then 1 else 0 {
        assert multiset(t.accepted) == multiset(l.accepted) + multiset{nonce};
      }
    }
  }

  lemma {:induction false} PresentAllCounted(l: NonceLog, nonces: seq<Digest>)
    requires NoncesCounted(l)
    ensures NoncesCounted(PresentAll(l, nonces))
    decreases |nonces|
  {
    if nonces != [] {
      PresentNonceCounted(l, nonces[0]);
      PresentAllCounted(PresentNonce(l, nonces[0]), nonces[1..]);
    }
  }

  /**
   Nonce accounting. After A >= 1 accepted nonces the set holds 1 + (A - 1) mod 100000 of them and has been
   cleared (A - 1) div 100000 times, and no nonce was accepted more than once per clearing plus once.
   */
  lemma {:induction false} NonceAccounting(nonces: seq<Digest>, n: Digest)
    ensures var l := PresentAll(NonceLog({}, [], 0), nonces);
            var a := |l.accepted|;
            && (a >= 1 ==> |l.seen| == 1 + (a - 1) % 100_000 && l.clears == (a - 1) / 100_000)
            && (a >= 1 ==> multiset(l.accepted)[n] <= 1 + (a - 1) / 100_000)
            && (multiset(l.accepted)[n] > l.clears ==> n in l.seen)
  {
    var l := PresentAll(NonceLog({}, [], 0), nonces);
    PresentAllCounted(NonceLog({}, [], 0), nonces);
    var a := |l.accepted|;
    if a >= 1 {
      assert a - 1 == l.clears * 100_000 + (|l.seen| - 1) && 0 <= |l.seen| - 1 < MAX_NONCES;
    }
  }
}
