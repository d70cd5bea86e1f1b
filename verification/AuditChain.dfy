/** What a verified hash chain proves about the entries in it. */
module AuditChain {
  import opened Basics
  import opened OrderedMaps
  import opened Chains
  import opened Audit
  import Merkle

  function Links(env: AuditEnv, es: seq<AuditEntry>): (ls: seq<Link<Digest, Bytes>>)
    ensures |ls| == |es|
  {
    seq(|es|, i requires 0 <= i < |es| => LinkOf(env, es[i]))
  }

  /** The entries form an unbroken chain from the all-zero digest. */
  predicate Unbroken(env: AuditEnv, es: seq<AuditEntry>) {
    Chained(env.sha3, ZERO_DIGEST, Links(env, es))
  }

  /** The hash a log of these entries ends on. */
  function HeadOf(es: seq<AuditEntry>): Digest {
    if es == [] then ZERO_DIGEST else es[|es| - 1].hash
  }

  predicate AllReadable(env: AuditEnv, db: Db) {
    forall i | 0 <= i < |db| :: env.parseEntry(db[i].value).Some?
  }

  lemma UnbrokenNext(env: AuditEnv, es: seq<AuditEntry>, e: AuditEntry)
    ensures Unbroken(env, es + [e]) <==> Unbroken(env, es) && LinkHolds(env.sha3, HeadOf(es), LinkOf(env, e))
  {
    assert Links(env, es + [e]) == Links(env, es) + [LinkOf(env, e)];
    ChainedNext(env.sha3, ZERO_DIGEST, Links(env, es), LinkOf(env, e));
  }

  lemma UnbrokenPrefix(env: AuditEnv, es: seq<AuditEntry>, n: nat)
    requires Unbroken(env, es) && n <= |es|
    ensures Unbroken(env, es[..n])
  {
    assert Links(env, es[..n]) == Links(env, es)[..n];
    ChainedPrefix(env.sha3, ZERO_DIGEST, Links(env, es), n);
  }

  lemma UnbrokenAt(env: AuditEnv, es: seq<AuditEntry>, i: nat)
    requires Unbroken(env, es) && i < |es|
    ensures LinkHolds(env.sha3, HeadOf(es[..i]), LinkOf(env, es[i]))
  {
    assert LinkedAt(env.sha3, ZERO_DIGEST, Links(env, es), i);
  }

  // ── verify_chain ──────────────────────────────────────────────────

  lemma {:induction false} ReadableLength(env: AuditEnv, db: Db)
    requires AllReadable(env, db)
    ensures |Readable(env, db)| == |db|
    decreases |db|
  {
    if db != [] {
      ReadableLength(env, db[..|db| - 1]);
    }
  }

  lemma {:induction false} ReadableAt(env: AuditEnv, db: Db, n: nat)
    requires n < |db| && AllReadable(env, db)
    ensures |Readable(env, db)| == |db|
    ensures Readable(env, db)[..n] == Readable(env, db[..n])
    ensures Readable(env, db)[n] == env.parseEntry(db[n].value).value
    decreases |db|
  {
    var m := |db| - 1;
    ReadableLength(env, db[..m]);
    if n < m {
      ReadableAt(env, db[..m], n);
      assert db[..m][..n] == db[..n];
    }
  }

  /** The first `n` pairs can be read and form an unbroken chain. */
  predicate GoodUpTo(env: AuditEnv, db: Db, n: nat)
    requires n <= |db|
  {
    AllReadable(env, db[..n]) && Unbroken(env, Readable(env, db[..n]))
  }

  /** Pair `n` can be read but does not continue the chain before it. */
  predicate BreaksAt(env: AuditEnv, db: Db, n: nat)
    requires n < |db|
  {
    match env.parseEntry(db[n].value)
    case None => false
    case Some(e) => !LinkHolds(env.sha3, HeadOf(Readable(env, db[..n])), LinkOf(env, e))
  }

  /** What each report of `verify_chain` says about the database; the cases exclude each other. */
  ghost predicate ReportIsRight(env: AuditEnv, db: Db, report: ChainReport) {
    match report
    case Checked(n, None) => n == |db| && GoodUpTo(env, db, n)
    case Checked(n, Some(s)) =>
      n < |db| && GoodUpTo(env, db, n) && BreaksAt(env, db, n) && s == env.parseEntry(db[n].value).value.sequence
    case Unreadable =>
      exists n: nat | n < |db| :: GoodUpTo(env, db, n) && env.parseEntry(db[n].value).None?
  }

  lemma {:induction false} GoodNext(env: AuditEnv, db: Db, n: nat)
    requires n < |db| && GoodUpTo(env, db, n)
    requires env.parseEntry(db[n].value).Some? && !BreaksAt(env, db, n)
    ensures GoodUpTo(env, db, n + 1)
    ensures HeadOf(Readable(env, db[..n + 1])) == env.parseEntry(db[n].value).value.hash
  {
    ReadableNext(env, db, n);
    UnbrokenNext(env, Readable(env, db[..n]), env.parseEntry(db[n].value).value);
  }

  lemma {:induction false} CheckFromIsRight(env: AuditEnv, db: Db, i: nat, prev: Digest)
    requires i <= |db| && GoodUpTo(env, db, i) && prev == HeadOf(Readable(env, db[..i]))
    ensures ReportIsRight(env, db, CheckFrom(env, db, i, prev))
    decreases |db| - i
  {
    if i < |db| && env.parseEntry(db[i].value).Some? && !BreaksAt(env, db, i) {
      GoodNext(env, db, i);
      CheckFromIsRight(env, db, i + 1, env.parseEntry(db[i].value).value.hash);
    }
  }

  lemma GoodHasNoBreak(env: AuditEnv, db: Db, n: nat)
    requires n < |db| && GoodUpTo(env, db, |db|)
    ensures env.parseEntry(db[n].value).Some? && !BreaksAt(env, db, n)
  {
    assert db[..|db|] == db;
    ReadableAt(env, db, n);
    UnbrokenAt(env, Readable(env, db), n);
  }

  /**
   `verify_chain` accepts exactly the databases whose entries can all be read and form an unbroken chain, and
   otherwise names the first entry at fault.
   */
  lemma {:induction false} VerifyChainIsRight(env: AuditEnv, db: Db)
    ensures ReportIsRight(env, db, CheckFrom(env, db, 0, ZERO_DIGEST))
    ensures CheckFrom(env, db, 0, ZERO_DIGEST) == Checked(|db|, None) <==>
            AllReadable(env, db) && Unbroken(env, Readable(env, db))
  {
    assert GoodUpTo(env, db, 0);
    CheckFromIsRight(env, db, 0, ZERO_DIGEST);
    assert db[..|db|] == db;
    if GoodUpTo(env, db, |db|) {
      match CheckFrom(env, db, 0, ZERO_DIGEST)
      case Checked(n, None) =>
      case Checked(n, Some(_)) => GoodHasNoBreak(env, db, n);
      case Unreadable =>
    }
  }

  // ── Binding ───────────────────────────────────────────────────────

  /** Agreement on everything the hash covers; the issuer id is not hashed. */
  predicate SameContent(a: AuditEntry, b: AuditEntry) {
    a.prevHash == b.prevHash && a.timestampNs == b.timestampNs && a.sequence == b.sequence && a.event == b.event
  }

  lemma PreimageParts(env: AuditEnv, e: AuditEntry)
    ensures var p := EntryPreimage(env, e);
            |p| >= 48 && p[..32] == e.prevHash && p[32..40] == U64Bytes(e.timestampNs)
            && p[40..48] == U64Bytes(e.sequence) && p[48..] == env.eventJson(e.event)
  {
  }

  lemma PreimageBinding(env: AuditEnv, a: AuditEntry, b: AuditEntry)
    requires EntryPreimage(env, a) == EntryPreimage(env, b)
    ensures a.prevHash == b.prevHash && a.timestampNs == b.timestampNs && a.sequence == b.sequence
    ensures JsonFaithful(env) ==> a.event == b.event
  {
    PreimageParts(env, a);
    PreimageParts(env, b);
    U64Order(a.timestampNs, b.timestampNs);
    U64Order(a.sequence, b.sequence);
  }

  /** Two entries with different preimages and one digest. */
  predicate EntriesCollide(env: AuditEnv, a: AuditEntry, b: AuditEntry) {
    Collide(env.sha3, EntryPreimage(env, a), EntryPreimage(env, b))
  }

  lemma LinksFixPrev(env: AuditEnv, a: seq<AuditEntry>, b: seq<AuditEntry>)
    ensures PreFixesPrev(Links(env, a), Links(env, b))
  {
    var la, lb := Links(env, a), Links(env, b);
    forall i, j | 0 <= i < |la| && 0 <= j < |lb| ensures la[i].pre == lb[j].pre ==> la[i].prev == lb[j].prev {
      if la[i].pre == lb[j].pre { PreimageBinding(env, a[i], b[j]); }
    }
  }

  lemma SameLink(env: AuditEnv, a: AuditEntry, b: AuditEntry)
    requires JsonFaithful(env) && LinkOf(env, a) == LinkOf(env, b)
    ensures SameContent(a, b) && a.hash == b.hash
  {
    PreimageBinding(env, a, b);
  }

  /** `a` has the content of the last entries of `b`, and what `b` has before them ends on the all-zero digest. */
  predicate IsEnding(a: seq<AuditEntry>, b: seq<AuditEntry>) {
    && |a| <= |b|
    && (forall i | 0 <= i < |a| :: SameContent(a[i], b[FromEnd(a, b, i)]) && a[i].hash == b[FromEnd(a, b, i)].hash)
    && (|a| < |b| ==> b[|b| - |a| - 1].hash == ZERO_DIGEST)
  }

  lemma EndingOfLinks(env: AuditEnv, a: seq<AuditEntry>, b: seq<AuditEntry>)
    requires JsonFaithful(env) && IsEndOf(ZERO_DIGEST, Links(env, a), Links(env, b))
    ensures IsEnding(a, b)
  {
    forall i | 0 <= i < |a|
      ensures SameContent(a[i], b[FromEnd(a, b, i)]) && a[i].hash == b[FromEnd(a, b, i)].hash
    {
      assert Links(env, a)[i] == Links(env, b)[FromEnd(a, b, i)];
      SameLink(env, a[i], b[FromEnd(a, b, i)]);
    }
  }

  /** Two entries equally far from the end collide. */
  predicate CollideAtEnds(env: AuditEnv, a: seq<AuditEntry>, b: seq<AuditEntry>) {
    |a| <= |b| && exists i | 0 <= i < |a| :: EntriesCollide(env, a[i], b[FromEnd(a, b, i)])
  }

  lemma CollisionOfLinks(env: AuditEnv, a: seq<AuditEntry>, b: seq<AuditEntry>)
    requires CollideFromEnd(env.sha3, Links(env, a), Links(env, b))
    ensures CollideAtEnds(env, a, b)
  {
    var la, lb := Links(env, a), Links(env, b);
    var i :| 0 <= i < |la| && LinksCollide(env.sha3, la[i], lb[FromEnd(la, lb, i)]);
    assert EntriesCollide(env, a[i], b[FromEnd(a, b, i)]);
  }

  lemma HeadOfLinks(env: AuditEnv, es: seq<AuditEntry>)
    ensures Head(ZERO_DIGEST, Links(env, es)) == HeadOf(es)
  {
  }

  /**
   Head binding: of two logs that both pass verification and end on one hash, the shorter is the end of the
   longer, entry by entry; or two entries equally far from the end collide. If they have equally many entries
   they agree throughout; if not, the longer contains an entry that hashes to all zeros.
   */
  lemma HeadBinding(env: AuditEnv, a: seq<AuditEntry>, b: seq<AuditEntry>)
    requires JsonFaithful(env) && Unbroken(env, a) && Unbroken(env, b) && |a| <= |b| && HeadOf(a) == HeadOf(b)
    ensures IsEnding(a, b) || CollideAtEnds(env, a, b)
  {
    var la, lb := Links(env, a), Links(env, b);
    LinksFixPrev(env, a, b);
    HeadOfLinks(env, a);
    HeadOfLinks(env, b);
    SameHead(env.sha3, ZERO_DIGEST, la, lb);
    if CollideFromEnd(env.sha3, la, lb) {
      CollisionOfLinks(env, a, b);
    } else {
      EndingOfLinks(env, a, b);
    }
  }

  // ── Tamper evidence ───────────────────────────────────────────────

  /** Sequence numbers count up from zero, as appending makes them. */
  predicate Numbered(es: seq<AuditEntry>) {
    forall i | 0 <= i < |es| :: es[i].sequence == i
  }

  /**
   Tamper evidence: any list of entries of a log (some deleted, moved or repeated) that still passes
   verification is a prefix of that log, unless two of the log's own entries collide or one hashes to zero.
   */
  lemma TamperEvidence(env: AuditEnv, es: seq<AuditEntry>, positions: seq<nat>)
    requires Unbroken(env, es) && Numbered(es)
    requires forall j | 0 <= j < |positions| :: positions[j] < |es|
    requires Unbroken(env, Pick(es, positions))
    ensures || (exists i, j | 0 <= i < |es| && 0 <= j < |es| :: EntriesCollide(env, es[i], es[j]))
            || (exists i | 0 <= i < |es| :: es[i].hash == ZERO_DIGEST)
            || (|positions| <= |es| && Pick(es, positions) == es[..|positions|])
  {
    var ls := Links(env, es);
    if HashFails(env.sha3, ZERO_DIGEST, ls) {
      if i, j :| 0 <= i < |ls| && 0 <= j < |ls| && LinksCollide(env.sha3, ls[i], ls[j]) {
        assert EntriesCollide(env, es[i], es[j]);
      } else {
        var i :| 0 <= i < |ls| && ls[i].hash == ZERO_DIGEST;
        assert es[i].hash == ZERO_DIGEST;
      }
    } else {
      forall i, j | 0 <= i < |ls| && 0 <= j < |ls| && ls[i].pre == ls[j].pre ensures i == j {
        PreimageBinding(env, es[i], es[j]);
      }
      assert Links(env, Pick(es, positions)) == Pick(ls, positions);
      PickedChain(env.sha3, ZERO_DIGEST, ls, positions);
      IdentityIsShort(positions, |es|);
      assert Pick(es, positions) == es[..|positions|];
    }
  }

  lemma IdentityIsShort(positions: seq<nat>, n: nat)
    requires Identity(positions) && forall j | 0 <= j < |positions| :: positions[j] < n
    ensures |positions| <= n
  {
    if positions != [] {
      assert positions[|positions| - 1] == |positions| - 1;
    }
  }

  // ── Anchored windows ──────────────────────────────────────────────

  lemma {:induction false} HashesAt(es: seq<AuditEntry>, i: nat)
    requires i < |es|
    ensures Hashes(es)[i] == es[i].hash
    decreases |es|
  {
    if i < |es| - 1 { HashesAt(es[..|es| - 1], i); }
  }

  lemma SameHash(env: AuditEnv, a: AuditEntry, b: AuditEntry, prev: Digest, prev': Digest)
    requires JsonFaithful(env) && a.hash == b.hash
    requires LinkHolds(env.sha3, prev, LinkOf(env, a)) && LinkHolds(env.sha3, prev', LinkOf(env, b))
    ensures SameContent(a, b) || EntriesCollide(env, a, b)
  {
    if EntryPreimage(env, a) == EntryPreimage(env, b) {
      PreimageBinding(env, a, b);
    }
  }

  /** `n` entries of a log starting at position `from`. */
  function Window(es: seq<AuditEntry>, from: nat, n: nat): (w: seq<AuditEntry>)
    requires from + n <= |es|
    ensures |w| == n
  {
    es[from..from + n]
  }

  /**
   What an anchor fixes: if windows of equal size in two verified logs have one Merkle root, the logs agree on the
   content of every entry in them, or the Merkle computations collide, or two aligned entries do.
   */
  lemma AnchorBindsWindow(env: AuditEnv, a: seq<AuditEntry>, b: seq<AuditEntry>, from: nat, from': nat, n: nat)
    requires JsonFaithful(env) && Unbroken(env, a) && Unbroken(env, b)
    requires n > 0 && from + n <= |a| && from' + n <= |b|
    requires Merkle.Root(env.sha3, Hashes(Window(a, from, n))) == Merkle.Root(env.sha3, Hashes(Window(b, from', n)))
    ensures var w, w' := Window(a, from, n), Window(b, from', n);
            || (forall i | 0 <= i < n :: SameContent(w[i], w'[i]))
            || Merkle.CollideAlong(env.sha3, Merkle.HashInputs(env.sha3, Hashes(w)),
                                   Merkle.HashInputs(env.sha3, Hashes(w')))
            || (exists i | 0 <= i < n :: EntriesCollide(env, w[i], w'[i]))
  {
    var w, w' := Window(a, from, n), Window(b, from', n);
    Merkle.MerkleBinding(env.sha3, Hashes(w), Hashes(w'));
    if Hashes(w) == Hashes(w') {
      forall i | 0 <= i < n ensures SameContent(w[i], w'[i]) || EntriesCollide(env, w[i], w'[i]) {
        HashesAt(w, i);
        HashesAt(w', i);
        UnbrokenAt(env, a, from + i);
        UnbrokenAt(env, b, from' + i);
        SameHash(env, w[i], w'[i], HeadOf(a[..from + i]), HeadOf(b[..from' + i]));
      }
    }
  }
}
