/**
 The assumptions about the JSON codecs can be met: here are codecs that do. They are not JSON; they only show that no
 result about the log, the archive or the daemon holds for want of a codec.
 */
module Witness {
  import opened Basics
  import opened Wire
  import opened Fingerprints
  import opened Archive
  import opened ArchiveProofs
  import opened Audit

  // ── A self-delimiting code for tables of numbers ──────────────────

  function Unary(n: nat): (b: Bytes)
    ensures |b| == n + 1
  {
    if n == 0 then [0] else [1] + Unary(n - 1)
  }

  function RowCode(row: seq<nat>): Bytes {
    if row == [] then [0] else [1] + Unary(row[0]) + RowCode(row[1..])
  }

  function TableCode(table: seq<seq<nat>>): Bytes {
    if table == [] then [0] else [1] + RowCode(table[0]) + TableCode(table[1..])
  }

  lemma {:induction false} UnaryDelimits(m: nat, n: nat, r: Bytes, s: Bytes)
    requires Unary(m) + r == Unary(n) + s
    ensures m == n && r == s
  {
    var a, b := Unary(m) + r, Unary(n) + s;
    assert a[0] == (if m == 0 then 0 else 1) && b[0] == (if n == 0 then 0 else 1);
    if m == 0 {
      assert a[1..] == r && b[1..] == s;
    } else {
      assert a[1..] == Unary(m - 1) + r && b[1..] == Unary(n - 1) + s;
      UnaryDelimits(m - 1, n - 1, r, s);
    }
  }

  lemma AfterMark(b: Bytes, item: Bytes, rest: Bytes, r: Bytes)
    requires b == [1] + item + rest + r
    ensures b[0] == 1 && b[1..] == item + (rest + r)
  {
  }

  lemma {:induction false} RowDelimits(x: seq<nat>, y: seq<nat>, r: Bytes, s: Bytes)
    requires RowCode(x) + r == RowCode(y) + s
    ensures x == y && r == s
  {
    var a, b := RowCode(x) + r, RowCode(y) + s;
    assert a[0] == (if x == [] then 0 else 1) && b[0] == (if y == [] then 0 else 1);
    if x == [] {
      assert a[1..] == r && b[1..] == s;
    } else {
      AfterMark(a, Unary(x[0]), RowCode(x[1..]), r);
      AfterMark(b, Unary(y[0]), RowCode(y[1..]), s);
      UnaryDelimits(x[0], y[0], RowCode(x[1..]) + r, RowCode(y[1..]) + s);
      RowDelimits(x[1..], y[1..], r, s);
      assert x == [x[0]] + x[1..] && y == [y[0]] + y[1..];
    }
  }

  lemma {:induction false} TableDelimits(x: seq<seq<nat>>, y: seq<seq<nat>>, r: Bytes, s: Bytes)
    requires TableCode(x) + r == TableCode(y) + s
    ensures x == y && r == s
  {
    var a, b := TableCode(x) + r, TableCode(y) + s;
    assert a[0] == (if x == [] then 0 else 1) && b[0] == (if y == [] then 0 else 1);
    if x == [] {
      assert a[1..] == r && b[1..] == s;
    } else {
      AfterMark(a, RowCode(x[0]), TableCode(x[1..]), r);
      AfterMark(b, RowCode(y[0]), TableCode(y[1..]), s);
      RowDelimits(x[0], y[0], TableCode(x[1..]) + r, TableCode(y[1..]) + s);
      TableDelimits(x[1..], y[1..], r, s);
      assert x == [x[0]] + x[1..] && y == [y[0]] + y[1..];
    }
  }

  lemma {:induction false} TableBinds(x: seq<seq<nat>>, y: seq<seq<nat>>)
    requires TableCode(x) == TableCode(y)
    ensures x == y
  {
    assert TableCode(x) + [] == TableCode(x) && TableCode(y) + [] == TableCode(y);
    TableDelimits(x, y, [], []);
  }

  lemma {:induction false} RowLength(row: seq<nat>)
    requires forall i | 0 <= i < |row| :: row[i] < 256
    ensures |RowCode(row)| <= 1 + 257 * |row|
  {
    if row != [] { RowLength(row[1..]); }
  }

  // ── Strings and bytes as rows ─────────────────────────────────────

  function Codes<T>(s: seq<T>, code: T -> nat): (row: seq<nat>)
    ensures |row| == |s|
  {
    seq(|s|, i requires 0 <= i < |s| => code(s[i]))
  }

  lemma CodesBind<T>(s: seq<T>, t: seq<T>, code: T -> nat)
    requires Codes(s, code) == Codes(t, code)
    requires forall i, j | 0 <= i < |s| && 0 <= j < |t| && code(s[i]) == code(t[j]) :: s[i] == t[j]
    ensures s == t
  {
    forall i | 0 <= i < |s| ensures s[i] == t[i] {
      assert Codes(s, code)[i] == Codes(t, code)[i];
    }
  }

  function CharCode(c: char): nat { c as nat }

  function ByteCode(b: byte): nat { b }

  function Chars(s: string): seq<nat> { Codes(s, CharCode) }

  function Row(b: Bytes): seq<nat> { Codes(b, ByteCode) }

  function Texts(ss: seq<string>): (table: seq<seq<nat>>)
    ensures |table| == |ss|
  {
    seq(|ss|, i requires 0 <= i < |ss| => Chars(ss[i]))
  }

  lemma TextsBind(a: seq<string>, b: seq<string>)
    requires Texts(a) == Texts(b)
    ensures a == b
  {
    forall i | 0 <= i < |a| ensures a[i] == b[i] {
      assert Texts(a)[i] == Texts(b)[i];
      CodesBind(a[i], b[i], CharCode);
    }
  }

  // ── Signer identities ─────────────────────────────────────────────

  function IdentityTable(id: SignerIdentity): seq<seq<nat>> {
    [Row(id.keyId), [id.keyVersion]] + Texts([id.issuer, id.posture] + id.families)
  }

  lemma IdentityBinds(x: SignerIdentity, y: SignerIdentity)
    requires IdentityTable(x) == IdentityTable(y)
    ensures x == y
  {
    var s, t := IdentityTable(x), IdentityTable(y);
    assert s[0] == t[0] && s[1] == t[1];
    assert s[1] == [x.keyVersion] && t[1] == [y.keyVersion];
    CodesBind(x.keyId, y.keyId, ByteCode);
    var a, b := [x.issuer, x.posture] + x.families, [y.issuer, y.posture] + y.families;
    assert s[2..] == Texts(a) && t[2..] == Texts(b);
    TextsBind(a, b);
    assert a[0] == b[0] && a[1] == b[1] && a[2..] == x.families && b[2..] == y.families;
  }

  ghost function TheIdentity(s: Bytes): Option<SignerIdentity> {
    if exists x :: TableCode(IdentityTable(x)) == s then
      var x :| TableCode(IdentityTable(x)) == s;
      Some(x)
    else None
  }

  lemma IdentityReads(x: SignerIdentity)
    ensures TheIdentity(TableCode(IdentityTable(x))) == Some(x)
  {
    var y := TheIdentity(TableCode(IdentityTable(x))).value;
    TableBinds(IdentityTable(x), IdentityTable(y));
    IdentityBinds(x, y);
  }

  lemma CutIdentityUnread(x: SignerIdentity, k: nat)
    requires k < |TableCode(IdentityTable(x))|
    ensures TheIdentity(TableCode(IdentityTable(x))[..k]) == None
  {
    var s := TableCode(IdentityTable(x));
    if TheIdentity(s[..k]).Some? {
      var y := TheIdentity(s[..k]).value;
      assert TableCode(IdentityTable(y)) + s[k..] == s == s + [];
      TableDelimits(IdentityTable(y), IdentityTable(x), s[k..], []);
    }
  }

  lemma {:induction false} TableLength(table: seq<seq<nat>>)
    requires forall i | 0 <= i < |table| :: Short(table[i])
    ensures |TableCode(table)| <= 1 + 8226 * |table|
  {
    if table != [] {
      RowLength(table[0]);
      TableLength(table[1..]);
    }
  }

  /** A row of at most 32 numbers below 256. */
  predicate Short(row: seq<nat>) {
    |row| <= 32 && forall j | 0 <= j < |row| :: row[j] < 256
  }

  lemma DefaultIsShort()
    ensures |TableCode(IdentityTable(DEFAULT_IDENTITY))| < 0x1_0000_0000
  {
    var key, version, issuer, posture := Row(ZERO_DIGEST), [0], Chars(""), Chars("unknown");
    assert Short(key) by {
      assert forall i | 0 <= i < |key| :: key[i] == ByteCode(ZERO_DIGEST[i]);
    }
    assert Short(posture) by {
      assert forall i | 0 <= i < |posture| :: posture[i] == CharCode("unknown"[i]);
      assert "unknown" == ['u', 'n', 'k', 'n', 'o', 'w', 'n'];
    }
    assert Short(version) && Short(issuer);
    var table := IdentityTable(DEFAULT_IDENTITY);
    assert table == [key, version, issuer, posture];
    TableLength(table);
  }

  /** Some identity codec is faithful. */
  lemma CodecExists()
    ensures exists c :: CodecFaithful(c)
  {
    var c := IdentityCodec((x: SignerIdentity) => TableCode(IdentityTable(x)), (s: Bytes) => TheIdentity(s));
    forall x ensures c.decode(c.encode(x)) == Some(x) { IdentityReads(x); }
    forall x, k: nat | k < |c.encode(x)| ensures c.decode(c.encode(x)[..k]) == None { CutIdentityUnread(x, k); }
    DefaultIsShort();
    assert CodecFaithful(c);
  }

  // ── An identity that is lost ──────────────────────────────────────

  /** An identity whose issuer has 2^32 characters. */
  ghost function Big(): SignerIdentity {
    DEFAULT_IDENTITY.(issuer := seq(0x1_0000_0000, _ => 'a'))
  }

  /** A text that no identity is written as. */
  const ODD: Bytes := [7]

  ghost function OddDecode(s: Bytes): Option<SignerIdentity> {
    if s == ODD then Some(Big()) else TheIdentity(s)
  }

  lemma {:induction false} RowIsLong(row: seq<nat>)
    ensures |RowCode(row)| > |row|
  {
    if row != [] { RowIsLong(row[1..]); }
  }

  lemma {:induction false} TableIsLong(table: seq<seq<nat>>, i: nat)
    requires i < |table|
    ensures |TableCode(table)| > |RowCode(table[i])|
  {
    if i > 0 { TableIsLong(table[1..], i - 1); }
  }

  lemma BigIsLong()
    ensures |TableCode(IdentityTable(Big()))| > 0x1_0000_0000
  {
    var table := IdentityTable(Big());
    assert table[2] == Chars(Big().issuer);
    RowIsLong(table[2]);
    TableIsLong(table, 2);
  }

  lemma OddIsNoPrefix(x: SignerIdentity, k: nat)
    requires k <= |TableCode(IdentityTable(x))|
    ensures TableCode(IdentityTable(x))[..k] != ODD
  {
    var s := TableCode(IdentityTable(x));
    assert s[0] == 0 || s[0] == 1;
    if k > 0 { assert s[..k][0] == s[0]; }
  }

  /** A codec that reads one short text as that identity, and is faithful. */
  lemma OddCodec() returns (c: IdentityCodec)
    ensures CodecFaithful(c) && c.decode(ODD) == Some(Big()) && !IdentityFits(c, Big())
  {
    c := IdentityCodec((x: SignerIdentity) => TableCode(IdentityTable(x)), (s: Bytes) => OddDecode(s));
    forall x ensures c.decode(c.encode(x)) == Some(x) {
      var s := TableCode(IdentityTable(x));
      OddIsNoPrefix(x, |s|);
      assert s[..|s|] == s;
      IdentityReads(x);
    }
    forall x, k: nat | k < |c.encode(x)| ensures c.decode(c.encode(x)[..k]) == None {
      OddIsNoPrefix(x, k);
      CutIdentityUnread(x, k);
    }
    DefaultIsShort();
    BigIsLong();
    assert CodecFaithful(c);
  }

  /** A bundle with nothing in it but its signer. */
  function BundleOf(id: SignerIdentity): Bundle {
    var none := PerFamily([], [], []);
    var primitive := Primitive(1, [0, 0, 0, 0, 0, 0, 0, 0], ZERO_DIGEST, [0, 0], [0, 0], [0, 0],
                               [0, 0, 0, 0, 0, 0, 0, 0, 0, 0, 0]);
    Bundle(Header(CAB_MAGIC, 1, primitive, ZERO_DIGEST, Custom(0), 0), none, none, Evidence([], None, Partial), EMPTY, id)
  }

  /** The exception to the normal form happens: accepted bytes whose bundle changes when it is written and read again. */
  lemma NormalFormCanFail()
    ensures exists c: IdentityCodec, bytes: Bytes ::
              && CodecFaithful(c) && Deserialized(c, bytes).Ok?
              && Deserialized(c, Serialized(c, Deserialized(c, bytes).value)) != Deserialized(c, bytes)
  {
    var c := OddCodec();
    var b := BundleOf(Big());
    OversizedIdentityIsLost(c, b, ODD);
    var bytes := CoreBytes(b) + Block32(ODD);
    assert Deserialized(c, bytes) == Ok(b);
  }

  // ── Audit entries ─────────────────────────────────────────────────

  function Flag(b: bool): nat { if b then 1 else 0 }

  /** An event as a kind, some numbers and some texts. */
  function EventParts(e: Event): (seq<nat>, seq<string>) {
    match e
    case StateTransition(k, f, t, a, None) => ([0], [k, f, t, a])
    case StateTransition(k, f, t, a, Some(r)) => ([1], [k, f, t, a, r])
    case VerificationPerformed(k, m, f, s, two, all) => ([2, Flag(m), Flag(f), Flag(s), Flag(two), Flag(all)], [k])
    case VerificationFailed(k, e) => ([3], [k, e])
    case EntryCreated(k, c, f, s) => ([4, Flag(s)], [k, c, f])
    case EntryDeleted(k) => ([5], [k])
    case KeyRotation(a, b, c, d) => ([6, a, b, c, d], [])
    case DaemonStart(v, a, m) => ([7, Flag(a)], [v, m])
    case ReplayRejected(c, n) => ([8], [c, n])
    case MerkleAnchor(r, f, t, c) => ([9, f, t, c], [r])
  }

  lemma PartsBind(x: Event, y: Event)
    requires EventParts(x) == EventParts(y)
    ensures x == y
  {
    var (n, s) := EventParts(x);
    var (m, t) := EventParts(y);
    assert n[0] == m[0];
    assert forall i | 0 <= i < |n| :: n[i] == m[i];
    assert forall i | 0 <= i < |s| :: s[i] == t[i];
  }

  function EventTable(e: Event): seq<seq<nat>> {
    [EventParts(e).0] + Texts(EventParts(e).1)
  }

  lemma EventBinds(x: Event, y: Event)
    requires EventTable(x) == EventTable(y)
    ensures x == y
  {
    assert EventTable(x)[0] == EventTable(y)[0];
    assert EventTable(x)[1..] == Texts(EventParts(x).1) && EventTable(y)[1..] == Texts(EventParts(y).1);
    TextsBind(EventParts(x).1, EventParts(y).1);
    PartsBind(x, y);
  }

  function EntryTable(e: AuditEntry): seq<seq<nat>> {
    [[e.sequence, e.timestampNs], Row(e.prevHash), Row(e.hash), Chars(e.issuerId)] + EventTable(e.event)
  }

  lemma EntryBinds(x: AuditEntry, y: AuditEntry)
    requires EntryTable(x) == EntryTable(y)
    ensures x == y
  {
    var s, t := EntryTable(x), EntryTable(y);
    assert s[0] == t[0] && s[1] == t[1] && s[2] == t[2] && s[3] == t[3];
    assert s[0] == [x.sequence, x.timestampNs] && t[0] == [y.sequence, y.timestampNs];
    assert s[0][0] == t[0][0] && s[0][1] == t[0][1];
    CodesBind(x.prevHash, y.prevHash, ByteCode);
    CodesBind(x.hash, y.hash, ByteCode);
    CodesBind(x.issuerId, y.issuerId, CharCode);
    assert s[4..] == EventTable(x.event) && t[4..] == EventTable(y.event);
    EventBinds(x.event, y.event);
  }

  ghost function TheEntry(s: Bytes): Option<AuditEntry> {
    if exists e :: TableCode(EntryTable(e)) == s then
      var e :| TableCode(EntryTable(e)) == s;
      Some(e)
    else None
  }

  /** Whatever the hash, some codecs for events and entries are faithful. */
  lemma AuditCodecsExist(sha3: HashFn)
    ensures exists env: AuditEnv :: env.sha3 == sha3 && JsonFaithful(env)
  {
    var env := AuditEnv(sha3, (e: Event) => TableCode(EventTable(e)), (e: AuditEntry) => TableCode(EntryTable(e)),
                        (s: Bytes) => TheEntry(s));
    forall e ensures env.parseEntry(env.entryJson(e)) == Some(e) {
      var f := TheEntry(env.entryJson(e)).value;
      TableBinds(EntryTable(e), EntryTable(f));
      EntryBinds(e, f);
    }
    forall a, b | env.eventJson(a) == env.eventJson(b) ensures a == b {
      TableBinds(EventTable(a), EventTable(b));
      EventBinds(a, b);
    }
    assert JsonFaithful(env);
  }
}
