/**
 The daemon as its clients see it: a plain book of what is cached, what is registered and what was logged, kept from the
 words of the commands alone. It shares no command, slot or log code with the model of the program.
 */
module Book {
  import opened Basics
  import opened OrderedMaps
  import opened Fingerprints
  import opened Slots
  import opened Commands
  import A = Audit
  import Merkle

  // ── Text ──────────────────────────────────────────────────────────

  /** Words with one space between them. */
  function Spoken(words: seq<string>): string {
    if |words| == 0 then ""
    else if |words| == 1 then words[0]
    else Spoken(words[..|words| - 1]) + " " + words[|words| - 1]
  }

  /** The position of the first FP, in either case, at `i` or after; the number of words if there is none. */
  function FpFrom(words: seq<string>, i: nat): (at: nat)
    requires i <= |words|
    ensures i <= at <= |words|
    decreases |words| - i
  {
    if i == |words| || words[i] in ["FP", "Fp", "fP", "fp"] then i else FpFrom(words, i + 1)
  }

  type nibble = x: int | 0 <= x < 16

  function Nibble(c: char): Option<nibble> {
    if '0' <= c <= '9' then Some((c as int) - 48)
    else if 'a' <= c <= 'f' then Some((c as int) - 87)
    else if 'A' <= c <= 'F' then Some((c as int) - 55)
    else None
  }

  /** Pairs of hexadecimal digits, the last pair read last. */
  function Unhex(text: string): Option<Bytes> {
    if text == "" then Some([])
    else if |text| == 1 then None
    else
      var n := |text|;
      var front, hi, lo := Unhex(text[..n - 2]), Nibble(text[n - 2]), Nibble(text[n - 1]);
      if front.Some? && hi.Some? && lo.Some? then Some(front.value + [16 * hi.value + lo.value]) else None
  }

  function Hex(b: Bytes): string {
    seq(2 * |b|, i requires 0 <= i < 2 * |b| => "0123456789abcdef"[if i % 2 == 0 then b[i / 2] / 16 else b[i / 2] % 16])
  }

  /** What the argument after FP means. */
  function Printed(text: string): Fingerprint {
    match Unhex(text)
    case None => EMPTY
    case Some(b) => if |b| < 96 then EMPTY else Fingerprint(b[0..32], b[32..64], b[64..96], CliVersion(), None)
  }

  // ── The book ──────────────────────────────────────────────────────

  /** What is known of a registered key. */
  datatype Card = Card(fingerprint: Fingerprint, state: EntryState, address: Digest)

  datatype Record = Record(event: A.Event, timestampNs: u64, issuerId: string)

  /**
   `records` are the log's entries on disk, the first `counted` of them known to the daemon and the first `anchored`
   of those anchored.
   */
  datatype Book = Book(
    cache: map<string, Bytes>, cards: map<string, Card>, records: seq<Record>, counted: nat, anchored: nat, issuerId: string)

  const BLANK := Book(map[], map[], [], 0, 0, "")

  function Zeros(n: nat): (b: Bytes)
    ensures |b| == n && forall i | 0 <= i < n :: b[i] == 0
  {
    seq(n, _ => 0)
  }

  /** The entry a record stands for after others: numbered on from them, hashed with the hash before it. */
  function EntryAfter(env: A.AuditEnv, before: seq<A.AuditEntry>, r: Record): A.AuditEntry {
    var previous: Bytes := if |before| == 0 then Zeros(32) else before[|before| - 1].hash;
    var sequence := |before| % 0x1_0000_0000_0000_0000;
    var hash := env.sha3(previous + U64Bytes(r.timestampNs) + U64Bytes(sequence) + env.eventJson(r.event));
    A.AuditEntry(sequence, previous, hash, r.timestampNs, r.event, r.issuerId)
  }

  function Entries(env: A.AuditEnv, records: seq<Record>): seq<A.AuditEntry> {
    if |records| == 0 then []
    else
      var before := Entries(env, records[..|records| - 1]);
      before + [EntryAfter(env, before, records[|records| - 1])]
  }

  /** A record for an event: lost, on disk only, or on disk and known. */
  function Noted(book: Book, event: A.Event, inputs: Inputs): Book {
    if book.counted + 1 >= 0x1_0000_0000_0000_0000 || inputs.logFault == WriteFails then book
    else
      var records := book.records[..Least(book.counted, |book.records|)] + [Record(event, inputs.loggedAt, book.issuerId)];
      book.(records := records, counted := if inputs.logFault == FlushFails then book.counted else book.counted + 1)
  }

  function Least(m: nat, n: nat): nat { if m <= n then m else n }

  // ── Commands ──────────────────────────────────────────────────────

  /** What the content store lets a verified read say; `Unverified` unless something is found there. */
  datatype Check = Check(verification: Verification, checks: Option<Archive.Cryptographic>)

  function Digested(env: DaemonEnv, fp: Fingerprint): Digest { DigestOf(env.store.sha3, fp) }

  /** The address of a value with a fingerprint: the hash of its hash and the fingerprint's digest. */
  function Addressed(env: DaemonEnv, value: Bytes, fp: Fingerprint): Digest {
    var hash: Bytes := env.store.sha3(value);
    env.store.sha3(hash + Digested(env, fp))
  }

  function Register(env: DaemonEnv, book: Book, key: string, value: Bytes, fp: Fingerprint, inputs: Inputs): (Book, Reply) {
    var address := Addressed(env, value, fp);
    var identified := fp.inputHash != seq(32, _ => 0) && fp.computationHash != seq(32, _ => 0);
    var created := A.EntryCreated(key, Hex(address), Hex(Digested(env, fp)), env.signer.Some? && identified);
    var entered := book.(cache := book.cache[key := value], cards := book.cards[key := Card(fp, Active, address)]);
    (Noted(entered, created, inputs), Done)
  }

  function DoSet(env: DaemonEnv, book: Book, parts: seq<string>, inputs: Inputs): (Book, Reply)
    requires |parts| >= 3
  {
    var i := FpFrom(parts, 0);
    if i == |parts| then
      if env.strictMode then (book, Failed("computation fingerprint required (strict mode)"))
      else Register(env, book, parts[1], env.utf8(Spoken(parts[2..])), EMPTY, inputs)
    else if i < 2 then (book, Crashed)
    else
      var hex := if i + 1 < |parts| then parts[i + 1] else "";
      Register(env, book, parts[1], env.utf8(Spoken(parts[2..i])), Printed(hex), inputs)
  }

  function DoDelete(book: Book, key: string, inputs: Inputs): (Book, Reply) {
    var without := book.(cache := book.cache - {key}, cards := book.cards - {key});
    if key in book.cache then (Noted(without, A.EntryDeleted(key), inputs), Deleted(1)) else (without, Deleted(0))
  }

  /** A card that is active takes the state; another refuses, and says why. */
  function DoMove(book: Book, key: string, to: EntryState, event: A.Event, inputs: Inputs): (Book, Reply)
    requires key in book.cards
  {
    match book.cards[key].state
    case Active => (Noted(book.(cards := book.cards[key := book.cards[key].(state := to)]), event, inputs), Done)
    case Superseded(_) => (book, Failed("terminal state: superseded"))
    case Revoked(_, _, _) => (book, Failed("terminal state: revoked"))
    case _ => (book, Failed("illegal transition"))
  }

  function DoInvalidate(book: Book, key: string, reason: string, inputs: Inputs): (Book, Reply) {
    if key !in book.cards then (book, Failed("key not found"))
    else DoMove(book, key, Revoked(reason, inputs.now, None),
                A.StateTransition(key, "Active", "Revoked", "System", Some(reason)), inputs)
  }

  function DoSupersede(book: Book, oldKey: string, newKey: string, inputs: Inputs): (Book, Reply) {
    if newKey !in book.cards then (book, Failed("new key not found"))
    else if oldKey !in book.cards then (book, Failed("old key not found"))
    else DoMove(book, oldKey, Superseded(book.cards[newKey].address),
                A.StateTransition(oldKey, "Active", "Superseded(" + newKey + ")", "System", None), inputs)
  }

  function DoRead(book: Book, key: string, check: Check, inputs: Inputs): (Book, Reply) {
    if key !in book.cache then (book, Nil)
    else if key !in book.cards then (book, Verified(ReadResponse(book.cache[key], EMPTY, Unverified, Active)))
    else
      var card := book.cards[key];
      var reply := Verified(ReadResponse(book.cache[key], card.fingerprint, check.verification, card.state));
      match check.verification
      case FullyVerified(all) =>
        var c := check.checks.GetOr(Archive.Cryptographic(false, false, false, false, false));
        var performed := A.VerificationPerformed(key, c.mldsaValid, c.falconValid, c.slhdsaValid, c.twoOfThree, all);
        (Noted(book, performed, inputs), reply)
      case VerificationFailed(reason) => (Noted(book, A.VerificationFailed(key, reason), inputs), reply)
      case Unverified => (book, reply)
  }

  predicate Names(event: A.Event, key: string) {
    || (event.StateTransition? && event.key == key) || (event.VerificationPerformed? && event.key == key)
    || (event.VerificationFailed? && event.key == key) || (event.EntryCreated? && event.key == key)
    || (event.EntryDeleted? && event.key == key)
  }

  /** The entries that name the key, in order. */
  function About(entries: seq<A.AuditEntry>, key: string): seq<A.AuditEntry> {
    if |entries| == 0 then []
    else if Names(entries[0].event, key) then [entries[0]] + About(entries[1..], key)
    else About(entries[1..], key)
  }

  function HashesOf(entries: seq<A.AuditEntry>): (hashes: seq<Digest>)
    ensures |hashes| == |entries|
  {
    if |entries| == 0 then [] else [entries[0].hash] + HashesOf(entries[1..])
  }

  /** The hashes of the entries known but not anchored. */
  function ToAnchor(env: DaemonEnv, book: Book): seq<Digest> {
    var entries := Entries(env.audit, book.records);
    var known := entries[..Least(book.counted, |entries|)];
    HashesOf(known[Least(book.anchored, |known|)..])
  }

  /** The event of an anchor: the root, where its window starts and ends, and how many entries that is. */
  function AnchorSays(env: DaemonEnv, book: Book): A.Event
    requires book.anchored < 0x1_0000_0000_0000_0000 && book.counted < 0x1_0000_0000_0000_0000
  {
    var leaves := ToAnchor(env, book);
    A.MerkleAnchor(Hex(Merkle.Root(env.audit.sha3, leaves)), book.anchored,
                   if book.counted == 0 then 0 else book.counted - 1,
                   |leaves| % 0x1_0000_0000_0000_0000)
  }

  function AnchorNoted(env: DaemonEnv, book: Book, inputs: Inputs): Book
    requires book.anchored < 0x1_0000_0000_0000_0000 && book.counted < 0x1_0000_0000_0000_0000
  {
    var noted := Noted(book, AnchorSays(env, book), inputs);
    if inputs.logFault == NoFault then noted.(anchored := noted.counted) else noted
  }

  function DoAnchor(env: DaemonEnv, book: Book, inputs: Inputs): (Book, Reply) {
    if book.counted + 1 >= 0x1_0000_0000_0000_0000 then (book, Failed("audit log full"))
    else if |ToAnchor(env, book)| == 0 || book.anchored >= 0x1_0000_0000_0000_0000 then
      (book, Failed("no entries since last anchor"))
    else
      (AnchorNoted(env, book, inputs),
       match inputs.logFault
       case NoFault => AnchorRoot(Merkle.Root(env.audit.sha3, ToAnchor(env, book)))
       case WriteFails => Failed("audit write")
       case FlushFails => Failed("audit flush"))
  }

  /** A command, by its words: what becomes of the book, and the answer. `stored` is the content store's own count. */
  function Do(env: DaemonEnv, book: Book, parts: seq<string>, inputs: Inputs, check: Check, stored: u64): (Book, Reply) {
    if |parts| == 0 then (book, Failed("empty command"))
    else
      var word, n := env.upper(parts[0]), |parts|;
      if word == "PING" then (book, Pong)
      else if word == "SET" && n >= 3 then DoSet(env, book, parts, inputs)
      else if word == "GET" && n >= 2 then
        if env.safeRead then (book, Failed("GET is disabled in safe mode"))
        else (book, if parts[1] in book.cache then Raw(book.cache[parts[1]]) else Nil)
      else if word == "GETVERIFIED" && n >= 2 then DoRead(book, parts[1], check, inputs)
      else if word == "DEL" && n >= 2 then DoDelete(book, parts[1], inputs)
      else if word == "INVALIDATE" && n >= 4 then DoInvalidate(book, parts[1], Spoken(parts[3..]), inputs)
      else if word == "SUPERSEDE" && n >= 3 then DoSupersede(book, parts[1], parts[2], inputs)
      else if word == "STATE" && n >= 2 then
        (book, if parts[1] in book.cards then StateOf(book.cards[parts[1]].state) else Nil)
      else if word == "INFO" then (book, Info(|book.cards|, stored))
      else if word == "AUDITLOG" && n >= 2 then (book, History(About(Entries(env.audit, book.records), parts[1])))
      else if word == "AUDITVERIFY" then (book, Chain(A.Checked(|book.records|, None)))
      else if word == "AUDITANCHOR" then DoAnchor(env, book, inputs)
      else (book, Failed("unknown command"))
  }

  /** A restart over what is on disk: nothing cached, the start logged, the registry as it was rebuilt. */
  function Restarted(env: DaemonEnv, book: Book, start: A.Event, inputs: Inputs, cards: map<string, Card>): Book {
    Noted(Book(map[], cards, book.records, |book.records|, 0, env.issuerId), start, inputs)
  }
}
