/** The daemon keeps the book: every run of it does and answers what the book says. */
module BookProofs {
  import opened Basics
  import opened OrderedMaps
  import opened Fingerprints
  import opened Slots
  import opened ContentStore
  import opened Commands
  import opened Agreement
  import opened AuditRuns
  import opened AuditChain
  import opened Replay
  import opened Book
  import opened Runs
  import A = Audit
  import Merkle

  // ── The same words ────────────────────────────────────────────────

  lemma {:induction false} SpokenFirst(words: seq<string>)
    requires |words| >= 2
    ensures Spoken(words) == words[0] + " " + Spoken(words[1..])
    decreases |words|
  {
    var n := |words| - 1;
    if n == 1 {
      assert words[..1] == [words[0]] && words[1..] == [words[1]];
    } else {
      SpokenFirst(words[..n]);
      assert words[..n][1..] == words[1..][..n - 1];
    }
  }

  lemma {:induction false} SpokenIs(words: seq<string>)
    ensures JoinWords(words) == Spoken(words)
    decreases |words|
  {
    if |words| >= 2 {
      SpokenFirst(words);
      SpokenIs(words[1..]);
    }
  }

  lemma {:induction false} FpFromTail(words: seq<string>, i: nat)
    requires i <= |words|
    ensures FpFrom(words, i) == i + FpIndex(words[i..])
    decreases |words| - i
  {
    if i < |words| {
      assert IsFpWord(words[i]) <==> words[i] in ["FP", "Fp", "fP", "fp"] by { FpWords(words[i]); }
      FpFromTail(words, i + 1);
      assert words[i..][1..] == words[i + 1..];
    }
  }

  lemma FpWords(word: string)
    ensures IsFpWord(word) <==> word in ["FP", "Fp", "fP", "fp"]
  {
    if |word| == 2 {
      assert word == [word[0], word[1]];
      assert word == "FP" <==> word[0] == 'F' && word[1] == 'P';
      assert word == "Fp" <==> word[0] == 'F' && word[1] == 'p';
      assert word == "fP" <==> word[0] == 'f' && word[1] == 'P';
      assert word == "fp" <==> word[0] == 'f' && word[1] == 'p';
    }
  }

  lemma NibbleIs(c: char)
    ensures Nibble(c).Some? <==> HexDigit(c).Some?
    ensures Nibble(c).Some? ==> Nibble(c).value == HexDigit(c).value < 16
  {
  }

  /** A byte of two digits before, or after, the rest. */
  function Before(hi: Option<byte>, lo: Option<byte>, rest: Option<Bytes>): Option<Bytes> {
    if hi.Some? && lo.Some? && rest.Some? && hi.value < 16 && lo.value < 16
    then Some([hi.value * 16 + lo.value] + rest.value)
    else None
  }

  function After(front: Option<Bytes>, hi: Option<byte>, lo: Option<byte>): Option<Bytes> {
    if hi.Some? && lo.Some? && front.Some? && hi.value < 16 && lo.value < 16
    then Some(front.value + [hi.value * 16 + lo.value])
    else None
  }

  lemma BeforeAfter(a: Option<byte>, b: Option<byte>, middle: Option<Bytes>, c: Option<byte>, d: Option<byte>)
    ensures Before(a, b, After(middle, c, d)) == After(Before(a, b, middle), c, d)
  {
    if After(Before(a, b, middle), c, d).Some? {
      var x: Bytes, y: Bytes := [a.value * 16 + b.value], [c.value * 16 + d.value];
      assert x + (middle.value + y) == (x + middle.value) + y;
    }
  }

  lemma AroundNothing(hi: Option<byte>, lo: Option<byte>)
    ensures Before(hi, lo, Some([])) == After(Some([]), hi, lo)
  {
    if Before(hi, lo, Some([])).Some? {
      var x: Bytes := [hi.value * 16 + lo.value];
      assert x + [] == [] + x;
    }
  }

  lemma {:induction false} DecodeFirst(s: string)
    requires |s| >= 2
    ensures HexDecode(s) == Before(HexDigit(s[0]), HexDigit(s[1]), HexDecode(s[2..]))
  {
  }

  lemma {:induction false} DecodeLast(s: string)
    requires |s| >= 2
    ensures HexDecode(s) == After(HexDecode(s[..|s| - 2]), HexDigit(s[|s| - 2]), HexDigit(s[|s| - 1]))
    decreases |s|
  {
    var n := |s|;
    DecodeFirst(s);
    if n == 2 {
      assert s[2..] == "" && s[..0] == "";
      AroundNothing(HexDigit(s[0]), HexDigit(s[1]));
    } else if n == 3 {
      assert HexDecode(s[2..]).None? && HexDecode(s[..1]).None?;
    } else {
      var front := s[..n - 2];
      DecodeLast(s[2..]);
      DecodeFirst(front);
      assert front[2..] == s[2..][..n - 4];
      BeforeAfter(HexDigit(s[0]), HexDigit(s[1]), HexDecode(front[2..]), HexDigit(s[n - 2]), HexDigit(s[n - 1]));
    }
  }

  lemma {:induction false} UnhexLast(s: string)
    requires |s| >= 2
    ensures Unhex(s) == After(Unhex(s[..|s| - 2]), HexDigit(s[|s| - 2]), HexDigit(s[|s| - 1]))
  {
    NibbleIs(s[|s| - 2]);
    NibbleIs(s[|s| - 1]);
  }

  lemma {:induction false} UnhexIs(s: string)
    ensures HexDecode(s) == Unhex(s)
    decreases |s|
  {
    if |s| >= 2 {
      DecodeLast(s);
      UnhexIs(s[..|s| - 2]);
      UnhexLast(s);
    }
  }

  lemma {:induction false} HexAt(b: Bytes, i: nat)
    requires i < 2 * |b|
    ensures HexEncode(b)[i] == Hex(b)[i]
    decreases |b|
  {
    assert HEX_DIGITS == "0123456789abcdef";
    if i >= 2 {
      HexAt(b[1..], i - 2);
      assert b[1..][(i - 2) / 2] == b[i / 2];
    }
  }

  lemma {:induction false} HexIs(b: Bytes)
    ensures HexEncode(b) == Hex(b)
  {
    forall i: nat | i < 2 * |b| ensures HexEncode(b)[i] == Hex(b)[i] {
      HexAt(b, i);
    }
  }

  /** The name and version a SET's fingerprint carries, letter by letter, with no circuit. */
  lemma VersionText()
    ensures var name, version := "cachee-cli", "0.3.0";
            var v := CliVersion();
            && |v.engine| == |name| && (forall i | 0 <= i < |name| :: v.engine[i] as int == name[i] as int)
            && |v.version| == |version| && (forall i | 0 <= i < |version| :: v.version[i] as int == version[i] as int)
            && v.circuitId == None
            && EMPTY.version.engine == [] && EMPTY.version.version == [] && EMPTY.version.circuitId == None
            && EMPTY.inputHash == seq(32, _ => 0) && EMPTY.computationHash == seq(32, _ => 0)
            && EMPTY.parameterHash == seq(32, _ => 0) && EMPTY.hardware == None
  {
    assert "cachee-cli" == ['c', 'a', 'c', 'h', 'e', 'e', '-', 'c', 'l', 'i'];
    assert "0.3.0" == ['0', '.', '3', '.', '0'];
  }

  lemma PrintedIs(text: string)
    ensures FromHex(text) == Printed(text)
  {
    UnhexIs(text);
    match Unhex(text)
    case Some(b) => if |b| >= 96 { assert b[..32] == b[0..32]; }
    case None =>
  }

  // ── The log ───────────────────────────────────────────────────────

  lemma {:induction false} EntriesLength(env: A.AuditEnv, records: seq<Record>)
    ensures |Entries(env, records)| == |records|
  {
    if |records| != 0 { EntriesLength(env, records[..|records| - 1]); }
  }

  lemma {:induction false} EntriesPrefix(env: A.AuditEnv, records: seq<Record>, c: nat)
    requires c <= |records|
    ensures |Entries(env, records)| == |records| && Entries(env, records[..c]) == Entries(env, records)[..c]
    decreases |records|
  {
    var n := |records| - 1;
    EntriesLength(env, records);
    if c <= n {
      EntriesLength(env, records[..n]);
      EntriesPrefix(env, records[..n], c);
      assert records[..n][..c] == records[..c];
    } else {
      assert records[..c] == records;
    }
  }

  /** The log is sound over the book's entries and has the same counters. */
  predicate LogKept(env: A.AuditEnv, log: A.LogState, book: Book) {
    && Sound(env, log, Entries(env, book.records)) && |Entries(env, book.records)| == |book.records|
    && log.nextSequence == book.counted && log.lastAnchorSequence == book.anchored && log.issuerId == book.issuerId
  }

  lemma {:induction false} EntriesSnoc(env: A.AuditEnv, records: seq<Record>, r: Record)
    ensures Entries(env, records + [r]) == Entries(env, records) + [EntryAfter(env, Entries(env, records), r)]
  {
    assert (records + [r])[..|records|] == records;
  }

  /** The book's next entry is the log's. */
  lemma EntryIs(env: A.AuditEnv, log: A.LogState, before: seq<A.AuditEntry>, event: A.Event, timestampNs: u64)
    requires |before| == log.nextSequence && HeadOf(before) == log.headHash
    ensures EntryAfter(env, before, Record(event, timestampNs, log.issuerId)) == A.NewEntry(env, log, event, timestampNs)
  {
    assert ZERO_DIGEST == Zeros(32);
  }

  lemma {:induction false} EntriesNext(env: A.AuditEnv, log: A.LogState, book: Book, event: A.Event, timestampNs: u64)
    requires LogKept(env, log, book)
    ensures book.counted <= |book.records|
    ensures Entries(env, book.records[..book.counted] + [Record(event, timestampNs, book.issuerId)])
         == Entries(env, book.records)[..book.counted] + [A.NewEntry(env, log, event, timestampNs)]
  {
    var r := Record(event, timestampNs, book.issuerId);
    EntriesPrefix(env, book.records, book.counted);
    EntriesSnoc(env, book.records[..book.counted], r);
    EntryIs(env, log, Entries(env, book.records)[..book.counted], event, timestampNs);
  }

  /** What is on disk after an append is what the book then has. */
  lemma NotedEntries(env: DaemonEnv, log: A.LogState, book: Book, event: A.Event, inputs: Inputs)
    requires LogKept(env.audit, log, book) && A.HasRoom(log)
    ensures Entries(env.audit, Noted(book, event, inputs).records)
         == AuditRuns.Stored(env.audit, log, Entries(env.audit, book.records), event, inputs.loggedAt, inputs.logFault)
  {
    EntriesNext(env.audit, log, book, event, inputs.loggedAt);
  }

  lemma {:induction false} LogKeptIs(env: A.AuditEnv, log: A.LogState, book: Book, es: seq<A.AuditEntry>)
    requires Sound(env, log, es) && es == Entries(env, book.records)
    requires log.nextSequence == book.counted && log.lastAnchorSequence == book.anchored && log.issuerId == book.issuerId
    ensures LogKept(env, log, book)
  {
    EntriesLength(env, book.records);
  }

  lemma NotedCounts(env: DaemonEnv, log: A.LogState, book: Book, event: A.Event, inputs: Inputs)
    requires log.nextSequence == book.counted && log.lastAnchorSequence == book.anchored && log.issuerId == book.issuerId
    ensures var after, log' := Noted(book, event, inputs), Logged(env, log, event, inputs);
            && log'.nextSequence == after.counted && log'.lastAnchorSequence == after.anchored
            && log'.issuerId == after.issuerId
  {
  }

  lemma NotedKeeps(env: DaemonEnv, log: A.LogState, book: Book, event: A.Event, inputs: Inputs)
    requires LogKept(env.audit, log, book)
    ensures LogKept(env.audit, Logged(env, log, event, inputs), Noted(book, event, inputs))
  {
    if A.HasRoom(log) {
      var es := Entries(env.audit, book.records);
      AppendedSound(env.audit, log, es, event, inputs.loggedAt, inputs.logFault);
      NotedEntries(env, log, book, event, inputs);
      NotedCounts(env, log, book, event, inputs);
      LogKeptIs(env.audit, Logged(env, log, event, inputs), Noted(book, event, inputs),
                Entries(env.audit, Noted(book, event, inputs).records));
    }
  }

  lemma {:induction false} HashesAre(entries: seq<A.AuditEntry>)
    ensures HashesOf(entries) == A.Hashes(entries)
    decreases |entries|
  {
    if |entries| > 0 {
      var n := |entries| - 1;
      HashesAre(entries[..n]);
      HashesLast(entries);
    }
  }

  lemma {:induction false} HashesLast(entries: seq<A.AuditEntry>)
    requires |entries| > 0
    ensures HashesOf(entries) == HashesOf(entries[..|entries| - 1]) + [entries[|entries| - 1].hash]
    decreases |entries|
  {
    var n := |entries| - 1;
    if n > 0 {
      HashesLast(entries[1..]);
      assert entries[1..][..n - 1] == entries[..n][1..];
    } else {
      assert entries[..0] == [] && entries[1..] == [];
    }
  }

  lemma {:induction false} HashesFrom(entries: seq<A.AuditEntry>, c: nat)
    requires c <= |entries|
    ensures A.Hashes(entries[c..]) == A.Hashes(entries)[c..]
    decreases |entries|
  {
    var n := |entries| - 1;
    if c <= n {
      HashesFrom(entries[..n], c);
      assert entries[c..][..n - c] == entries[..n][c..];
    } else {
      assert entries[c..] == [];
    }
  }

  lemma ToAnchorIs(env: DaemonEnv, log: A.LogState, book: Book)
    requires LogKept(env.audit, log, book)
    ensures ToAnchor(env, book) == A.Unanchored(log)
  {
    var known := Entries(env.audit, book.records)[..book.counted];
    HashesAre(known[book.anchored..]);
    HashesFrom(known, book.anchored);
  }

  lemma AnchoredKept(env: A.AuditEnv, log: A.LogState, book: Book, root: Option<Digest>)
    requires LogKept(env, log, book)
    ensures LogKept(env, log.(lastMerkleRoot := root, lastAnchorSequence := log.nextSequence),
                    book.(anchored := book.counted))
  {
  }

  lemma AnchorEventIs(env: DaemonEnv, log: A.LogState, book: Book)
    requires LogKept(env.audit, log, book)
    ensures A.AnchorEvent(env.audit, log) == AnchorSays(env, book)
  {
    ToAnchorIs(env, log, book);
    HexIs(Merkle.Root(env.audit.sha3, ToAnchor(env, book)));
  }

  lemma AnchorNotedKeeps(env: DaemonEnv, log: A.LogState, book: Book, inputs: Inputs)
    requires LogKept(env.audit, log, book) && A.HasRoom(log) && A.Unanchored(log) != []
    ensures LogKept(env.audit, A.Anchored(env.audit, log, inputs.loggedAt, inputs.logFault), AnchorNoted(env, book, inputs))
  {
    var event := A.AnchorEvent(env.audit, log);
    AnchorEventIs(env, log, book);
    NotedKeeps(env, log, book, event, inputs);
    AnchoredKept(env.audit, Logged(env, log, event, inputs), Noted(book, event, inputs),
                 Some(Merkle.Root(env.audit.sha3, A.Unanchored(log))));
  }

  lemma AnchorKeeps(env: DaemonEnv, w: World, book: Book, inputs: Inputs)
    requires LogKept(env.audit, w.log, book)
    ensures LogKept(env.audit, AnchorTaken(env, w, inputs).log, DoAnchor(env, book, inputs).0)
  {
    ToAnchorIs(env, w.log, book);
    if A.HasRoom(w.log) && A.Unanchored(w.log) != [] { AnchorNotedKeeps(env, w.log, book, inputs); }
  }

  lemma AnchorAnswers(env: DaemonEnv, w: World, book: Book, inputs: Inputs)
    requires LogKept(env.audit, w.log, book)
    ensures DoAnchor(env, book, inputs).1 == AnchorReply(env, w, inputs)
  {
    ToAnchorIs(env, w.log, book);
  }

  // ── Registry and engine ───────────────────────────────────────────

  function CardOf(slot: Slot): Card { Card(slot.fingerprint, slot.state, slot.contentAddress) }

  function CardsOf(slots: map<string, Slot>): map<string, Card> {
    map k | k in slots :: CardOf(slots[k])
  }

  /** The world is as the book has it. */
  predicate Kept(env: DaemonEnv, w: World, book: Book) {
    w.engine == book.cache && CardsOf(w.slots) == book.cards && LogKept(env.audit, w.log, book)
  }

  lemma AddressedIs(env: DaemonEnv, value: Bytes, fp: Fingerprint)
    ensures SlotAddress(env.store.sha3, value, fp) == Addressed(env, value, fp)
  {
  }

  lemma StoreKeeps(env: DaemonEnv, w: World, book: Book, key: string, value: Bytes, fp: Fingerprint, inputs: Inputs)
    requires Kept(env, w, book)
    ensures Kept(env, Commands.Stored(env, w, key, value, fp, inputs), Register(env, book, key, value, fp, inputs).0)
  {
    var slot := NewSlot(env.store.sha3, value, fp, inputs.now);
    var w' := Commands.Stored(env, w, key, value, fp, inputs);
    HexIs(slot.contentAddress);
    HexIs(DigestOf(env.store.sha3, fp));
    assert ZERO_DIGEST == Zeros(32);
    CardsAfter(w.slots, key, slot);
    NotedKeeps(env, w.log, book, CreatedEvent(env, key, slot), inputs);
    SameLog(book, book.(cache := w'.engine, cards := CardsOf(w'.slots)), CreatedEvent(env, key, slot), inputs);
  }

  lemma CardsAfter(slots: map<string, Slot>, key: string, slot: Slot)
    ensures CardsOf(slots[key := slot]) == CardsOf(slots)[key := CardOf(slot)]
  {
  }

  /** What is noted does not depend on what is cached or registered. */
  lemma SameLog(book: Book, other: Book, event: A.Event, inputs: Inputs)
    requires other == book.(cache := other.cache, cards := other.cards)
    ensures Noted(other, event, inputs) == Noted(book, event, inputs).(cache := other.cache, cards := other.cards)
  {
  }

  lemma RemoveKeeps(env: DaemonEnv, w: World, book: Book, key: string, inputs: Inputs)
    requires Kept(env, w, book)
    ensures Kept(env, Removed(env, w, key, inputs), DoDelete(book, key, inputs).0)
  {
    var without := book.(cache := book.cache - {key}, cards := book.cards - {key});
    assert CardsOf(w.slots - {key}) == CardsOf(w.slots) - {key};
    NotedKeeps(env, w.log, book, A.EntryDeleted(key), inputs);
    SameLog(book, without, A.EntryDeleted(key), inputs);
  }

  lemma MovedKeepsBook(env: DaemonEnv, w: World, book: Book, key: string, to: EntryState, event: A.Event, inputs: Inputs)
    requires Kept(env, w, book) && key in w.slots
    ensures Kept(env, Moved(env, w, key, to, event, inputs),
                 Noted(book.(cards := book.cards[key := book.cards[key].(state := to)]), event, inputs))
  {
    CardsAfter(w.slots, key, w.slots[key].(state := to));
    NotedKeeps(env, w.log, book, event, inputs);
    SameLog(book, book.(cards := book.cards[key := book.cards[key].(state := to)]), event, inputs);
  }

  lemma MoveDoes(env: DaemonEnv, w: World, book: Book, key: string, to: EntryState, event: A.Event, inputs: Inputs)
    requires CardsOf(w.slots) == book.cards && key in w.slots && (to.Revoked? || to.Superseded?)
    ensures var active := w.slots[key].state.Active?;
            var moved := book.(cards := book.cards[key := book.cards[key].(state := to)]);
            && Apply(env, w, MoveEffect(w, key, to, event), inputs)
            == (if active then Moved(env, w, key, to, event, inputs) else w)
            && DoMove(book, key, to, event, inputs).0 == if active then Noted(moved, event, inputs) else book
  {
    assert book.cards[key] == CardOf(w.slots[key]);
  }

  lemma MoveKeepsBook(env: DaemonEnv, w: World, book: Book, key: string, to: EntryState, event: A.Event, inputs: Inputs)
    requires Kept(env, w, book) && key in w.slots && (to.Revoked? || to.Superseded?)
    ensures Kept(env, Apply(env, w, MoveEffect(w, key, to, event), inputs), DoMove(book, key, to, event, inputs).0)
  {
    MoveDoes(env, w, book, key, to, event, inputs);
    if w.slots[key].state.Active? { MovedKeepsBook(env, w, book, key, to, event, inputs); }
  }

  lemma MoveAnswers(env: DaemonEnv, w: World, book: Book, key: string, to: EntryState, event: A.Event, inputs: Inputs)
    requires CardsOf(w.slots) == book.cards && key in w.slots && (to.Revoked? || to.Superseded?)
    ensures MoveReply(w.slots[key], MoveEffect(w, key, to, event)) == DoMove(book, key, to, event, inputs).1
  {
    assert book.cards[key] == CardOf(w.slots[key]);
  }

  // ── Reads ─────────────────────────────────────────────────────────

  /** What the content store says of a registered key. */
  function CheckOf(env: DaemonEnv, w: World, key: string): Check {
    if key in w.slots then
      var (verification, checks) := VerifySlot(env, w, w.slots[key]);
      Check(verification, checks)
    else Check(Unverified, None)
  }

  lemma ReadNotes(book: Book, key: string, check: Check, inputs: Inputs)
    requires key in book.cache && key in book.cards
    ensures DoRead(book, key, check, inputs).0 == match VerifiedEvent(key, check.verification, check.checks)
                                                  case Some(event) => Noted(book, event, inputs)
                                                  case None => book
  {
  }

  lemma ReadKeeps(env: DaemonEnv, w: World, book: Book, key: string, inputs: Inputs)
    requires Kept(env, w, book)
    ensures Kept(env, Apply(env, w, VerifiedEffect(env, w, key), inputs), DoRead(book, key, CheckOf(env, w, key), inputs).0)
  {
    if key in w.engine && key in w.slots {
      var check := CheckOf(env, w, key);
      ReadNotes(book, key, check, inputs);
      NoteKeeps(env, w, book, VerifiedEvent(key, check.verification, check.checks), inputs);
    }
  }

  lemma NoteKeeps(env: DaemonEnv, w: World, book: Book, event: Option<A.Event>, inputs: Inputs)
    requires Kept(env, w, book)
    ensures Kept(env, Apply(env, w, NoteOf(event), inputs),
                 match event case Some(e) => Noted(book, e, inputs) case None => book)
  {
    match event
    case None => assert Apply(env, w, NoteOf(event), inputs) == w;
    case Some(e) =>
      var w' := w.(log := Logged(env, w.log, e, inputs));
      assert Apply(env, w, NoteOf(event), inputs) == w';
      NotedKeeps(env, w.log, book, e, inputs);
      NotedAlone(book, e, inputs);
      KeptInParts(env, w, book, w', Noted(book, e, inputs));
  }

  /** Noting touches neither what is cached nor what is registered. */
  lemma NotedAlone(book: Book, event: A.Event, inputs: Inputs)
    ensures Noted(book, event, inputs).cache == book.cache && Noted(book, event, inputs).cards == book.cards
  {
  }

  lemma ReadAnswers(env: DaemonEnv, w: World, book: Book, key: string, inputs: Inputs)
    requires Kept(env, w, book)
    ensures VerifiedReply(env, w, key) == DoRead(book, key, CheckOf(env, w, key), inputs).1
  {
    if key in w.slots { assert book.cards[key] == CardOf(w.slots[key]); }
  }

  lemma {:induction false} AboutLast(es: seq<A.AuditEntry>, key: string)
    requires |es| > 0
    ensures var n := |es| - 1;
            About(es, key) == About(es[..n], key) + if Names(es[n].event, key) then [es[n]] else []
    decreases |es|
  {
    var n := |es| - 1;
    if n > 0 {
      AboutLast(es[1..], key);
      assert es[1..][..n - 1] == es[..n][1..];
    } else {
      assert es[..0] == [] && es[1..] == [];
    }
  }

  lemma {:induction false} AboutIs(es: seq<A.AuditEntry>, key: string)
    ensures A.HistoryOf(es, key) == About(es, key)
    decreases |es|
  {
    if |es| > 0 {
      AboutIs(es[..|es| - 1], key);
      AboutLast(es, key);
    }
  }

  /** The log's own checks and readings are those of the book's entries. */
  lemma {:induction false} LogReads(env: DaemonEnv, log: A.LogState, book: Book)
    requires A.JsonFaithful(env.audit) && LogKept(env.audit, log, book)
    ensures A.Readable(env.audit, log.db) == Entries(env.audit, book.records)
    ensures A.CheckFrom(env.audit, log.db, 0, ZERO_DIGEST) == A.Checked(|book.records|, None)
  {
    RecordedReads(env.audit, log.db, Entries(env.audit, book.records));
    SoundLogVerifies(env.audit, log);
  }

  // ── One command ───────────────────────────────────────────────────

  /** The key a read is about. */
  function KeyIn(parts: seq<string>): string { if |parts| >= 2 then parts[1] else "" }

  function BookOf(env: DaemonEnv, w: World, book: Book, parts: seq<string>, inputs: Inputs): (Book, Reply) {
    Do(env, book, parts, inputs, CheckOf(env, w, KeyIn(parts)), w.store.count)
  }

  /** The words of a SET mean the same to both. */
  lemma {:induction false} SetWords(env: DaemonEnv, parts: seq<string>)
    requires |parts| >= 3
    ensures FpIndex(parts) == FpFrom(parts, 0)
    ensures var i := FpFrom(parts, 0);
            SetArguments(env, parts) == if i == |parts| then Some((env.utf8(Spoken(parts[2..])), EMPTY))
                                        else if i < 2 then None
                                        else Some((env.utf8(Spoken(parts[2..i])),
                                                   Printed(if i + 1 < |parts| then parts[i + 1] else "")))
  {
    FpFromTail(parts, 0);
    assert parts[0..] == parts;
    var i := FpIndex(parts);
    if i == |parts| {
      SpokenIs(parts[2..]);
    } else if i >= 2 {
      SpokenIs(parts[2..i]);
      PrintedIs(if i + 1 < |parts| then parts[i + 1] else "");
    }
  }

  lemma SetIs(env: DaemonEnv, w: World, book: Book, parts: seq<string>, inputs: Inputs)
    requires Kept(env, w, book) && |parts| >= 3
    ensures Kept(env, Apply(env, w, SetEffect(env, parts), inputs), DoSet(env, book, parts, inputs).0)
  {
    SetWords(env, parts);
    var e := SetEffect(env, parts);
    if e.Set? { StoreKeeps(env, w, book, e.key, e.value, e.fp, inputs); }
  }

  lemma SetAnswers(env: DaemonEnv, book: Book, parts: seq<string>, inputs: Inputs)
    requires |parts| >= 3
    ensures SetReply(env, parts) == DoSet(env, book, parts, inputs).1
  {
    SetWords(env, parts);
  }

  lemma InvalidateIs(env: DaemonEnv, w: World, book: Book, key: string, reason: string, inputs: Inputs)
    requires Kept(env, w, book)
    ensures Kept(env, Apply(env, w, InvalidateEffect(w, key, reason, inputs), inputs),
                 DoInvalidate(book, key, reason, inputs).0)
    ensures InvalidateReply(w, key, reason, inputs) == DoInvalidate(book, key, reason, inputs).1
  {
    if key in w.slots {
      var to := Revoked(reason, inputs.now, None);
      var event := A.StateTransition(key, "Active", "Revoked", "System", Some(reason));
      MoveKeepsBook(env, w, book, key, to, event, inputs);
      MoveAnswers(env, w, book, key, to, event, inputs);
    }
  }

  lemma SupersedeIs(env: DaemonEnv, w: World, book: Book, oldKey: string, newKey: string, inputs: Inputs)
    requires Kept(env, w, book)
    ensures Kept(env, Apply(env, w, SupersedeEffect(w, oldKey, newKey), inputs), DoSupersede(book, oldKey, newKey, inputs).0)
    ensures SupersedeReply(w, oldKey, newKey) == DoSupersede(book, oldKey, newKey, inputs).1
  {
    if newKey in w.slots && oldKey in w.slots {
      var to := Superseded(w.slots[newKey].contentAddress);
      var event := A.StateTransition(oldKey, "Active", "Superseded(" + newKey + ")", "System", None);
      MoveKeepsBook(env, w, book, oldKey, to, event, inputs);
      MoveAnswers(env, w, book, oldKey, to, event, inputs);
    }
  }

  /** Each command word and what it takes. */
  lemma WordIs(env: DaemonEnv, parts: seq<string>)
    requires |parts| > 0
    ensures var word, verb := env.upper(parts[0]), VerbIn(env, parts);
            && (verb.PingVerb? <==> word == "PING") && (verb.SetVerb? <==> word == "SET")
            && (verb.GetVerb? <==> word == "GET")
            && (verb.GetVerifiedVerb? <==> word == "GETVERIFIED") && (verb.DelVerb? <==> word == "DEL")
            && (verb.InvalidateVerb? <==> word == "INVALIDATE") && (verb.SupersedeVerb? <==> word == "SUPERSEDE")
            && (verb.StateVerb? <==> word == "STATE") && (verb.InfoVerb? <==> word == "INFO")
            && (verb.AuditLogVerb? <==> word == "AUDITLOG") && (verb.AuditVerifyVerb? <==> word == "AUDITVERIFY")
            && (verb.AuditAnchorVerb? <==> word == "AUDITANCHOR")
  {
  }

  /** Commands that have no effect on the book. */
  predicate Idle(verb: Verb) {
    !verb.SetVerb? && !verb.GetVerifiedVerb? && !verb.DelVerb? && !verb.InvalidateVerb? && !verb.SupersedeVerb?
    && !verb.AuditAnchorVerb?
  }

  lemma BookIs(env: DaemonEnv, book: Book, parts: seq<string>, inputs: Inputs, check: Check, stored: u64)
    ensures var verb, after := VerbIn(env, parts), Do(env, book, parts, inputs, check, stored).0;
            && (|parts| < WordsNeeded(verb) || Idle(verb) ==> after == book)
            && (|parts| >= WordsNeeded(verb) ==>
                  && (verb.SetVerb? ==> after == DoSet(env, book, parts, inputs).0)
                  && (verb.GetVerifiedVerb? ==> after == DoRead(book, parts[1], check, inputs).0)
                  && (verb.DelVerb? ==> after == DoDelete(book, parts[1], inputs).0)
                  && (verb.InvalidateVerb? ==> after == DoInvalidate(book, parts[1], Spoken(parts[3..]), inputs).0)
                  && (verb.SupersedeVerb? ==> after == DoSupersede(book, parts[1], parts[2], inputs).0)
                  && (verb.AuditAnchorVerb? ==> after == DoAnchor(env, book, inputs).0))
  {
    if |parts| > 0 { WordIs(env, parts); }
  }

  lemma EffectIs(env: DaemonEnv, w: World, parts: seq<string>, inputs: Inputs)
    ensures var verb, e := VerbIn(env, parts), EffectOf(env, w, parts, inputs);
            && (|parts| < WordsNeeded(verb) || Idle(verb) ==> e == Nothing)
            && (|parts| >= WordsNeeded(verb) ==>
                  && (verb.SetVerb? ==> e == SetEffect(env, parts))
                  && (verb.GetVerifiedVerb? ==> e == VerifiedEffect(env, w, parts[1]))
                  && (verb.DelVerb? ==> e == Delete(parts[1]))
                  && (verb.InvalidateVerb? ==> e == InvalidateEffect(w, parts[1], JoinWords(parts[3..]), inputs))
                  && (verb.SupersedeVerb? ==> e == SupersedeEffect(w, parts[1], parts[2]))
                  && (verb.AuditAnchorVerb? ==> e == Effect.Anchor))
  {
  }

  /** The effect does to the world what `after` is to the book. */
  predicate Does(env: DaemonEnv, w: World, e: Effect, inputs: Inputs, after: Book) {
    Kept(env, Apply(env, w, e, inputs), after)
  }

  /** Anchoring touches the log alone. */
  lemma AnchorAlone(env: DaemonEnv, w: World, book: Book, inputs: Inputs)
    ensures DoAnchor(env, book, inputs).0.cache == book.cache && DoAnchor(env, book, inputs).0.cards == book.cards
    ensures AnchorTaken(env, w, inputs) == w.(log := AnchorTaken(env, w, inputs).log)
  {
  }

  lemma KeptInParts(env: DaemonEnv, w: World, book: Book, w': World, book': Book)
    requires w.engine == book.cache && CardsOf(w.slots) == book.cards
    requires w' == w.(log := w'.log) && book'.cache == book.cache && book'.cards == book.cards
    requires LogKept(env.audit, w'.log, book')
    ensures Kept(env, w', book')
  {
  }

  lemma AnchorKeepsAll(env: DaemonEnv, w: World, book: Book, inputs: Inputs, w': World, book': Book)
    requires Kept(env, w, book) && w' == AnchorTaken(env, w, inputs) && book' == DoAnchor(env, book, inputs).0
    ensures Kept(env, w', book')
  {
    AnchorKeeps(env, w, book, inputs);
    AnchorAlone(env, w, book, inputs);
    KeptInParts(env, w, book, w', book');
  }

  lemma SetDoes(env: DaemonEnv, w: World, book: Book, parts: seq<string>, inputs: Inputs, e: Effect, after: Book)
    requires Kept(env, w, book) && |parts| >= 3 && e == SetEffect(env, parts) && after == DoSet(env, book, parts, inputs).0
    ensures Does(env, w, e, inputs, after)
  {
    SetIs(env, w, book, parts, inputs);
  }

  lemma DeleteDoes(env: DaemonEnv, w: World, book: Book, key: string, inputs: Inputs, e: Effect, after: Book)
    requires Kept(env, w, book) && e == Delete(key) && after == DoDelete(book, key, inputs).0
    ensures Does(env, w, e, inputs, after)
  {
    RemoveKeeps(env, w, book, key, inputs);
  }

  lemma AnchorDoes(env: DaemonEnv, w: World, book: Book, inputs: Inputs, e: Effect, after: Book)
    requires Kept(env, w, book) && e == Effect.Anchor && after == DoAnchor(env, book, inputs).0
    ensures Does(env, w, e, inputs, after)
  {
    AnchorKeepsAll(env, w, book, inputs, AnchorTaken(env, w, inputs), after);
  }

  lemma ReadDoes(env: DaemonEnv, w: World, book: Book, key: string, inputs: Inputs, e: Effect, after: Book)
    requires Kept(env, w, book) && e == VerifiedEffect(env, w, key)
    requires after == DoRead(book, key, CheckOf(env, w, key), inputs).0
    ensures Does(env, w, e, inputs, after)
  {
    ReadKeeps(env, w, book, key, inputs);
  }

  lemma {:induction false} InvalidateDoes(env: DaemonEnv, w: World, book: Book, key: string, words: seq<string>,
                                          inputs: Inputs, e: Effect, after: Book)
    requires Kept(env, w, book) && e == InvalidateEffect(w, key, JoinWords(words), inputs)
    requires after == DoInvalidate(book, key, Spoken(words), inputs).0
    ensures Does(env, w, e, inputs, after)
  {
    SpokenIs(words);
    InvalidateIs(env, w, book, key, Spoken(words), inputs);
  }

  lemma SupersedeDoes(env: DaemonEnv, w: World, book: Book, oldKey: string, newKey: string, inputs: Inputs, e: Effect,
                      after: Book)
    requires Kept(env, w, book) && e == SupersedeEffect(w, oldKey, newKey)
    requires after == DoSupersede(book, oldKey, newKey, inputs).0
    ensures Does(env, w, e, inputs, after)
  {
    SupersedeIs(env, w, book, oldKey, newKey, inputs);
  }

  lemma CommandKeeps(env: DaemonEnv, w: World, book: Book, parts: seq<string>, inputs: Inputs)
    requires Kept(env, w, book)
    ensures Does(env, w, EffectOf(env, w, parts, inputs), inputs, BookOf(env, w, book, parts, inputs).0)
  {
    var verb, e, after := VerbIn(env, parts), EffectOf(env, w, parts, inputs), BookOf(env, w, book, parts, inputs).0;
    EffectIs(env, w, parts, inputs);
    BookIs(env, book, parts, inputs, CheckOf(env, w, KeyIn(parts)), w.store.count);
    if |parts| >= WordsNeeded(verb) && !Idle(verb) {
      if verb.SetVerb? { SetDoes(env, w, book, parts, inputs, e, after); }
      else if verb.DelVerb? { DeleteDoes(env, w, book, parts[1], inputs, e, after); }
      else if verb.AuditAnchorVerb? { AnchorDoes(env, w, book, inputs, e, after); }
      else if verb.GetVerifiedVerb? { ReadDoes(env, w, book, parts[1], inputs, e, after); }
      else if verb.InvalidateVerb? { InvalidateDoes(env, w, book, parts[1], parts[3..], inputs, e, after); }
      else { SupersedeDoes(env, w, book, parts[1], parts[2], inputs, e, after); }
    }
  }

  /** What the log says to the three commands about it. */
  predicate LogSays(env: DaemonEnv, w: World, book: Book, key: string, inputs: Inputs) {
    && A.HistoryOf(A.Readable(env.audit, w.log.db), key) == About(Entries(env.audit, book.records), key)
    && A.CheckFrom(env.audit, w.log.db, 0, ZERO_DIGEST) == A.Checked(|book.records|, None)
    && AnchorReply(env, w, inputs) == DoAnchor(env, book, inputs).1
  }

  lemma LogIsSaid(env: DaemonEnv, w: World, book: Book, key: string, inputs: Inputs)
    requires A.JsonFaithful(env.audit) && LogKept(env.audit, w.log, book)
    ensures LogSays(env, w, book, key, inputs)
  {
    LogReads(env, w.log, book);
    AboutIs(Entries(env.audit, book.records), key);
    AnchorAnswers(env, w, book, inputs);
  }

  lemma LogAnswers(env: DaemonEnv, w: World, book: Book, parts: seq<string>, inputs: Inputs)
    requires LogSays(env, w, book, KeyIn(parts), inputs) && |parts| >= WordsNeeded(VerbIn(env, parts)) && |parts| > 0
    requires var verb := VerbIn(env, parts); verb.AuditLogVerb? || verb.AuditVerifyVerb? || verb.AuditAnchorVerb?
    ensures ReplyTo(env, w, parts, inputs) == BookOf(env, w, book, parts, inputs).1
  {
    WordIs(env, parts);
  }

  lemma SlotAnswers(env: DaemonEnv, w: World, book: Book, parts: seq<string>, inputs: Inputs)
    requires Kept(env, w, book) && |parts| >= WordsNeeded(VerbIn(env, parts))
    requires var verb := VerbIn(env, parts);
             verb.SetVerb? || verb.GetVerifiedVerb? || verb.InvalidateVerb? || verb.SupersedeVerb?
    ensures ReplyTo(env, w, parts, inputs) == BookOf(env, w, book, parts, inputs).1
  {
    WordIs(env, parts);
    match VerbIn(env, parts)
    case SetVerb => SetAnswers(env, book, parts, inputs);
    case GetVerifiedVerb => ReadAnswers(env, w, book, parts[1], inputs);
    case InvalidateVerb =>
      SpokenIs(parts[3..]);
      InvalidateIs(env, w, book, parts[1], Spoken(parts[3..]), inputs);
    case SupersedeVerb => SupersedeIs(env, w, book, parts[1], parts[2], inputs);
  }

  lemma CommandAnswers(env: DaemonEnv, w: World, book: Book, parts: seq<string>, inputs: Inputs)
    requires A.JsonFaithful(env.audit) && Kept(env, w, book)
    ensures ReplyTo(env, w, parts, inputs) == BookOf(env, w, book, parts, inputs).1
  {
    var verb := VerbIn(env, parts);
    if |parts| > 0 { WordIs(env, parts); }
    if |parts| >= WordsNeeded(verb) {
      if verb.AuditLogVerb? || verb.AuditVerifyVerb? || verb.AuditAnchorVerb? {
        LogIsSaid(env, w, book, KeyIn(parts), inputs);
        LogAnswers(env, w, book, parts, inputs);
      } else if verb.SetVerb? || verb.GetVerifiedVerb? || verb.InvalidateVerb? || verb.SupersedeVerb? {
        SlotAnswers(env, w, book, parts, inputs);
      } else {
        assert book.cards.Keys == w.slots.Keys;
      }
    }
  }

  // ── Whole runs ────────────────────────────────────────────────────

  function BookStep(env: DaemonEnv, w: World, book: Book, op: DaemonOp): Book {
    match op
    case Command(parts, inputs) => BookOf(env, w, book, parts, inputs).0
    case Evict(key) => book.(cache := book.cache - {key})
    case Restart(start, inputs) =>
      match ColdStart(env, w.store.db, w.log.db, start, inputs)
      case Some(again) => Restarted(env, book, start, inputs, CardsOf(again.slots))
      case None => book
  }

  /** The book after a run. */
  function BookAfter(env: DaemonEnv, ops: seq<DaemonOp>): Book {
    if |ops| == 0 then BLANK
    else
      var before := ops[..|ops| - 1];
      BookStep(env, RunDaemon(env, START, before).w, BookAfter(env, before), ops[|ops| - 1])
  }

  lemma {:induction false} RunLast(env: DaemonEnv, t: Tracked, ops: seq<DaemonOp>, op: DaemonOp)
    ensures RunDaemon(env, t, ops + [op]) == Step(env, RunDaemon(env, t, ops), op)
  {
    RunAllConcat((s: Tracked, o: DaemonOp) => Step(env, s, o), t, ops, [op]);
    RunAllOne((s: Tracked, o: DaemonOp) => Step(env, s, o), RunDaemon(env, t, ops), op);
  }

  lemma {:induction false} RestartKeeps(env: DaemonEnv, w: World, book: Book, start: A.Event, inputs: Inputs)
    requires A.JsonFaithful(env.audit) && Kept(env, w, book)
    ensures var again := ColdStart(env, w.store.db, w.log.db, start, inputs);
            again.Some? && Kept(env, again.value, Restarted(env, book, start, inputs, CardsOf(again.value.slots)))
  {
    var es := Entries(env.audit, book.records);
    var slots := Rebuilt(env, w.store.db, Addresses(w.store.db), inputs.now);
    var reset := Book(map[], CardsOf(slots), book.records, |book.records|, 0, env.issuerId);
    OpenedSound(env.audit, w.log.db, es, env.issuerId);
    NotedKeeps(env, A.Opened(env.audit, w.log.db, env.issuerId).value, reset, start, inputs);
    NotedAlone(reset, start, inputs);
  }

  lemma StepKeepsBook(env: DaemonEnv, t: Tracked, book: Book, op: DaemonOp)
    requires A.JsonFaithful(env.audit) && Kept(env, t.w, book)
    ensures Kept(env, Step(env, t, op).w, BookStep(env, t.w, book, op))
  {
    match op
    case Command(parts, inputs) => CommandKeeps(env, t.w, book, parts, inputs);
    case Evict(_) =>
    case Restart(start, inputs) => RestartKeeps(env, t.w, book, start, inputs);
  }

  lemma {:induction false} BookLast(env: DaemonEnv, ops: seq<DaemonOp>, op: DaemonOp)
    ensures BookAfter(env, ops + [op]) == BookStep(env, RunDaemon(env, START, ops).w, BookAfter(env, ops), op)
  {
    assert (ops + [op])[..|ops|] == ops;
  }

  predicate KeptAfter(env: DaemonEnv, ops: seq<DaemonOp>) {
    Kept(env, RunDaemon(env, START, ops).w, BookAfter(env, ops))
  }

  lemma {:induction false} RunKeepsNext(env: DaemonEnv, ops: seq<DaemonOp>, op: DaemonOp)
    requires A.JsonFaithful(env.audit) && KeptAfter(env, ops)
    ensures KeptAfter(env, ops + [op])
  {
    BookLast(env, ops, op);
    RunLast(env, START, ops, op);
    StepKeepsBook(env, RunDaemon(env, START, ops), BookAfter(env, ops), op);
  }

  lemma BlankIsKept(env: DaemonEnv)
    ensures KeptAfter(env, [])
  {
    EmptyLogSound(env.audit);
    assert CardsOf(EMPTY_WORLD.slots) == map[];
  }

  lemma {:induction false} AllKeptAfter(env: DaemonEnv, ops: seq<DaemonOp>)
    requires A.JsonFaithful(env.audit)
    ensures KeptAfter(env, ops)
  {
    BlankIsKept(env);
    forall a: seq<DaemonOp>, o: DaemonOp | KeptAfter(env, a) ensures KeptAfter(env, a + [o]) {
      RunKeepsNext(env, a, o);
    }
    AllSequences((a: seq<DaemonOp>) => KeptAfter(env, a), ops);
  }

  lemma {:induction false} RunKeepsBook(env: DaemonEnv, ops: seq<DaemonOp>)
    requires A.JsonFaithful(env.audit)
    ensures Kept(env, RunDaemon(env, START, ops).w, BookAfter(env, ops))
  {
    AllKeptAfter(env, ops);
  }

  /**
   The daemon keeps the book. After any run of commands, evictions, failed writes and restarts the engine holds what the
   book has cached, the registry what it has registered, the readable log is exactly the book's entries, from the first to
   the last, with their times, events, issuers and hashes; and the next command is answered as the book says.
   */
  lemma {:induction false} DaemonKeepsBook(env: DaemonEnv, ops: seq<DaemonOp>, parts: seq<string>, inputs: Inputs)
    requires A.JsonFaithful(env.audit)
    ensures var w, book := RunDaemon(env, START, ops).w, BookAfter(env, ops);
            && w.engine == book.cache && CardsOf(w.slots) == book.cards
            && A.Readable(env.audit, w.log.db) == Entries(env.audit, book.records)
            && Exec(env, w, parts, inputs).1 == BookOf(env, w, book, parts, inputs).1
  {
    RunKeepsBook(env, ops);
    var w, book := RunDaemon(env, START, ops).w, BookAfter(env, ops);
    LogReads(env, w.log, book);
    CommandAnswers(env, w, book, parts, inputs);
  }

  // ── Starts ────────────────────────────────────────────────────────

  /** The start events among records, in order. */
  function Starts(records: seq<Record>): seq<A.Event> {
    if |records| == 0 then []
    else
      var n := |records| - 1;
      Starts(records[..n]) + if records[n].event.DaemonStart? then [records[n].event] else []
  }

  /** The start events of the restarts whose append went through. */
  function StartsIn(ops: seq<DaemonOp>): seq<A.Event> {
    if |ops| == 0 then []
    else
      var n := |ops| - 1;
      StartsIn(ops[..n]) + StartIn(ops[n])
  }

  /** No start event is at risk: those on disk are all known. */
  ghost predicate StartsKnown(book: Book) {
    && book.counted <= |book.records|
    && forall i | book.counted <= i < |book.records| :: !book.records[i].event.DaemonStart?
  }

  lemma {:induction false} StartsKnownOnly(records: seq<Record>, c: nat)
    requires c <= |records| && forall i | c <= i < |records| :: !records[i].event.DaemonStart?
    ensures Starts(records) == Starts(records[..c])
    decreases |records|
  {
    if c < |records| {
      StartsKnownOnly(records[..|records| - 1], c);
      assert records[..|records| - 1][..c] == records[..c];
    } else {
      assert records[..c] == records;
    }
  }

  lemma {:induction false} StartsNext(records: seq<Record>, r: Record)
    ensures Starts(records + [r]) == Starts(records) + if r.event.DaemonStart? then [r.event] else []
  {
    assert (records + [r])[..|records|] == records;
  }

  /** Nothing about starts is different. */
  ghost predicate SameStarts(book: Book, after: Book) {
    && StartsKnown(after) && Starts(after.records) == Starts(book.records)
    && |after.records| <= |book.records| + 1
  }

  lemma RecordsBefore(book: Book)
    requires StartsKnown(book)
    ensures Starts(book.records[..book.counted]) == Starts(book.records)
  {
    StartsKnownOnly(book.records, book.counted);
  }

  /** A start whose append goes through is added, one whose write fails is not. */
  lemma NotedStart(book: Book, event: A.Event, inputs: Inputs)
    requires StartsKnown(book) && book.counted + 1 < 0x1_0000_0000_0000_0000
    requires event.DaemonStart? && inputs.logFault != FlushFails
    ensures var after := Noted(book, event, inputs);
            && StartsKnown(after) && |after.records| <= |book.records| + 1
            && Starts(after.records) == Starts(book.records) + if inputs.logFault == NoFault then [event] else []
  {
    RecordsBefore(book);
    StartsNext(book.records[..book.counted], Record(event, inputs.loggedAt, book.issuerId));
  }

  /** An event that is no start leaves the starts, whatever is cached or registered besides. */
  lemma NotedOther(book: Book, other: Book, event: A.Event, inputs: Inputs)
    requires StartsKnown(book) && book.counted + 1 < 0x1_0000_0000_0000_0000 && !event.DaemonStart?
    requires other.records == book.records && other.counted == book.counted
    ensures SameStarts(book, Noted(other, event, inputs))
  {
    RecordsBefore(book);
    StartsNext(book.records[..book.counted], Record(event, inputs.loggedAt, other.issuerId));
  }

  lemma SetStarts(env: DaemonEnv, book: Book, parts: seq<string>, inputs: Inputs)
    requires StartsKnown(book) && book.counted + 1 < 0x1_0000_0000_0000_0000 && |parts| >= 3
    ensures SameStarts(book, DoSet(env, book, parts, inputs).0)
  {
    var e := SetEffect(env, parts);
    SetWords(env, parts);
    if e.Set? {
      var card := Card(e.fp, Active, Addressed(env, e.value, e.fp));
      var identified := e.fp.inputHash != seq(32, _ => 0) && e.fp.computationHash != seq(32, _ => 0);
      NotedOther(book, book.(cache := book.cache[e.key := e.value], cards := book.cards[e.key := card]),
                 A.EntryCreated(e.key, Hex(card.address), Hex(Digested(env, e.fp)), env.signer.Some? && identified), inputs);
    }
  }

  lemma DeleteStarts(book: Book, key: string, inputs: Inputs)
    requires StartsKnown(book) && book.counted + 1 < 0x1_0000_0000_0000_0000
    ensures SameStarts(book, DoDelete(book, key, inputs).0)
  {
    NotedOther(book, book.(cache := book.cache - {key}, cards := book.cards - {key}), A.EntryDeleted(key), inputs);
  }

  lemma MoveStarts(book: Book, key: string, to: EntryState, event: A.Event, inputs: Inputs)
    requires StartsKnown(book) && book.counted + 1 < 0x1_0000_0000_0000_0000 && key in book.cards && !event.DaemonStart?
    ensures SameStarts(book, DoMove(book, key, to, event, inputs).0)
  {
    NotedOther(book, book.(cards := book.cards[key := book.cards[key].(state := to)]), event, inputs);
  }

  lemma ReadStarts(book: Book, key: string, check: Check, inputs: Inputs)
    requires StartsKnown(book) && book.counted + 1 < 0x1_0000_0000_0000_0000
    ensures SameStarts(book, DoRead(book, key, check, inputs).0)
  {
    if key in book.cache && key in book.cards {
      ReadNotes(book, key, check, inputs);
      var event := VerifiedEvent(key, check.verification, check.checks);
      if event.Some? { NotedOther(book, book, event.value, inputs); }
    }
  }

  lemma AnchorStarts(env: DaemonEnv, book: Book, inputs: Inputs)
    requires StartsKnown(book) && book.counted + 1 < 0x1_0000_0000_0000_0000
    ensures SameStarts(book, DoAnchor(env, book, inputs).0)
  {
    if book.anchored < 0x1_0000_0000_0000_0000 { NotedOther(book, book, AnchorSays(env, book), inputs); }
  }

  /** A command logs nothing that is a start. */
  lemma CommandStarts(env: DaemonEnv, w: World, book: Book, parts: seq<string>, inputs: Inputs)
    requires StartsKnown(book) && book.counted + 1 < 0x1_0000_0000_0000_0000
    ensures SameStarts(book, BookOf(env, w, book, parts, inputs).0)
  {
    var check, verb := CheckOf(env, w, KeyIn(parts)), VerbIn(env, parts);
    BookIs(env, book, parts, inputs, check, w.store.count);
    if |parts| >= WordsNeeded(verb) && !Idle(verb) {
      if verb.AuditAnchorVerb? { AnchorStarts(env, book, inputs); }
      else if verb.SetVerb? { SetStarts(env, book, parts, inputs); }
      else if verb.GetVerifiedVerb? { ReadStarts(book, parts[1], check, inputs); }
      else if verb.DelVerb? { DeleteStarts(book, parts[1], inputs); }
      else if verb.InvalidateVerb? { InvalidateStarts(book, parts[1], Spoken(parts[3..]), inputs); }
      else { SupersedeStarts(book, parts[1], parts[2], inputs); }
    }
  }

  lemma InvalidateStarts(book: Book, key: string, reason: string, inputs: Inputs)
    requires StartsKnown(book) && book.counted + 1 < 0x1_0000_0000_0000_0000
    ensures SameStarts(book, DoInvalidate(book, key, reason, inputs).0)
  {
    if key in book.cards {
      MoveStarts(book, key, Revoked(reason, inputs.now, None),
                 A.StateTransition(key, "Active", "Revoked", "System", Some(reason)), inputs);
    }
  }

  lemma SupersedeStarts(book: Book, oldKey: string, newKey: string, inputs: Inputs)
    requires StartsKnown(book) && book.counted + 1 < 0x1_0000_0000_0000_0000
    ensures SameStarts(book, DoSupersede(book, oldKey, newKey, inputs).0)
  {
    if newKey in book.cards && oldKey in book.cards {
      MoveStarts(book, oldKey, Superseded(book.cards[newKey].address),
                 A.StateTransition(oldKey, "Active", "Superseded(" + newKey + ")", "System", None), inputs);
    }
  }

  /** A restart logs its start, and no flush of a start fails. */
  predicate StartsWell(op: DaemonOp) { op.Restart? ==> op.start.DaemonStart? && op.inputs.logFault != FlushFails }

  function StartIn(op: DaemonOp): seq<A.Event> {
    if op.Restart? && op.inputs.logFault == NoFault then [op.start] else []
  }

  lemma RestartStarts(env: DaemonEnv, book: Book, start: A.Event, inputs: Inputs, cards: map<string, Card>)
    requires StartsKnown(book) && |book.records| + 1 < 0x1_0000_0000_0000_0000
    requires start.DaemonStart? && inputs.logFault != FlushFails
    ensures var after := Restarted(env, book, start, inputs, cards);
            && StartsKnown(after) && |after.records| <= |book.records| + 1
            && Starts(after.records) == Starts(book.records) + if inputs.logFault == NoFault then [start] else []
  {
    NotedStart(Book(map[], cards, book.records, |book.records|, 0, env.issuerId), start, inputs);
  }

  /** One operation adds the start it logs, if any. */
  ghost predicate AddsStart(book: Book, after: Book, op: DaemonOp) {
    && StartsKnown(after) && |after.records| <= |book.records| + 1
    && Starts(after.records) == Starts(book.records) + StartIn(op)
  }

  lemma RestartAdds(env: DaemonEnv, w: World, book: Book, op: DaemonOp)
    requires A.JsonFaithful(env.audit) && Kept(env, w, book) && StartsKnown(book)
    requires |book.records| + 1 < 0x1_0000_0000_0000_0000 && StartsWell(op) && op.Restart?
    ensures AddsStart(book, BookStep(env, w, book, op), op)
  {
    RestartKeeps(env, w, book, op.start, op.inputs);
    var again := ColdStart(env, w.store.db, w.log.db, op.start, op.inputs).value;
    RestartStarts(env, book, op.start, op.inputs, CardsOf(again.slots));
  }

  lemma StepStarts(env: DaemonEnv, w: World, book: Book, op: DaemonOp)
    requires A.JsonFaithful(env.audit) && Kept(env, w, book) && StartsKnown(book)
    requires |book.records| + 1 < 0x1_0000_0000_0000_0000 && StartsWell(op)
    ensures AddsStart(book, BookStep(env, w, book, op), op)
  {
    match op
    case Command(parts, inputs) => CommandStarts(env, w, book, parts, inputs);
    case Evict(_) =>
    case Restart(_, _) => RestartAdds(env, w, book, op);
  }

  lemma {:induction false} RunStarts(env: DaemonEnv, ops: seq<DaemonOp>)
    requires A.JsonFaithful(env.audit) && |ops| < 0x1_0000_0000_0000_0000 - 1
    requires forall i | 0 <= i < |ops| :: StartsWell(ops[i])
    ensures var book := BookAfter(env, ops);
            StartsKnown(book) && |book.records| <= |ops| && Starts(book.records) == StartsIn(ops)
    decreases |ops|
  {
    if |ops| > 0 {
      var before := ops[..|ops| - 1];
      RunStarts(env, before);
      RunKeepsBook(env, before);
      StepStarts(env, RunDaemon(env, START, before).w, BookAfter(env, before), ops[|ops| - 1]);
    }
  }

  /** The start events among entries, in order. */
  function StartsAmong(es: seq<A.AuditEntry>): seq<A.Event> {
    if |es| == 0 then []
    else StartsAmong(es[..|es| - 1]) + if es[|es| - 1].event.DaemonStart? then [es[|es| - 1].event] else []
  }

  lemma {:induction false} EntriesStarts(env: A.AuditEnv, records: seq<Record>)
    ensures StartsAmong(Entries(env, records)) == Starts(records)
    decreases |records|
  {
    if |records| > 0 {
      var n := |records| - 1;
      EntriesStarts(env, records[..n]);
      var before := Entries(env, records[..n]);
      assert Entries(env, records)[..|before|] == before;
    }
  }

  /**
   After any run the readable log holds one start event for each restart whose append went through, in their order, and no
   other; as long as no flush of a start fails.
   */
  lemma {:induction false} StartsAreLogged(env: DaemonEnv, ops: seq<DaemonOp>)
    requires A.JsonFaithful(env.audit) && |ops| < 0x1_0000_0000_0000_0000 - 1
    requires forall i | 0 <= i < |ops| :: StartsWell(ops[i])
    ensures StartsAmong(A.Readable(env.audit, RunDaemon(env, START, ops).w.log.db)) == StartsIn(ops)
  {
    RunStarts(env, ops);
    RunKeepsBook(env, ops);
    LogReads(env, RunDaemon(env, START, ops).w.log, BookAfter(env, ops));
    EntriesStarts(env.audit, BookAfter(env, ops).records);
  }
}
