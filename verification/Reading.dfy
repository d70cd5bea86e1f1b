/** What a client may rely on between its commands: laws of the answers over whole runs. */
module Reading {
  import opened Basics
  import opened OrderedMaps
  import opened Fingerprints
  import opened Slots
  import opened ContentStore
  import opened Commands
  import opened Agreement
  import opened Retelling
  import opened Replay
  import opened Book
  import opened BookProofs
  import opened Runs
  import A = Audit
  import Archive

  // ── Commands about a key ──────────────────────────────────────────

  /** A command by its word, of at least `n` words, about a key. */
  predicate Says(env: DaemonEnv, parts: seq<string>, word: string, n: nat, k: string) {
    |parts| >= n >= 2 && env.upper(parts[0]) == word && parts[1] == k
  }

  predicate Sets(env: DaemonEnv, op: DaemonOp, k: string) { op.Command? && Says(env, op.parts, "SET", 3, k) }

  predicate Dels(env: DaemonEnv, op: DaemonOp, k: string) { op.Command? && Says(env, op.parts, "DEL", 2, k) }

  /** Neither a SET nor a DEL of the key, nor a restart. */
  predicate Leaves(env: DaemonEnv, op: DaemonOp, k: string) { !Sets(env, op, k) && !Dels(env, op, k) && !op.Restart? }

  /** And the engine does not drop it. */
  predicate Holds(env: DaemonEnv, op: DaemonOp, k: string) { Leaves(env, op, k) && op != Evict(k) }

  // ── What one step leaves of a key ─────────────────────────────────

  lemma NotedLeaves(book: Book, event: A.Event, inputs: Inputs)
    ensures Noted(book, event, inputs).cache == book.cache && Noted(book, event, inputs).cards == book.cards
  {
  }

  /** The same key, registered the same way, possibly moved out of Active. */
  predicate SameKey(book: Book, after: Book, k: string) {
    && (k in book.cards <==> k in after.cards)
    && (k in book.cards ==>
          && after.cards[k].fingerprint == book.cards[k].fingerprint && after.cards[k].address == book.cards[k].address
          && (book.cards[k].state.Active? || after.cards[k].state == book.cards[k].state))
  }

  predicate SameCached(book: Book, after: Book, k: string) {
    (k in book.cache <==> k in after.cache) && (k in book.cache ==> after.cache[k] == book.cache[k])
  }

  lemma SetLeaves(env: DaemonEnv, book: Book, parts: seq<string>, inputs: Inputs, k: string)
    requires |parts| >= 3 && parts[1] != k
    ensures var after := DoSet(env, book, parts, inputs).0; SameKey(book, after, k) && SameCached(book, after, k)
  {
  }

  lemma DeleteLeaves(book: Book, key: string, inputs: Inputs, k: string)
    requires key != k
    ensures var after := DoDelete(book, key, inputs).0; SameKey(book, after, k) && SameCached(book, after, k)
  {
  }

  lemma MoveLeaves(book: Book, key: string, to: EntryState, event: A.Event, inputs: Inputs, k: string)
    requires key in book.cards
    ensures var after := DoMove(book, key, to, event, inputs).0; SameKey(book, after, k) && SameCached(book, after, k)
  {
  }

  lemma ReadLeaves(book: Book, key: string, check: Check, inputs: Inputs, k: string)
    ensures var after := DoRead(book, key, check, inputs).0; SameKey(book, after, k) && SameCached(book, after, k)
  {
  }

  lemma CommandLeaves(env: DaemonEnv, w: World, book: Book, parts: seq<string>, inputs: Inputs, k: string)
    requires !Says(env, parts, "SET", 3, k) && !Says(env, parts, "DEL", 2, k)
    ensures var after := BookOf(env, w, book, parts, inputs).0; SameKey(book, after, k) && SameCached(book, after, k)
  {
    var check, verb := CheckOf(env, w, KeyIn(parts)), VerbIn(env, parts);
    BookIs(env, book, parts, inputs, check, w.store.count);
    if |parts| > 0 && |parts| >= WordsNeeded(verb) {
      WordIs(env, parts);
      if verb.SetVerb? { SetLeaves(env, book, parts, inputs, k); }
      else if verb.DelVerb? { DeleteLeaves(book, parts[1], inputs, k); }
      else if verb.GetVerifiedVerb? { ReadLeaves(book, parts[1], check, inputs, k); }
      else if verb.InvalidateVerb? { InvalidateLeaves(book, parts[1], Spoken(parts[3..]), inputs, k); }
      else if verb.SupersedeVerb? { SupersedeLeaves(book, parts[1], parts[2], inputs, k); }
      else if verb.AuditAnchorVerb? { AnchorAlone(env, w, book, inputs); }
    }
  }

  lemma InvalidateLeaves(book: Book, key: string, reason: string, inputs: Inputs, k: string)
    ensures var after := DoInvalidate(book, key, reason, inputs).0; SameKey(book, after, k) && SameCached(book, after, k)
  {
    if key in book.cards {
      MoveLeaves(book, key, Revoked(reason, inputs.now, None),
                 A.StateTransition(key, "Active", "Revoked", "System", Some(reason)), inputs, k);
    }
  }

  lemma SupersedeLeaves(book: Book, oldKey: string, newKey: string, inputs: Inputs, k: string)
    ensures var after := DoSupersede(book, oldKey, newKey, inputs).0; SameKey(book, after, k) && SameCached(book, after, k)
  {
    if newKey in book.cards && oldKey in book.cards {
      MoveLeaves(book, oldKey, Superseded(book.cards[newKey].address),
                 A.StateTransition(oldKey, "Active", "Superseded(" + newKey + ")", "System", None), inputs, k);
    }
  }

  lemma StepLeaves(env: DaemonEnv, w: World, book: Book, op: DaemonOp, k: string)
    requires Leaves(env, op, k)
    ensures SameKey(book, BookStep(env, w, book, op), k)
    ensures op != Evict(k) ==> SameCached(book, BookStep(env, w, book, op), k)
  {
    if op.Command? { CommandLeaves(env, w, book, op.parts, op.inputs, k); }
  }

  // ── And a whole stretch ───────────────────────────────────────────

  lemma SameKeyThen(a: Book, b: Book, c: Book, k: string)
    requires SameKey(a, b, k) && SameKey(b, c, k)
    ensures SameKey(a, c, k) && (SameCached(a, b, k) && SameCached(b, c, k) ==> SameCached(a, c, k))
  {
  }

  lemma StretchStep(env: DaemonEnv, w: World, a: Book, b: Book, op: DaemonOp, k: string)
    requires SameKey(a, b, k) && Leaves(env, op, k)
    ensures SameKey(a, BookStep(env, w, b, op), k)
    ensures SameCached(a, b, k) && op != Evict(k) ==> SameCached(a, BookStep(env, w, b, op), k)
  {
    StepLeaves(env, w, b, op, k);
    SameKeyThen(a, b, BookStep(env, w, b, op), k);
  }

  lemma {:induction false} StretchMore(env: DaemonEnv, before: seq<DaemonOp>, so: seq<DaemonOp>, op: DaemonOp, k: string)
    requires SameKey(BookAfter(env, before), BookAfter(env, so), k) && Leaves(env, op, k)
    ensures SameKey(BookAfter(env, before), BookAfter(env, so + [op]), k)
    ensures SameCached(BookAfter(env, before), BookAfter(env, so), k) && op != Evict(k) ==>
              SameCached(BookAfter(env, before), BookAfter(env, so + [op]), k)
  {
    BookLast(env, so, op);
    StretchStep(env, RunDaemon(env, START, so).w, BookAfter(env, before), BookAfter(env, so), op, k);
  }

  lemma SameAsItself(book: Book, k: string)
    ensures SameKey(book, book, k) && SameCached(book, book, k)
  {
  }

  predicate AllLeave(env: DaemonEnv, ops: seq<DaemonOp>, k: string) { forall i | 0 <= i < |ops| :: Leaves(env, ops[i], k) }

  predicate AllHold(env: DaemonEnv, ops: seq<DaemonOp>, k: string) { forall i | 0 <= i < |ops| :: Holds(env, ops[i], k) }

  /** What a stretch leaves of a key. */
  predicate Left(env: DaemonEnv, before: seq<DaemonOp>, after: seq<DaemonOp>, k: string) {
    AllLeave(env, after, k) ==>
      && SameKey(BookAfter(env, before), BookAfter(env, before + after), k)
      && (AllHold(env, after, k) ==> SameCached(BookAfter(env, before), BookAfter(env, before + after), k))
  }

  lemma {:induction false} NothingLeft(env: DaemonEnv, before: seq<DaemonOp>, k: string)
    ensures Left(env, before, [], k)
  {
    assert before + [] == before;
    SameAsItself(BookAfter(env, before), k);
  }

  lemma {:induction false} LeftMore(env: DaemonEnv, before: seq<DaemonOp>, after: seq<DaemonOp>, op: DaemonOp, k: string)
    requires Left(env, before, after, k)
    ensures Left(env, before, after + [op], k)
  {
    if AllLeave(env, after + [op], k) {
      assert (after + [op])[|after|] == op;
      forall i | 0 <= i < |after| ensures after[i] == (after + [op])[i] {
      }
      assert before + after + [op] == before + (after + [op]);
      StretchMore(env, before, before + after, op, k);
    }
  }

  /** While nobody sets or deletes the key, it stays registered as it was; and cached, if the engine does not drop it. */
  lemma {:induction false} StretchLeaves(env: DaemonEnv, before: seq<DaemonOp>, after: seq<DaemonOp>, k: string)
    requires AllLeave(env, after, k)
    ensures SameKey(BookAfter(env, before), BookAfter(env, before + after), k)
    ensures AllHold(env, after, k) ==> SameCached(BookAfter(env, before), BookAfter(env, before + after), k)
  {
    NothingLeft(env, before, k);
    forall a: seq<DaemonOp>, o: DaemonOp | Left(env, before, a, k) ensures Left(env, before, a + [o], k) {
      LeftMore(env, before, a, o, k);
    }
    AllSequences((a: seq<DaemonOp>) => Left(env, before, a, k), after);
  }

  // ── Answers ───────────────────────────────────────────────────────

  /** The answer to a command after a run. */
  function Answer(env: DaemonEnv, ops: seq<DaemonOp>, parts: seq<string>, inputs: Inputs): Reply {
    Exec(env, RunDaemon(env, START, ops).w, parts, inputs).1
  }

  /** What the book answers to the three reads. */
  lemma BookReads(env: DaemonEnv, book: Book, parts: seq<string>, inputs: Inputs, check: Check, stored: u64, k: string)
    ensures var r := Do(env, book, parts, inputs, check, stored).1;
            && (Says(env, parts, "GET", 2, k) && !env.safeRead ==> r == if k in book.cache then Raw(book.cache[k]) else Nil)
            && (Says(env, parts, "STATE", 2, k) ==> r == if k in book.cards then StateOf(book.cards[k].state) else Nil)
            && (Says(env, parts, "GETVERIFIED", 2, k) ==> r == DoRead(book, k, check, inputs).1)
  {
  }

  lemma BookReadsVerified(book: Book, k: string, check: Check, inputs: Inputs)
    ensures var r := DoRead(book, k, check, inputs).1;
            && (k !in book.cache ==> r == Nil)
            && (k in book.cache && k in book.cards ==>
                  && r.Verified? && r.response.value == book.cache[k]
                  && r.response.fingerprint == book.cards[k].fingerprint && r.response.state == book.cards[k].state)
  {
  }

  /** What the three reads answer after a run. */
  lemma {:induction false} ReadsAnswer(env: DaemonEnv, ops: seq<DaemonOp>, parts: seq<string>, inputs: Inputs, k: string)
    requires A.JsonFaithful(env.audit)
    ensures var book, r := BookAfter(env, ops), Answer(env, ops, parts, inputs);
            && (Says(env, parts, "GET", 2, k) && !env.safeRead ==> r == if k in book.cache then Raw(book.cache[k]) else Nil)
            && (Says(env, parts, "STATE", 2, k) ==> r == if k in book.cards then StateOf(book.cards[k].state) else Nil)
            && (Says(env, parts, "GETVERIFIED", 2, k) && k !in book.cache ==> r == Nil)
            && (Says(env, parts, "GETVERIFIED", 2, k) && k in book.cache && k in book.cards ==>
                  && r.Verified? && r.response.value == book.cache[k]
                  && r.response.fingerprint == book.cards[k].fingerprint && r.response.state == book.cards[k].state)
  {
    var w, book := RunDaemon(env, START, ops).w, BookAfter(env, ops);
    var check := CheckOf(env, w, KeyIn(parts));
    DaemonKeepsBook(env, ops, parts, inputs);
    BookReads(env, book, parts, inputs, check, w.store.count, k);
    BookReadsVerified(book, k, check, inputs);
  }

  /** What a SET of these words stores. */
  predicate Stores(env: DaemonEnv, parts: seq<string>, k: string, value: Bytes, fp: Fingerprint) {
    Says(env, parts, "SET", 3, k) &&
    var i := FpFrom(parts, 0);
    if i == |parts| then !env.strictMode && value == env.utf8(Spoken(parts[2..])) && fp == EMPTY
    else i >= 2 && value == env.utf8(Spoken(parts[2..i])) && fp == Printed(if i + 1 < |parts| then parts[i + 1] else "")
  }

  lemma {:induction false} SetIsKept(env: DaemonEnv, ops: seq<DaemonOp>, parts: seq<string>, inputs: Inputs, k: string,
                                     value: Bytes, fp: Fingerprint)
    requires Stores(env, parts, k, value, fp)
    ensures var book := BookAfter(env, ops + [Command(parts, inputs)]);
            && k in book.cache && book.cache[k] == value
            && k in book.cards && book.cards[k] == Card(fp, Active, Addressed(env, value, fp))
  {
    BookLast(env, ops, Command(parts, inputs));
    var book := BookAfter(env, ops);
    var address := Addressed(env, value, fp);
    NotedLeaves(book.(cache := book.cache[k := value], cards := book.cards[k := Card(fp, Active, address)]),
                A.EntryCreated(k, Hex(address), Hex(Digested(env, fp)),
                               env.signer.Some? && fp.inputHash != seq(32, _ => 0) && fp.computationHash != seq(32, _ => 0)),
                inputs);
  }

  /**
   Read your SET. After a SET of a key, whatever other commands came before and come after, as long as nobody sets or
   deletes the key, the engine does not drop it and the daemon does not restart, GET answers exactly the words' bytes and
   GETVERIFIED these and the fingerprint that was given.
   */
  lemma {:induction false} ReadYourSet(env: DaemonEnv, before: seq<DaemonOp>, stored: seq<string>, inputs: Inputs,
                                       after: seq<DaemonOp>, parts: seq<string>, later: Inputs, k: string,
                                       value: Bytes, fp: Fingerprint)
    requires A.JsonFaithful(env.audit) && Stores(env, stored, k, value, fp)
    requires AllHold(env, after, k)
    ensures var r := Answer(env, before + [Command(stored, inputs)] + after, parts, later);
            && (Says(env, parts, "GET", 2, k) && !env.safeRead ==> r == Raw(value))
            && (Says(env, parts, "GETVERIFIED", 2, k) ==>
                  r.Verified? && r.response.value == value && r.response.fingerprint == fp)
  {
    SetIsKept(env, before, stored, inputs, k, value, fp);
    assert AllLeave(env, after, k);
    StretchLeaves(env, before + [Command(stored, inputs)], after, k);
    ReadsAnswer(env, before + [Command(stored, inputs)] + after, parts, later, k);
  }

  // ── Revoked, superseded, deleted ──────────────────────────────────

  /** A terminal state once answered stays. */
  lemma {:induction false} TerminalStays(env: DaemonEnv, before: seq<DaemonOp>, after: seq<DaemonOp>, k: string,
                                         parts: seq<string>, inputs: Inputs)
    requires A.JsonFaithful(env.audit) && AllLeave(env, after, k)
    requires k in BookAfter(env, before).cards && Terminal(BookAfter(env, before).cards[k].state)
    ensures var state, r := BookAfter(env, before).cards[k].state, Answer(env, before + after, parts, inputs);
            && (Says(env, parts, "STATE", 2, k) ==> r == StateOf(state))
            && (Says(env, parts, "GETVERIFIED", 2, k) ==> r == Nil || (r.Verified? && r.response.state == state))
  {
    StretchLeaves(env, before, after, k);
    ReadsAnswer(env, before + after, parts, inputs, k);
  }

  lemma RevokedCard(book: Book, key: string, reason: string, inputs: Inputs)
    requires DoInvalidate(book, key, reason, inputs).1 == Done
    ensures var after := DoInvalidate(book, key, reason, inputs).0;
            key in after.cards && after.cards[key].state == Revoked(reason, inputs.now, None)
  {
  }

  lemma LinkedCard(book: Book, oldKey: string, newKey: string, inputs: Inputs)
    requires DoSupersede(book, oldKey, newKey, inputs).1 == Done
    ensures var after := DoSupersede(book, oldKey, newKey, inputs).0;
            newKey in book.cards && oldKey in after.cards
            && after.cards[oldKey].state == Superseded(book.cards[newKey].address)
  {
  }

  lemma InvalidateIs(env: DaemonEnv, book: Book, parts: seq<string>, inputs: Inputs, check: Check, stored: u64, k: string)
    requires Says(env, parts, "INVALIDATE", 4, k)
    ensures Do(env, book, parts, inputs, check, stored) == DoInvalidate(book, k, Spoken(parts[3..]), inputs)
  {
  }

  lemma SupersedeIs(env: DaemonEnv, book: Book, parts: seq<string>, inputs: Inputs, check: Check, stored: u64, k: string)
    requires Says(env, parts, "SUPERSEDE", 3, k)
    ensures Do(env, book, parts, inputs, check, stored) == DoSupersede(book, k, parts[2], inputs)
  {
  }

  /** A command changes the book as it answers. */
  lemma {:induction false} CommandIsKept(env: DaemonEnv, ops: seq<DaemonOp>, parts: seq<string>, inputs: Inputs,
                                         check: Check, stored: u64)
    requires A.JsonFaithful(env.audit)
    requires check == CheckOf(env, RunDaemon(env, START, ops).w, KeyIn(parts))
    requires stored == RunDaemon(env, START, ops).w.store.count
    ensures var (after, reply) := Do(env, BookAfter(env, ops), parts, inputs, check, stored);
            BookAfter(env, ops + [Command(parts, inputs)]) == after && Answer(env, ops, parts, inputs) == reply
  {
    DaemonKeepsBook(env, ops, parts, inputs);
    BookLast(env, ops, Command(parts, inputs));
  }

  lemma {:induction false} InvalidateIsKept(env: DaemonEnv, ops: seq<DaemonOp>, parts: seq<string>, inputs: Inputs,
                                            k: string)
    requires A.JsonFaithful(env.audit) && Answer(env, ops, parts, inputs) == Done && Says(env, parts, "INVALIDATE", 4, k)
    ensures var after := BookAfter(env, ops + [Command(parts, inputs)]);
            k in after.cards && after.cards[k].state == Revoked(Spoken(parts[3..]), inputs.now, None)
  {
    var w := RunDaemon(env, START, ops).w;
    var check := CheckOf(env, w, KeyIn(parts));
    CommandIsKept(env, ops, parts, inputs, check, w.store.count);
    InvalidateIs(env, BookAfter(env, ops), parts, inputs, check, w.store.count, k);
    RevokedCard(BookAfter(env, ops), k, Spoken(parts[3..]), inputs);
  }

  lemma {:induction false} SupersedeIsKept(env: DaemonEnv, ops: seq<DaemonOp>, parts: seq<string>, inputs: Inputs, k: string)
    requires A.JsonFaithful(env.audit) && Answer(env, ops, parts, inputs) == Done && Says(env, parts, "SUPERSEDE", 3, k)
    ensures var before, after := BookAfter(env, ops), BookAfter(env, ops + [Command(parts, inputs)]);
            && parts[2] in before.cards && k in after.cards
            && after.cards[k].state == Superseded(before.cards[parts[2]].address)
  {
    var w := RunDaemon(env, START, ops).w;
    var check := CheckOf(env, w, KeyIn(parts));
    CommandIsKept(env, ops, parts, inputs, check, w.store.count);
    SupersedeIs(env, BookAfter(env, ops), parts, inputs, check, w.store.count, k);
    LinkedCard(BookAfter(env, ops), k, parts[2], inputs);
  }

  /**
   Revoked for good. After an INVALIDATE that was answered OK, until the key is set or deleted or the daemon restarts, STATE
   answers Revoked with the reason's words and the clock reading, and so does GETVERIFIED as long as the engine has the key.
   */
  lemma {:induction false} RevokedForGood(env: DaemonEnv, before: seq<DaemonOp>, revoking: seq<string>, inputs: Inputs,
                                          after: seq<DaemonOp>, parts: seq<string>, later: Inputs, k: string)
    requires A.JsonFaithful(env.audit) && Says(env, revoking, "INVALIDATE", 4, k)
    requires Answer(env, before, revoking, inputs) == Done
    requires AllLeave(env, after, k)
    ensures var state := Revoked(Spoken(revoking[3..]), inputs.now, None);
            var r := Answer(env, before + [Command(revoking, inputs)] + after, parts, later);
            && (Says(env, parts, "STATE", 2, k) ==> r == StateOf(state))
            && (Says(env, parts, "GETVERIFIED", 2, k) ==> r == Nil || (r.Verified? && r.response.state == state))
  {
    InvalidateIsKept(env, before, revoking, inputs, k);
    TerminalStays(env, before + [Command(revoking, inputs)], after, k, parts, later);
  }

  /** Superseded for good: likewise with the address the successor's slot then had. */
  lemma {:induction false} SupersededForGood(env: DaemonEnv, before: seq<DaemonOp>, linking: seq<string>, inputs: Inputs,
                                             after: seq<DaemonOp>, parts: seq<string>, later: Inputs, k: string)
    requires A.JsonFaithful(env.audit) && Says(env, linking, "SUPERSEDE", 3, k)
    requires Answer(env, before, linking, inputs) == Done
    requires AllLeave(env, after, k)
    ensures linking[2] in RunDaemon(env, START, before).w.slots
    ensures var state := Superseded(RunDaemon(env, START, before).w.slots[linking[2]].contentAddress);
            var r := Answer(env, before + [Command(linking, inputs)] + after, parts, later);
            && (Says(env, parts, "STATE", 2, k) ==> r == StateOf(state))
            && (Says(env, parts, "GETVERIFIED", 2, k) ==> r == Nil || (r.Verified? && r.response.state == state))
  {
    SupersedeIsKept(env, before, linking, inputs, k);
    RunKeepsBook(env, before);
    var slots := RunDaemon(env, START, before).w.slots;
    assert CardsOf(slots) == BookAfter(env, before).cards;
    assert CardsOf(slots)[linking[2]] == CardOf(slots[linking[2]]);
    TerminalStays(env, before + [Command(linking, inputs)], after, k, parts, later);
  }

  /** Neither a SET of the key nor a restart. */
  predicate Unset(env: DaemonEnv, op: DaemonOp, k: string) { !Sets(env, op, k) && !op.Restart? }

  lemma StepStaysGone(env: DaemonEnv, w: World, book: Book, op: DaemonOp, k: string)
    requires Unset(env, op, k) && k !in book.cache && k !in book.cards
    ensures var after := BookStep(env, w, book, op); k !in after.cache && k !in after.cards
  {
    if Dels(env, op, k) {
      WordIs(env, op.parts);
      BookIs(env, book, op.parts, op.inputs, CheckOf(env, w, k), w.store.count);
    } else {
      StepLeaves(env, w, book, op, k);
      if op != Evict(k) { assert SameCached(book, BookStep(env, w, book, op), k); }
    }
  }

  predicate AllUnset(env: DaemonEnv, ops: seq<DaemonOp>, k: string) { forall i | 0 <= i < |ops| :: Unset(env, ops[i], k) }

  predicate Gone(env: DaemonEnv, ops: seq<DaemonOp>, k: string) {
    k !in BookAfter(env, ops).cache && k !in BookAfter(env, ops).cards
  }

  predicate StaysGone(env: DaemonEnv, before: seq<DaemonOp>, after: seq<DaemonOp>, k: string) {
    AllUnset(env, after, k) ==> Gone(env, before + after, k)
  }

  lemma {:induction false} GoneMore(env: DaemonEnv, before: seq<DaemonOp>, after: seq<DaemonOp>, op: DaemonOp, k: string)
    requires StaysGone(env, before, after, k)
    ensures StaysGone(env, before, after + [op], k)
  {
    if AllUnset(env, after + [op], k) {
      assert (after + [op])[|after|] == op;
      forall i | 0 <= i < |after| ensures after[i] == (after + [op])[i] {
      }
      assert before + after + [op] == before + (after + [op]);
      BookLast(env, before + after, op);
      StepStaysGone(env, RunDaemon(env, START, before + after).w, BookAfter(env, before + after), op, k);
    }
  }

  lemma {:induction false} StretchStaysGone(env: DaemonEnv, before: seq<DaemonOp>, after: seq<DaemonOp>, k: string)
    requires AllUnset(env, after, k) && Gone(env, before, k)
    ensures Gone(env, before + after, k)
  {
    assert before + [] == before;
    forall a: seq<DaemonOp>, o: DaemonOp | StaysGone(env, before, a, k) ensures StaysGone(env, before, a + [o], k) {
      GoneMore(env, before, a, o, k);
    }
    AllSequences((a: seq<DaemonOp>) => StaysGone(env, before, a, k), after);
  }

  lemma {:induction false} DelIsGone(env: DaemonEnv, ops: seq<DaemonOp>, parts: seq<string>, inputs: Inputs, k: string)
    requires Says(env, parts, "DEL", 2, k)
    ensures var after := BookAfter(env, ops + [Command(parts, inputs)]); k !in after.cache && k !in after.cards
  {
    BookLast(env, ops, Command(parts, inputs));
    WordIs(env, parts);
    var w, book := RunDaemon(env, START, ops).w, BookAfter(env, ops);
    BookIs(env, book, parts, inputs, CheckOf(env, w, k), w.store.count);
  }

  /** A DEL answers one exactly if the engine had the key. */
  lemma {:induction false} DelCounts(env: DaemonEnv, ops: seq<DaemonOp>, parts: seq<string>, inputs: Inputs, k: string)
    requires Says(env, parts, "DEL", 2, k)
    ensures Answer(env, ops, parts, inputs) == Deleted(if k in RunDaemon(env, START, ops).w.engine then 1 else 0)
  {
    WordIs(env, parts);
  }

  /** Gone for good: after a DEL, until the key is set or the daemon restarts, all three reads answer Nil. */
  lemma {:induction false} GoneForGood(env: DaemonEnv, before: seq<DaemonOp>, deleting: seq<string>, inputs: Inputs,
                                       after: seq<DaemonOp>, parts: seq<string>, later: Inputs, k: string)
    requires A.JsonFaithful(env.audit) && Says(env, deleting, "DEL", 2, k)
    requires AllUnset(env, after, k)
    ensures var r := Answer(env, before + [Command(deleting, inputs)] + after, parts, later);
            && (Says(env, parts, "GET", 2, k) && !env.safeRead ==> r == Nil)
            && (Says(env, parts, "GETVERIFIED", 2, k) || Says(env, parts, "STATE", 2, k) ==> r == Nil)
  {
    DelIsGone(env, before, deleting, inputs, k);
    StretchStaysGone(env, before + [Command(deleting, inputs)], after, k);
    ReadsAnswer(env, before + [Command(deleting, inputs)] + after, parts, later, k);
  }

  // ── Answers and the log ───────────────────────────────────────────

  /** After a logged run without eviction STATE answers for exactly the keys the log tells of, with the fate it tells. */
  lemma {:induction false} StateIsTold(env: DaemonEnv, ops: seq<DaemonOp>, parts: seq<string>, inputs: Inputs, k: string)
    requires A.JsonFaithful(env.audit) && |ops| < U64_LIMIT && forall i | 0 <= i < |ops| :: LoggedCommand(ops[i])
    requires Says(env, parts, "STATE", 2, k)
    ensures var tales := Retold(A.Readable(env.audit, RunDaemon(env, START, ops).w.log.db));
            var r := Answer(env, ops, parts, inputs);
            && tales.Some? && (k in tales.value <==> r.StateOf?) && (k !in tales.value ==> r == Nil)
            && (k in tales.value ==> FateOf(r.state) == tales.value[k].fate)
  {
    LogTellsRegistry(env, ops);
    ReadsAnswer(env, ops, parts, inputs, k);
    RunKeepsBook(env, ops);
    var slots := RunDaemon(env, START, ops).w.slots;
    if k in slots { assert CardsOf(slots)[k] == CardOf(slots[k]); }
  }

  // ── What a verified read verifies ─────────────────────────────────

  /** Text of two lengths with one hash. */
  lemma AddressesDiffer(env: DaemonEnv, slot: Slot, b: Archive.Bundle)
    ensures Slots.AddressPreimage(env.store.sha3, slot.value, slot.fingerprint) != Archive.AddressPreimage(env.store.sha3, b)
  {
    assert |Slots.AddressPreimage(env.store.sha3, slot.value, slot.fingerprint)| == 64;
    assert |Archive.AddressPreimage(env.store.sha3, b)| == 122;
  }

  /**
   A verified read finds nothing to verify. GETVERIFIED looks a bundle up under the slot's address, which is the hash of
   64 bytes, while bundles are kept under hashes of 122 bytes: after any run its answer is Unverified, or the slot
   and the bundle it found collide.
   */
  lemma {:induction false} NothingIsVerified(env: DaemonEnv, ops: seq<DaemonOp>, parts: seq<string>, inputs: Inputs,
                                             k: string)
    requires Sane(env) && (forall i | 0 <= i < |ops| :: SaneOp(env, ops[i])) && Says(env, parts, "GETVERIFIED", 2, k)
    ensures var w, r := RunDaemon(env, START, ops).w, Answer(env, ops, parts, inputs);
            r.Verified? && r.response.verification != Unverified ==>
              && k in w.slots
              && var slot, found := w.slots[k], Fetched(env.store, w.store.db, w.slots[k].contentAddress);
                 && found.Ok? && found.value.Some?
                 && Collide(env.store.sha3, Slots.AddressPreimage(env.store.sha3, slot.value, slot.fingerprint),
                            Archive.AddressPreimage(env.store.sha3, found.value.value))
  {
    var w := RunDaemon(env, START, ops).w;
    RunAgrees(env, ops);
    WordIs(env, parts);
    var r := Answer(env, ops, parts, inputs);
    if r.Verified? && r.response.verification != Unverified {
      var slot := w.slots[k];
      var found := Fetched(env.store, w.store.db, slot.contentAddress);
      assert AddressRight(env.store.sha3, slot);
      var b := FetchedIsGood(env, w.store.db, slot.contentAddress);
      AddressesDiffer(env, slot, b);
    }
  }

  /** And if it does find one, what it answers is what the bundle's own check says. */
  lemma VerifiedByTwo(env: DaemonEnv, w: World, slot: Slot)
    ensures var (verification, checks) := VerifySlot(env, w, slot);
            var found := Fetched(env.store, w.store.db, slot.contentAddress);
            if slot.fingerprint.inputHash == seq(32, _ => 0) || slot.fingerprint.computationHash == seq(32, _ => 0)
               || found.Err? || found.value.None? then verification == Unverified && checks == None
            else
              var b := found.value.value;
              var m := env.verifiers.mldsa65(b.signerKeys.mldsa65, b.header.contentHash, b.signatures.mldsa65);
              var f := env.verifiers.falcon512(b.signerKeys.falcon512, b.header.contentHash, b.signatures.falcon512);
              var s := env.verifiers.slhdsa128f(b.signerKeys.slhdsa128f, b.header.contentHash, b.signatures.slhdsa128f);
              b.header.magic == [67, 65, 66, 49] ==>
                && (verification == FullyVerified(m && f && s) <==> (m && f) || (m && s) || (f && s))
                && (verification == VerificationFailed("signature check failed: mldsa=" + (if m then "true" else "false")
                                                       + ", falcon=" + (if f then "true" else "false")
                                                       + ", slhdsa=" + (if s then "true" else "false"))
                    <==> !((m && f) || (m && s) || (f && s)))
                && checks.Some? && checks.value.mldsaValid == m && checks.value.falconValid == f
                && checks.value.slhdsaValid == s
                && checks.value.twoOfThree == verification.FullyVerified?
  {
    assert ZERO_DIGEST == seq(32, _ => 0);
  }
}
