/** The audit log against the slot registry: what replaying a key's history gives. */
module Replay {
  import opened Basics
  import opened OrderedMaps
  import opened Fingerprints
  import opened Slots
  import opened Commands
  import opened Agreement
  import opened AuditRuns
  import opened AuditChain
  import opened Runs
  import A = Audit

  // ── The log under the daemon's commands ───────────────────────────

  lemma LoggedIsPerform(env: DaemonEnv, log: A.LogState, event: A.Event, inputs: Inputs)
    ensures Logged(env, log, event, inputs) == Perform(env.audit, log, AppendOp(event, inputs.loggedAt, inputs.logFault))
  {
  }

  lemma LoggedSound(env: DaemonEnv, log: A.LogState, event: A.Event, inputs: Inputs)
    requires A.JsonFaithful(env.audit) && SomeSound(env.audit, log)
    ensures SomeSound(env.audit, Logged(env, log, event, inputs))
  {
    LoggedIsPerform(env, log, event, inputs);
    var es :| Sound(env.audit, log, es);
    var _ := PerformSound(env.audit, log, es, AppendOp(event, inputs.loggedAt, inputs.logFault));
  }

  lemma AnchoredLogSound(env: DaemonEnv, w: World, inputs: Inputs)
    requires A.JsonFaithful(env.audit) && SomeSound(env.audit, w.log)
    ensures SomeSound(env.audit, AnchorTaken(env, w, inputs).log)
  {
    var es :| Sound(env.audit, w.log, es);
    var _ := PerformSound(env.audit, w.log, es, AnchorOp(inputs.loggedAt, inputs.logFault));
  }

  lemma EffectLogSound(env: DaemonEnv, w: World, effect: Effect, inputs: Inputs)
    requires A.JsonFaithful(env.audit) && SomeSound(env.audit, w.log)
    ensures SomeSound(env.audit, Apply(env, w, effect, inputs).log)
  {
    match effect
    case Nothing =>
    case Set(key, value, fp) =>
      LoggedSound(env, w.log, CreatedEvent(env, key, NewSlot(env.store.sha3, value, fp, inputs.now)), inputs);
    case Delete(key) => LoggedSound(env, w.log, A.EntryDeleted(key), inputs);
    case Move(_, _, event) => LoggedSound(env, w.log, event, inputs);
    case Note(event) => LoggedSound(env, w.log, event, inputs);
    case Anchor => AnchoredLogSound(env, w, inputs);
  }

  lemma OpenedAgain(env: A.AuditEnv, log: A.LogState, issuerId: string)
    requires A.JsonFaithful(env) && SomeSound(env, log)
    ensures A.Opened(env, log.db, issuerId).Ok? && SomeSound(env, A.Opened(env, log.db, issuerId).value)
  {
    var es :| Sound(env, log, es);
    OpenedSound(env, log.db, es, issuerId);
  }

  lemma ColdStartLog(env: DaemonEnv, w: World, start: A.Event, inputs: Inputs)
    requires A.JsonFaithful(env.audit) && SomeSound(env.audit, w.log)
    ensures var started := ColdStart(env, w.store.db, w.log.db, start, inputs);
            started.Some? && SomeSound(env.audit, started.value.log)
  {
    OpenedAgain(env.audit, w.log, env.issuerId);
    LoggedSound(env, A.Opened(env.audit, w.log.db, env.issuerId).value, start, inputs);
  }

  lemma StepLogSound(env: DaemonEnv, t: Tracked, op: DaemonOp)
    requires A.JsonFaithful(env.audit) && SomeSound(env.audit, t.w.log)
    ensures SomeSound(env.audit, Step(env, t, op).w.log)
  {
    match op
    case Command(parts, inputs) =>
      EffectLogSound(env, t.w, EffectOf(env, t.w, parts, inputs), inputs);
    case Evict(_) =>
    case Restart(start, inputs) => ColdStartLog(env, t.w, start, inputs);
  }

  lemma RunLogSound(env: DaemonEnv, ops: seq<DaemonOp>)
    requires A.JsonFaithful(env.audit)
    ensures SomeSound(env.audit, RunDaemon(env, START, ops).w.log)
  {
    EmptyLogSound(env.audit);
    forall t: Tracked, op: DaemonOp | SomeSound(env.audit, t.w.log) ensures SomeSound(env.audit, Step(env, t, op).w.log) {
      StepLogSound(env, t, op);
    }
    RunKeeps((s: Tracked, op: DaemonOp) => Step(env, s, op), (_: DaemonOp) => true,
             (s: Tracked) => SomeSound(env.audit, s.w.log), START, ops);
  }

  /**
   Whatever the daemon has been through, including writes that failed and restarts, its log passes verification from end to
   end, and it can be started again.
   */
  lemma DaemonLogIsIntact(env: DaemonEnv, ops: seq<DaemonOp>, start: A.Event, inputs: Inputs)
    requires A.JsonFaithful(env.audit)
    ensures var w := RunDaemon(env, START, ops).w;
            && A.CheckFrom(env.audit, w.log.db, 0, ZERO_DIGEST) == A.Checked(|w.log.db|, None)
            && ColdStart(env, w.store.db, w.log.db, start, inputs).Some?
  {
    RunLogSound(env, ops);
    var w := RunDaemon(env, START, ops).w;
    SoundLogVerifies(env.audit, w.log);
    ColdStartLog(env, w, start, inputs);
  }

  lemma {:induction false} SoundLogVerifies(env: A.AuditEnv, log: A.LogState)
    requires A.JsonFaithful(env) && SomeSound(env, log)
    ensures A.CheckFrom(env, log.db, 0, ZERO_DIGEST) == A.Checked(|log.db|, None)
  {
    var es :| Sound(env, log, es);
    RecordedReads(env, log.db, es);
    VerifyChainIsRight(env, log.db);
  }

  // ── Replaying a history ───────────────────────────────────────────

  /** A key's lifecycle as a log can tell it. */
  datatype Label = Absent | Live | Replaced | Withdrawn(reason: string) | Other

  function LabelOf(slots: map<string, Slot>, key: string): Label {
    if key !in slots then Absent
    else
      match slots[key].state
      case Active => Live
      case Superseded(_) => Replaced
      case Revoked(reason, _, _) => Withdrawn(reason)
      case _ => Other
  }

  /** One event on top of a label. An event that contradicts the label, or says the wrong `from`, has no result. */
  function Follow(before: Option<Label>, event: A.Event): Option<Label> {
    if before.None? then None
    else
      match event
      case EntryCreated(_, _, _, _) => Some(Live)
      case EntryDeleted(_) => if before.value.Absent? then None else Some(Absent)
      case StateTransition(_, from, to, _, reason) =>
        if before.value.Live? && from == "Active"
        then Some(if to == "Revoked" then Withdrawn(reason.GetOr("")) else Replaced)
        else None
      case _ => before
  }

  function Replayed(es: seq<A.AuditEntry>): Option<Label> {
    if es == [] then Some(Absent)
    else Follow(Replayed(es[..|es| - 1]), es[|es| - 1].event)
  }

  lemma {:induction false} ReplayedNext(es: seq<A.AuditEntry>, e: A.AuditEntry)
    ensures Replayed(es + [e]) == Follow(Replayed(es), e.event)
  {
    assert (es + [e])[..|es|] == es;
  }

  function HistoryIn(env: DaemonEnv, log: A.LogState, key: string): seq<A.AuditEntry> {
    A.HistoryOf(A.Readable(env.audit, log.db), key)
  }

  /** Replaying the key's history gives the state of its slot. */
  predicate Replays(env: DaemonEnv, w: World, key: string) {
    Replayed(HistoryIn(env, w.log, key)) == Some(LabelOf(w.slots, key))
  }

  // ── What a replayable history looks like ──────────────────────────

  lemma {:induction false} PrefixReplays(es: seq<A.AuditEntry>, n: nat)
    requires Replayed(es).Some? && n <= |es|
    ensures Replayed(es[..n]).Some?
    decreases |es|
  {
    if n < |es| {
      PrefixReplays(es[..|es| - 1], n);
      assert es[..|es| - 1][..n] == es[..n];
    } else {
      assert es[..n] == es;
    }
  }

  lemma {:induction false} LiveSinceCreation(es: seq<A.AuditEntry>, i: nat) returns (m: nat)
    requires Replayed(es) == Some(Live) && i < |es| && es[i].event.StateTransition?
    ensures i < m < |es| && es[m].event.EntryCreated?
    decreases |es|
  {
    var n := |es| - 1;
    if es[n].event.EntryCreated? {
      m := n;
    } else {
      m := LiveSinceCreation(es[..n], i);
    }
  }

  /** In a history that replays every transition starts from Active, and between two of them the entry was created anew. */
  lemma {:induction false} OneTransitionPerIncarnation(es: seq<A.AuditEntry>, i: nat, j: nat)
    requires Replayed(es).Some? && i < j < |es| && es[i].event.StateTransition? && es[j].event.StateTransition?
    ensures es[j].event.fromState == "Active"
    ensures exists m | i < m < j :: es[m].event.EntryCreated?
  {
    PrefixReplays(es, j + 1);
    assert es[..j + 1][..j] == es[..j];
    var m := LiveSinceCreation(es[..j], i);
    assert es[m] == es[..j][m];
  }

  // ── One command ───────────────────────────────────────────────────

  /** A log whose memory matches its disk and that has room for another entry. */
  ghost predicate Ready(env: DaemonEnv, log: A.LogState) {
    A.JsonFaithful(env.audit) && NothingUnflushed(env.audit, log) && A.HasRoom(log)
  }

  lemma LogGrows(env: DaemonEnv, log: A.LogState, event: A.Event, inputs: Inputs)
    requires Ready(env, log) && inputs.logFault == NoFault
    ensures var after := Logged(env, log, event, inputs);
            && A.Readable(env.audit, after.db)
               == A.Readable(env.audit, log.db) + [A.NewEntry(env.audit, log, event, inputs.loggedAt)]
            && NothingUnflushed(env.audit, after) && after.nextSequence == log.nextSequence + 1
  {
    var es :| Sound(env.audit, log, es);
    AppendedSound(env.audit, log, es, event, inputs.loggedAt, NoFault);
    RecordedReads(env.audit, log.db, es);
    assert es[..log.nextSequence] == es;
    RecordedReads(env.audit, Logged(env, log, event, inputs).db, es + [A.NewEntry(env.audit, log, event, inputs.loggedAt)]);
  }

  /** What a logged event adds to the history of a key. */
  lemma HistoryGrows(env: DaemonEnv, log: A.LogState, event: A.Event, inputs: Inputs, key: string)
    requires Ready(env, log) && inputs.logFault == NoFault
    ensures Replayed(HistoryIn(env, Logged(env, log, event, inputs), key))
         == if A.Concerns(event, key) then Follow(Replayed(HistoryIn(env, log, key)), event)
            else Replayed(HistoryIn(env, log, key))
  {
    var e := A.NewEntry(env.audit, log, event, inputs.loggedAt);
    LogGrows(env, log, event, inputs);
    A.HistoryNext(A.Readable(env.audit, log.db), e, key);
    if A.Concerns(event, key) {
      ReplayedNext(HistoryIn(env, log, key), e);
    } else {
      assert HistoryIn(env, log, key) + [] == HistoryIn(env, log, key);
    }
  }

  /** The event of a lifecycle step says what the step does; of a successor it names the key. */
  predicate Tells(slots: map<string, Slot>, key: string, to: EntryState, event: A.Event) {
    match to
    case Revoked(reason, _, _) => event == A.StateTransition(key, "Active", "Revoked", "System", Some(reason))
    case Superseded(successor) =>
      exists n | n in slots :: NamesSuccessor(slots, key, successor, n, event)
    case _ => false
  }

  predicate NamesSuccessor(slots: map<string, Slot>, key: string, successor: Digest, n: string, event: A.Event)
    requires n in slots
  {
    successor == slots[n].contentAddress && event == A.StateTransition(key, "Active", SupersededBy(n), "System", None)
  }

  predicate Told(slots: map<string, Slot>, effect: Effect) {
    match effect
    case Move(key, to, event) => key in slots && Legal(slots[key].state, to) && Tells(slots, key, to, event)
    case Note(event) => event.VerificationPerformed? || event.VerificationFailed?
    case _ => true
  }

  lemma EffectIsTold(env: DaemonEnv, w: World, parts: seq<string>, inputs: Inputs)
    ensures Told(w.slots, EffectOf(env, w, parts, inputs))
  {
    if |parts| >= 3 && VerbIn(env, parts).SupersedeVerb? {
      var e := SupersedeEffect(w, parts[1], parts[2]);
      assert e.Move? ==> NamesSuccessor(w.slots, parts[1], e.to.successor, parts[2], e.event);
    }
  }

  /** The registry forgets the key and the log does not hear of it: a DEL of a slot the engine has dropped. */
  predicate SilentDelete(w: World, effect: Effect, key: string) {
    effect == Delete(key) && key in w.slots && key !in w.engine
  }

  /** A logged event that says what happened to the key's label. */
  lemma EventReplays(env: DaemonEnv, w: World, w': World, event: A.Event, inputs: Inputs, key: string)
    requires Ready(env, w.log) && inputs.logFault == NoFault && Replays(env, w, key)
    requires w'.log == Logged(env, w.log, event, inputs)
    requires Some(LabelOf(w'.slots, key))
          == if A.Concerns(event, key) then Follow(Some(LabelOf(w.slots, key)), event) else Some(LabelOf(w.slots, key))
    ensures Replays(env, w', key)
  {
    HistoryGrows(env, w.log, event, inputs, key);
  }

  lemma AnchorReplays(env: DaemonEnv, w: World, inputs: Inputs, key: string)
    requires Ready(env, w.log) && inputs.logFault == NoFault && Replays(env, w, key)
    ensures Replays(env, AnchorTaken(env, w, inputs), key)
  {
    if A.Unanchored(w.log) != [] {
      HistoryGrows(env, w.log, A.AnchorEvent(env.audit, w.log), inputs, key);
    }
  }

  lemma SetReplays(env: DaemonEnv, w: World, k: string, value: Bytes, fp: Fingerprint, inputs: Inputs, key: string)
    requires Ready(env, w.log) && inputs.logFault == NoFault && Replays(env, w, key)
    ensures Replays(env, Commands.Stored(env, w, k, value, fp, inputs), key)
  {
    var slot := NewSlot(env.store.sha3, value, fp, inputs.now);
    EventReplays(env, w, Commands.Stored(env, w, k, value, fp, inputs), CreatedEvent(env, k, slot), inputs, key);
  }

  lemma LabelAfterDelete(slots: map<string, Slot>, k: string, key: string)
    ensures LabelOf(slots - {k}, key) == if key == k then Absent else LabelOf(slots, key)
  {
  }

  lemma DeleteReplays(env: DaemonEnv, w: World, k: string, inputs: Inputs, key: string)
    requires Ready(env, w.log) && inputs.logFault == NoFault && EngineBacked(w) && Replays(env, w, key)
    ensures Replays(env, Removed(env, w, k, inputs), key) <==> !SilentDelete(w, Delete(k), key)
  {
    LabelAfterDelete(w.slots, k, key);
    if k in w.engine {
      assert k in w.slots;
      EventReplays(env, w, Removed(env, w, k, inputs), A.EntryDeleted(k), inputs, key);
    }
  }

  lemma ReplacedIsNotRevoked(slots: map<string, Slot>, key: string, to: EntryState, event: A.Event)
    requires Tells(slots, key, to, event)
    ensures event.StateTransition? && event.key == key && event.fromState == "Active"
    ensures event.toState == "Revoked" <==> to.Revoked?
  {
    if to.Superseded? {
      var n :| n in slots && NamesSuccessor(slots, key, to.successor, n, event);
      assert SupersededBy(n)[0] == 'S' && "Revoked"[0] == 'R';
    }
  }

  lemma MoveReplays(env: DaemonEnv, w: World, k: string, to: EntryState, event: A.Event, inputs: Inputs, key: string)
    requires Ready(env, w.log) && inputs.logFault == NoFault && Replays(env, w, key)
    requires Told(w.slots, Move(k, to, event))
    ensures Replays(env, Moved(env, w, k, to, event, inputs), key)
  {
    ReplacedIsNotRevoked(w.slots, k, to, event);
    EventReplays(env, w, Moved(env, w, k, to, event, inputs), event, inputs, key);
  }

  lemma NoteReplays(env: DaemonEnv, w: World, event: A.Event, inputs: Inputs, key: string)
    requires Ready(env, w.log) && inputs.logFault == NoFault && Replays(env, w, key)
    requires event.VerificationPerformed? || event.VerificationFailed?
    ensures Replays(env, w.(log := Logged(env, w.log, event, inputs)), key)
  {
    EventReplays(env, w, w.(log := Logged(env, w.log, event, inputs)), event, inputs, key);
  }

  /** With the log written, replaying a key keeps up with one effect exactly when it is not a silent delete. */
  lemma EffectReplays(env: DaemonEnv, w: World, effect: Effect, inputs: Inputs, key: string)
    requires Ready(env, w.log) && inputs.logFault == NoFault && EngineBacked(w) && Replays(env, w, key)
    requires Told(w.slots, effect)
    ensures Replays(env, Apply(env, w, effect, inputs), key) <==> !SilentDelete(w, effect, key)
  {
    match effect
    case Nothing =>
    case Set(k, value, fp) => SetReplays(env, w, k, value, fp, inputs, key);
    case Delete(k) => DeleteReplays(env, w, k, inputs, key);
    case Move(k, to, event) => MoveReplays(env, w, k, to, event, inputs, key);
    case Note(event) => NoteReplays(env, w, event, inputs, key);
    case Anchor => AnchorReplays(env, w, inputs, key);
  }

  lemma SilentDeleteIsDel(env: DaemonEnv, w: World, parts: seq<string>, inputs: Inputs, key: string)
    ensures SilentDelete(w, EffectOf(env, w, parts, inputs), key)
       <==> VerbIn(env, parts).DelVerb? && |parts| >= 2 && parts[1] == key && key in w.slots && key !in w.engine
  {
  }

  /**
   The log keeps up with the registry. If a key's history replays to its state before a command whose append succeeds,
   it does so after it, except after a DEL of a registered key the engine has already dropped.
   */
  lemma CommandReplays(env: DaemonEnv, w: World, parts: seq<string>, inputs: Inputs, key: string)
    requires Ready(env, w.log) && inputs.logFault == NoFault && EngineBacked(w) && Replays(env, w, key)
    ensures Replays(env, Exec(env, w, parts, inputs).0, key)
       <==> !(VerbIn(env, parts).DelVerb? && |parts| >= 2 && parts[1] == key && key in w.slots && key !in w.engine)
  {
    EffectIsTold(env, w, parts, inputs);
    SilentDeleteIsDel(env, w, parts, inputs, key);
    EffectReplays(env, w, EffectOf(env, w, parts, inputs), inputs, key);
  }

  // ── Whole runs ────────────────────────────────────────────────────

  /** Without evictions the engine and the registry hold the same keys. */
  predicate SameKeys(w: World) { EngineBacked(w) && w.engine.Keys == w.slots.Keys }

  lemma EffectSameKeys(env: DaemonEnv, w: World, effect: Effect, inputs: Inputs)
    requires SameKeys(w)
    ensures SameKeys(Apply(env, w, effect, inputs))
  {
  }

  /** One entry more or none, nothing left unflushed. */
  ghost predicate GrewByOne(env: DaemonEnv, before: A.LogState, after: A.LogState) {
    NothingUnflushed(env.audit, after) && before.nextSequence <= after.nextSequence <= before.nextSequence + 1
  }

  lemma LoggedReady(env: DaemonEnv, log: A.LogState, event: A.Event, inputs: Inputs)
    requires Ready(env, log) && inputs.logFault == NoFault
    ensures GrewByOne(env, log, Logged(env, log, event, inputs))
  {
    LogGrows(env, log, event, inputs);
  }

  lemma AnchorReady(env: DaemonEnv, w: World, inputs: Inputs)
    requires Ready(env, w.log) && inputs.logFault == NoFault
    ensures GrewByOne(env, w.log, AnchorTaken(env, w, inputs).log)
  {
    PerformLeavesNothing(env.audit, w.log, AnchorOp(inputs.loggedAt, inputs.logFault));
  }

  lemma EffectReady(env: DaemonEnv, w: World, effect: Effect, inputs: Inputs)
    requires Ready(env, w.log) && inputs.logFault == NoFault
    ensures GrewByOne(env, w.log, Apply(env, w, effect, inputs).log)
  {
    match effect
    case Nothing =>
    case Set(k, value, fp) =>
      LoggedReady(env, w.log, CreatedEvent(env, k, NewSlot(env.store.sha3, value, fp, inputs.now)), inputs);
    case Delete(k) => LoggedReady(env, w.log, A.EntryDeleted(k), inputs);
    case Move(_, _, event) => LoggedReady(env, w.log, event, inputs);
    case Note(event) => LoggedReady(env, w.log, event, inputs);
    case Anchor => AnchorReady(env, w, inputs);
  }

  /** A command whose append succeeds. */
  predicate LoggedCommand(op: DaemonOp) { op.Command? && op.inputs.logFault == NoFault }

  lemma {:induction false} ReplayFrom(env: DaemonEnv, t: Tracked, ops: seq<DaemonOp>, key: string)
    requires A.JsonFaithful(env.audit) && NothingUnflushed(env.audit, t.w.log) && SameKeys(t.w) && Replays(env, t.w, key)
    requires forall i | 0 <= i < |ops| :: LoggedCommand(ops[i])
    requires t.w.log.nextSequence + |ops| < U64_LIMIT
    ensures Replays(env, RunDaemon(env, t, ops).w, key)
    decreases |ops|
  {
    if ops != [] {
      var parts, inputs := ops[0].parts, ops[0].inputs;
      var effect := EffectOf(env, t.w, parts, inputs);
      EffectReady(env, t.w, effect, inputs);
      EffectSameKeys(env, t.w, effect, inputs);
      CommandReplays(env, t.w, parts, inputs, key);
      ReplayFrom(env, Step(env, t, ops[0]), ops[1..], key);
    }
  }

  /**
   The audit log is replayable. For commands run one at a time on an empty daemon, every append succeeding and the engine
   dropping nothing, replaying the history of any key gives exactly the state of its slot.
   */
  lemma LogIsReplayable(env: DaemonEnv, ops: seq<DaemonOp>, key: string)
    requires A.JsonFaithful(env.audit) && |ops| < U64_LIMIT && forall i | 0 <= i < |ops| :: LoggedCommand(ops[i])
    ensures Replays(env, RunDaemon(env, START, ops).w, key)
  {
    EmptyLogSound(env.audit);
    ReplayFrom(env, START, ops, key);
  }

  /** In particular every recorded transition did start from Active, and no incarnation of a slot has two. */
  lemma TransitionsInRun(env: DaemonEnv, ops: seq<DaemonOp>, key: string, i: nat, j: nat)
    requires A.JsonFaithful(env.audit) && |ops| < U64_LIMIT && forall n | 0 <= n < |ops| :: LoggedCommand(ops[n])
    ensures var es := HistoryIn(env, RunDaemon(env, START, ops).w.log, key);
            && (i < |es| && es[i].event.StateTransition? ==> es[i].event.fromState == "Active")
            && (i < j < |es| && es[i].event.StateTransition? && es[j].event.StateTransition? ==>
                  exists m | i < m < j :: es[m].event.EntryCreated?)
  {
    LogIsReplayable(env, ops, key);
    var es := HistoryIn(env, RunDaemon(env, START, ops).w.log, key);
    if i < |es| && es[i].event.StateTransition? {
      TransitionStartsActive(es, i);
      if i < j < |es| && es[j].event.StateTransition? {
        OneTransitionPerIncarnation(es, i, j);
      }
    }
  }

  lemma {:induction false} TransitionStartsActive(es: seq<A.AuditEntry>, i: nat)
    requires Replayed(es).Some? && i < |es| && es[i].event.StateTransition?
    ensures es[i].event.fromState == "Active"
  {
    PrefixReplays(es, i + 1);
    assert es[..i + 1][..i] == es[..i];
  }

  /** A SET of a key that the engine drops at once leaves a slot that replays and that only the registry still has. */
  lemma SetThenEvict(env: DaemonEnv, key: string, value: string, inputs: Inputs)
    requires A.JsonFaithful(env.audit) && inputs.logFault == NoFault && !env.strictMode
    requires env.upper("SET") == "SET" && !IsFpWord(key) && !IsFpWord(value)
    ensures var w1 := Exec(env, EMPTY_WORLD, ["SET", key, value], inputs).0;
            var w2 := Step(env, Tracked(w1, map[], map[]), Evict(key)).w;
            && Replays(env, w1, key) && Replays(env, w2, key) && Ready(env, w2.log) && EngineBacked(w2)
            && key in w2.slots && key !in w2.engine && LabelOf(w2.slots, key) == Live
  {
    var store := ["SET", key, value];
    EmptyLogSound(env.audit);
    NoFpIn(key, value);
    assert VerbIn(env, store) == SetVerb;
    CommandReplays(env, EMPTY_WORLD, store, inputs, key);
    EffectReady(env, EMPTY_WORLD, EffectOf(env, EMPTY_WORLD, store, inputs), inputs);
  }

  /** The exception is real: after that a DEL leaves a log that still shows the slot as live. */
  lemma EvictionBreaksReplay(env: DaemonEnv, key: string, value: string, inputs: Inputs)
    requires A.JsonFaithful(env.audit) && inputs.logFault == NoFault && !env.strictMode
    requires env.upper("SET") == "SET" && env.upper("DEL") == "DEL" && !IsFpWord(key) && !IsFpWord(value)
    ensures var w1 := Exec(env, EMPTY_WORLD, ["SET", key, value], inputs).0;
            var w2 := Step(env, Tracked(w1, map[], map[]), Evict(key)).w;
            var w3 := Exec(env, w2, ["DEL", key], inputs).0;
            && Replays(env, w1, key) && Replays(env, w2, key) && !Replays(env, w3, key)
            && key !in w3.slots && Replayed(HistoryIn(env, w3.log, key)) == Some(Live)
  {
    var w1 := Exec(env, EMPTY_WORLD, ["SET", key, value], inputs).0;
    SetThenEvict(env, key, value, inputs);
    DelOfDropped(env, Step(env, Tracked(w1, map[], map[]), Evict(key)).w, key, inputs);
  }

  lemma DelOfDropped(env: DaemonEnv, w: World, key: string, inputs: Inputs)
    requires Ready(env, w.log) && inputs.logFault == NoFault && EngineBacked(w) && Replays(env, w, key)
    requires env.upper("DEL") == "DEL" && key in w.slots && key !in w.engine
    ensures var after := Exec(env, w, ["DEL", key], inputs).0;
            && !Replays(env, after, key) && key !in after.slots && after.log == w.log
  {
    DelEffect(env, w, key, inputs);
    EffectReplays(env, w, Delete(key), inputs, key);
  }

  lemma DelEffect(env: DaemonEnv, w: World, key: string, inputs: Inputs)
    requires env.upper("DEL") == "DEL"
    ensures EffectOf(env, w, ["DEL", key], inputs) == Delete(key)
  {
    assert VerbIn(env, ["DEL", key]) == DelVerb;
  }

  lemma NoFpIn(key: string, value: string)
    requires !IsFpWord(key) && !IsFpWord(value)
    ensures FpIndex(["SET", key, value]) == 3
  {
  }
}
