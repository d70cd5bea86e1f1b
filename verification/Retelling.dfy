/** The whole audit log against the whole registry: addresses, fingerprints and successors are in the log too. */
module Retelling {
  import opened Basics
  import opened OrderedMaps
  import opened Fingerprints
  import opened Slots
  import opened Commands
  import opened Agreement
  import opened AuditRuns
  import opened Replay
  import A = Audit

  // ── What the log tells about a slot ───────────────────────────────

  datatype Fate = Alive | GivenWay(successor: Digest) | TakenBack(reason: string) | Untold

  /** A slot as the log can tell it: all but its value, its clock readings and an attestation. */
  datatype Tale = Tale(address: Digest, fingerprint: Digest, fate: Fate)

  type Tales = map<string, Tale>

  function FateOf(state: EntryState): Fate {
    match state
    case Active => Alive
    case Superseded(successor) => GivenWay(successor)
    case Revoked(reason, _, _) => TakenBack(reason)
    case _ => Untold
  }

  function TaleOf(env: DaemonEnv, slot: Slot): Tale {
    Tale(slot.contentAddress, DigestOf(env.store.sha3, slot.fingerprint), FateOf(slot.state))
  }

  function TalesOf(env: DaemonEnv, slots: map<string, Slot>): Tales {
    map k | k in slots :: TaleOf(env, slots[k])
  }

  // ── Reading it back ───────────────────────────────────────────────

  function DigestIn(text: string): Option<Digest> {
    match HexDecode(text)
    case Some(b) => if |b| == 32 then Some(b) else None
    case None => None
  }

  /** The key named by "Superseded(key)". */
  function SuccessorKey(text: string): Option<string> {
    if |text| >= 12 && text[..11] == "Superseded(" && text[|text| - 1] == ')' then Some(text[11..|text| - 1]) else None
  }

  function FateTold(tales: Tales, to: string, reason: Option<string>): Option<Fate> {
    if to == "Revoked" then Some(TakenBack(reason.GetOr("")))
    else
      match SuccessorKey(to)
      case Some(n) => if n in tales then Some(GivenWay(tales[n].address)) else None
      case None => None
  }

  /** One event on top of what was told before; an event that contradicts it has no result. */
  function Tell(before: Option<Tales>, event: A.Event): Option<Tales> {
    if before.None? then None
    else
      var tales := before.value;
      match event
      case EntryCreated(key, address, fingerprint, _) =>
        (match (DigestIn(address), DigestIn(fingerprint))
         case (Some(a), Some(f)) => Some(tales[key := Tale(a, f, Alive)])
         case _ => None)
      case EntryDeleted(key) => if key in tales then Some(tales - {key}) else None
      case StateTransition(key, from, to, _, reason) =>
        if key in tales && tales[key].fate.Alive? && from == "Active" then
          match FateTold(tales, to, reason)
          case Some(fate) => Some(tales[key := tales[key].(fate := fate)])
          case None => None
        else None
      case _ => before
  }

  function Retold(es: seq<A.AuditEntry>): Option<Tales> {
    if es == [] then Some(map[])
    else Tell(Retold(es[..|es| - 1]), es[|es| - 1].event)
  }

  lemma {:induction false} RetoldNext(es: seq<A.AuditEntry>, e: A.AuditEntry)
    ensures Retold(es + [e]) == Tell(Retold(es), e.event)
  {
    assert (es + [e])[..|es|] == es;
  }

  /** Retelling the whole log gives the whole registry. */
  predicate TellsAll(env: DaemonEnv, w: World) {
    Retold(A.Readable(env.audit, w.log.db)) == Some(TalesOf(env, w.slots))
  }

  // ── One effect ────────────────────────────────────────────────────

  lemma {:induction false} DigestText(d: Digest)
    ensures DigestIn(HexEncode(d)) == Some(d)
  {
    HexRoundTrip(d);
  }

  lemma SuccessorText(n: string)
    ensures SuccessorKey(SupersededBy(n)) == Some(n)
    ensures SupersededBy(n) != "Revoked"
  {
    var text := SupersededBy(n);
    assert |"Superseded("| == 11 && |text| == 12 + |n|;
    assert text[..11] == "Superseded(" && text[11..|text| - 1] == n && text[|text| - 1] == ')';
    assert text[0] == 'S' && "Revoked"[0] == 'R';
  }

  /** A logged event that tells what happened to the registry. */
  lemma EventTells(env: DaemonEnv, w: World, w': World, event: A.Event, inputs: Inputs)
    requires Ready(env, w.log) && inputs.logFault == NoFault && TellsAll(env, w)
    requires w'.log == Logged(env, w.log, event, inputs)
    ensures TellsAll(env, w') <==> Tell(Some(TalesOf(env, w.slots)), event) == Some(TalesOf(env, w'.slots))
  {
    LogGrows(env, w.log, event, inputs);
    RetoldNext(A.Readable(env.audit, w.log.db), A.NewEntry(env.audit, w.log, event, inputs.loggedAt));
  }

  lemma TalesAfter(env: DaemonEnv, slots: map<string, Slot>, key: string, slot: Slot)
    ensures TalesOf(env, slots[key := slot]) == TalesOf(env, slots)[key := TaleOf(env, slot)]
  {
  }

  lemma CreationTold(env: DaemonEnv, tales: Tales, key: string, slot: Slot)
    ensures Tell(Some(tales), CreatedEvent(env, key, slot)) == Some(tales[key := TaleOf(env, slot).(fate := Alive)])
  {
    DigestText(slot.contentAddress);
    DigestText(DigestOf(env.store.sha3, slot.fingerprint));
  }

  lemma SetTells(env: DaemonEnv, w: World, key: string, value: Bytes, fp: Fingerprint, inputs: Inputs)
    requires Ready(env, w.log) && inputs.logFault == NoFault && TellsAll(env, w)
    ensures TellsAll(env, Commands.Stored(env, w, key, value, fp, inputs))
  {
    var slot := NewSlot(env.store.sha3, value, fp, inputs.now);
    TalesAfter(env, w.slots, key, slot);
    CreationTold(env, TalesOf(env, w.slots), key, slot);
    EventTells(env, w, Commands.Stored(env, w, key, value, fp, inputs), CreatedEvent(env, key, slot), inputs);
  }

  lemma DeleteTells(env: DaemonEnv, w: World, key: string, inputs: Inputs)
    requires Ready(env, w.log) && inputs.logFault == NoFault && EngineBacked(w) && TellsAll(env, w)
    ensures TellsAll(env, Removed(env, w, key, inputs)) <==> !SilentDelete(w, Delete(key), key)
  {
    assert TalesOf(env, w.slots - {key}) == TalesOf(env, w.slots) - {key};
    if key in w.engine {
      EventTells(env, w, Removed(env, w, key, inputs), A.EntryDeleted(key), inputs);
    } else if key in w.slots {
      assert key in TalesOf(env, w.slots) && key !in TalesOf(env, w.slots - {key});
    } else {
      assert w.slots - {key} == w.slots;
    }
  }

  lemma FateIsTold(env: DaemonEnv, slots: map<string, Slot>, key: string, to: EntryState, event: A.Event)
    requires Tells(slots, key, to, event)
    ensures event.StateTransition? && event.key == key && event.fromState == "Active"
    ensures FateTold(TalesOf(env, slots), event.toState, event.reason) == Some(FateOf(to))
  {
    if to.Superseded? {
      var n :| n in slots && NamesSuccessor(slots, key, to.successor, n, event);
      SuccessorText(n);
    }
  }

  lemma MoveTells(env: DaemonEnv, w: World, key: string, to: EntryState, event: A.Event, inputs: Inputs)
    requires Ready(env, w.log) && inputs.logFault == NoFault && TellsAll(env, w) && Told(w.slots, Move(key, to, event))
    ensures TellsAll(env, Moved(env, w, key, to, event, inputs))
  {
    var before := TalesOf(env, w.slots);
    FateIsTold(env, w.slots, key, to, event);
    TalesAfter(env, w.slots, key, w.slots[key].(state := to));
    EventTells(env, w, Moved(env, w, key, to, event, inputs), event, inputs);
  }

  lemma AnchorTells(env: DaemonEnv, w: World, inputs: Inputs)
    requires Ready(env, w.log) && inputs.logFault == NoFault && TellsAll(env, w)
    ensures TellsAll(env, AnchorTaken(env, w, inputs))
  {
    if A.Unanchored(w.log) != [] {
      var event := A.AnchorEvent(env.audit, w.log);
      EventTells(env, w, w.(log := Logged(env, w.log, event, inputs)), event, inputs);
    }
  }

  /** A deletion that the log does not hear of. */
  predicate Silent(w: World, effect: Effect) { effect.Delete? && SilentDelete(w, effect, effect.key) }

  lemma EffectTells(env: DaemonEnv, w: World, effect: Effect, inputs: Inputs)
    requires Ready(env, w.log) && inputs.logFault == NoFault && EngineBacked(w) && TellsAll(env, w)
    requires Told(w.slots, effect)
    ensures TellsAll(env, Apply(env, w, effect, inputs)) <==> !Silent(w, effect)
  {
    match effect
    case Nothing =>
    case Set(key, value, fp) => SetTells(env, w, key, value, fp, inputs);
    case Delete(key) => DeleteTells(env, w, key, inputs);
    case Move(key, to, event) => MoveTells(env, w, key, to, event, inputs);
    case Note(event) => EventTells(env, w, Apply(env, w, effect, inputs), event, inputs);
    case Anchor => AnchorTells(env, w, inputs);
  }

  /** DEL of a registered key that the engine has dropped. */
  predicate SilentDel(env: DaemonEnv, w: World, parts: seq<string>) {
    VerbIn(env, parts).DelVerb? && |parts| >= 2 && parts[1] in w.slots && parts[1] !in w.engine
  }

  lemma SilentIsDel(env: DaemonEnv, w: World, parts: seq<string>, inputs: Inputs)
    ensures Silent(w, EffectOf(env, w, parts, inputs)) <==> SilentDel(env, w, parts)
  {
    if |parts| >= 2 { SilentDeleteIsDel(env, w, parts, inputs, parts[1]); }
  }

  /** A log that tells the whole registry does so after a command whose append succeeds, except after a silent DEL. */
  lemma CommandTells(env: DaemonEnv, w: World, parts: seq<string>, inputs: Inputs)
    requires Ready(env, w.log) && inputs.logFault == NoFault && EngineBacked(w) && TellsAll(env, w)
    ensures TellsAll(env, Exec(env, w, parts, inputs).0) <==> !SilentDel(env, w, parts)
  {
    EffectIsTold(env, w, parts, inputs);
    SilentIsDel(env, w, parts, inputs);
    EffectTells(env, w, EffectOf(env, w, parts, inputs), inputs);
  }

  // ── Whole runs ────────────────────────────────────────────────────

  lemma {:induction false} TellFrom(env: DaemonEnv, t: Tracked, ops: seq<DaemonOp>)
    requires A.JsonFaithful(env.audit) && NothingUnflushed(env.audit, t.w.log) && SameKeys(t.w) && TellsAll(env, t.w)
    requires forall i | 0 <= i < |ops| :: LoggedCommand(ops[i])
    requires t.w.log.nextSequence + |ops| < U64_LIMIT
    ensures TellsAll(env, RunDaemon(env, t, ops).w)
    decreases |ops|
  {
    if ops != [] {
      var parts, inputs := ops[0].parts, ops[0].inputs;
      var effect := EffectOf(env, t.w, parts, inputs);
      EffectReady(env, t.w, effect, inputs);
      EffectSameKeys(env, t.w, effect, inputs);
      CommandTells(env, t.w, parts, inputs);
      TellFrom(env, Step(env, t, ops[0]), ops[1..]);
    }
  }

  /**
   The log holds the registry. For commands run one at a time on an empty daemon, every append succeeding and the engine
   dropping nothing, retelling the whole log gives every registered key and no other, each with its slot's exact address,
   fingerprint digest and fate: alive, revoked for this reason, or superseded by exactly this address.
   */
  lemma LogTellsRegistry(env: DaemonEnv, ops: seq<DaemonOp>)
    requires A.JsonFaithful(env.audit) && |ops| < U64_LIMIT && forall i | 0 <= i < |ops| :: LoggedCommand(ops[i])
    ensures var w := RunDaemon(env, START, ops).w;
            Retold(A.Readable(env.audit, w.log.db)) == Some(TalesOf(env, w.slots))
  {
    EmptyLogSound(env.audit);
    assert TalesOf(env, EMPTY_WORLD.slots) == map[];
    TellFrom(env, START, ops);
  }
}
