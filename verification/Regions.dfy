/**
 The daemon's commands as they interleave. `handle_resp` takes its locks one store at a time, so a SET is four
 regions and a DEL up to three, and regions of other commands may run between them; INVALIDATE and SUPERSEDE keep the
 registry's write lock to their end.
 */
module Regions {
  import opened Basics
  import opened OrderedMaps
  import opened Fingerprints
  import opened Archive
  import opened Slots
  import opened ContentStore
  import opened Commands
  import opened Runs
  import A = Audit

  /** How far a connection is with its command. */
  datatype Task =
    | Idle
    | Registered(key: string, value: Bytes)    // SET: the slot is in the registry
    | Persisted(key: string, value: Bytes)     // SET: a bundle was put, if there was one to put
    | Cached(key: string)                      // SET: the value is in the engine
    | Dropped(key: string, deleted: bool)      // DEL: gone from the engine
    | Forgotten(key: string)                   // DEL: gone from the registry too, to be logged

  /** `puts`: the bundle last put for a key, None if that failed at the write or a cold start registered the key since. */
  datatype System = System(w: World, tasks: seq<Task>, puts: map<string, Option<Bundle>>)

  datatype Action =
    | Begin(c: nat, parts: seq<string>, now: u64)                        // the first region of a SET or DEL
    | Proceed(c: nat, sign: Digest -> PerFamily, inputs: Inputs)         // the next region of either
    | Whole(parts: seq<string>, inputs: Inputs)                          // INVALIDATE, SUPERSEDE, AUDITANCHOR
    | Report(event: A.Event, inputs: Inputs)                             // the append of a GETVERIFIED
    | Evict(key: string)
    | Restart(start: A.Event, inputs: Inputs)                            // with commands cut off anywhere

  /** What a SET or DEL sets out to do; it depends on its words alone. */
  function Started(env: DaemonEnv, parts: seq<string>): Effect {
    var verb := VerbIn(env, parts);
    if |parts| < WordsNeeded(verb) then Nothing
    else if verb.SetVerb? then SetEffect(env, parts)
    else if verb.DelVerb? then Delete(parts[1])
    else Nothing
  }

  predicate StartsAt(s: System, c: nat) { c < |s.tasks| && s.tasks[c].Idle? }

  function Goes(s: System, c: nat, w: World, task: Task): System
    requires c < |s.tasks|
  {
    s.(w := w, tasks := s.tasks[c := task])
  }

  function First(env: DaemonEnv, s: System, c: nat, effect: Effect, now: u64): System
    requires c < |s.tasks|
  {
    match effect
    case Set(key, value, fp) =>
      Goes(s, c, s.w.(slots := s.w.slots[key := NewSlot(env.store.sha3, value, fp, now)]), Registered(key, value))
    case Delete(key) => Goes(s, c, s.w.(engine := s.w.engine - {key}), Dropped(key, key in s.w.engine))
    case _ => s
  }

  /** A bundle for whichever slot the key has by now, signed now. */
  function Persist(env: DaemonEnv, s: System, key: string, sign: Digest -> PerFamily, fault: Fault): System {
    if key in s.w.slots && HasIdentity(s.w.slots[key].fingerprint) then
      var slot := s.w.slots[key];
      var bundle := SlotToBundle(env, slot, sign(env.store.sha3(slot.value)));
      s.(w := s.w.(store := AfterPut(env.store, s.w.store, bundle, fault)),
         puts := s.puts[key := if fault == WriteFails then None else Some(bundle)])
    else s
  }

  function LogCreation(env: DaemonEnv, w: World, key: string, inputs: Inputs): World {
    if key in w.slots then w.(log := Logged(env, w.log, CreatedEvent(env, key, w.slots[key]), inputs)) else w
  }

  function Next(env: DaemonEnv, s: System, c: nat, sign: Digest -> PerFamily, inputs: Inputs): System
    requires c < |s.tasks|
  {
    match s.tasks[c]
    case Idle => s
    case Registered(key, value) =>
      var t := Persist(env, s, key, sign, inputs.putFault);
      Goes(t, c, t.w, Persisted(key, value))
    case Persisted(key, value) => Goes(s, c, s.w.(engine := s.w.engine[key := value]), Cached(key))
    case Cached(key) => Goes(s, c, LogCreation(env, s.w, key, inputs), Idle)
    case Dropped(key, deleted) =>
      Goes(s, c, s.w.(slots := s.w.slots - {key}), if deleted then Forgotten(key) else Idle)
    case Forgotten(key) => Goes(s, c, s.w.(log := Logged(env, s.w.log, A.EntryDeleted(key), inputs)), Idle)
  }

  predicate HeldThroughout(verb: Verb) { verb.InvalidateVerb? || verb.SupersedeVerb? || verb.AuditAnchorVerb? }

  function Reopened(s: System, w: World): System {
    System(w, seq(|s.tasks|, _ => Idle), map k | k in w.slots :: None)
  }

  function Step(env: DaemonEnv, s: System, a: Action): System {
    match a
    case Begin(c, parts, now) => if StartsAt(s, c) then First(env, s, c, Started(env, parts), now) else s
    case Proceed(c, sign, inputs) => if c < |s.tasks| then Next(env, s, c, sign, inputs) else s
    case Whole(parts, inputs) =>
      if HeldThroughout(VerbIn(env, parts)) then s.(w := Exec(env, s.w, parts, inputs).0) else s
    case Report(event, inputs) => s.(w := s.w.(log := Logged(env, s.w.log, event, inputs)))
    case Evict(key) => s.(w := s.w.(engine := s.w.engine - {key}))
    case Restart(start, inputs) =>
      match ColdStart(env, s.w.store.db, s.w.log.db, start, inputs)
      case Some(w) => Reopened(s, w)
      case None => s
  }

  function RunSystem(env: DaemonEnv, s: System, actions: seq<Action>): System {
    RunAll((t: System, a: Action) => Step(env, t, a), s, actions)
  }

  // ── A command that nothing interrupts ─────────────────────────────

  lemma {:induction false} RunConcat(env: DaemonEnv, s: System, a: seq<Action>, b: seq<Action>)
    ensures RunSystem(env, s, a + b) == RunSystem(env, RunSystem(env, s, a), b)
  {
    RunAllConcat((t: System, x: Action) => Step(env, t, x), s, a, b);
  }

  lemma {:induction false} RunMore(env: DaemonEnv, s: System, a: seq<Action>, b: Action)
    ensures RunSystem(env, s, a + [b]) == Step(env, RunSystem(env, s, a), b)
  {
    RunConcat(env, s, a, [b]);
    RunAllOne((t: System, x: Action) => Step(env, t, x), RunSystem(env, s, a), b);
  }

  lemma StartedIsEffect(env: DaemonEnv, w: World, parts: seq<string>, inputs: Inputs)
    requires Started(env, parts) != Nothing
    ensures EffectOf(env, w, parts, inputs) == Started(env, parts)
  {
  }

  /** The actions of a SET or a DEL in a row. */
  function InOneGo(c: nat, parts: seq<string>, sign: Digest -> PerFamily, inputs: Inputs): seq<Action> {
    [Begin(c, parts, inputs.now), Proceed(c, sign, inputs), Proceed(c, sign, inputs), Proceed(c, sign, inputs)]
  }

  lemma {:induction false} FourSteps(env: DaemonEnv, s: System, a: Action, b: Action, c: Action, d: Action)
    ensures RunSystem(env, s, [a, b, c, d]) == Step(env, Step(env, Step(env, Step(env, s, a), b), c), d)
  {
    var none: seq<Action> := [];
    assert RunSystem(env, s, none) == s;
    RunMore(env, s, none, a);
    RunMore(env, s, none + [a], b);
    RunMore(env, s, none + [a] + [b], c);
    RunMore(env, s, none + [a] + [b] + [c], d);
    assert none + [a] + [b] + [c] + [d] == [a, b, c, d];
  }

  /** The last three regions of a SET whose slot is still there. */
  lemma SetFinishes(env: DaemonEnv, s: System, c: nat, key: string, value: Bytes, sign: Digest -> PerFamily, inputs: Inputs)
    requires c < |s.tasks| && s.tasks[c] == Registered(key, value) && key in s.w.slots
    ensures var go := Proceed(c, sign, inputs);
            var t := Step(env, Step(env, Step(env, s, go), go), go);
            var slot := s.w.slots[key];
            && t.tasks == s.tasks[c := Idle]
            && t.w == World(s.w.engine[key := value], s.w.slots, Persist(env, s, key, sign, inputs.putFault).w.store,
                            Logged(env, s.w.log, CreatedEvent(env, key, slot), inputs))
  {
    var go := Proceed(c, sign, inputs);
    var p := Persist(env, s, key, sign, inputs.putFault).w.store;
    var s2 := Step(env, s, go);
    var s3 := Step(env, s2, go);
    assert s2.w == World(s.w.engine, s.w.slots, p, s.w.log) && s2.tasks == s.tasks[c := Persisted(key, value)];
    assert s3.w == World(s.w.engine[key := value], s.w.slots, p, s.w.log) && s3.tasks == s.tasks[c := Cached(key)];
  }

  lemma SetInOneGo(env: DaemonEnv, s: System, c: nat, parts: seq<string>, sign: Digest -> PerFamily, inputs: Inputs)
    requires StartsAt(s, c) && Started(env, parts).Set?
    requires sign(env.store.sha3(Started(env, parts).value)) == inputs.signatures
    ensures var e := Started(env, parts);
            var t := RunSystem(env, s, InOneGo(c, parts, sign, inputs));
            t.w == Stored(env, s.w, e.key, e.value, e.fp, inputs) && t.tasks == s.tasks
  {
    var go := Proceed(c, sign, inputs);
    var e := Started(env, parts);
    FourSteps(env, s, Begin(c, parts, inputs.now), go, go, go);
    SetFinishes(env, First(env, s, c, e, inputs.now), c, e.key, e.value, sign, inputs);
    assert s.tasks == s.tasks[c := Registered(e.key, e.value)][c := Idle];
  }

  lemma DeleteInOneGo(env: DaemonEnv, s: System, c: nat, parts: seq<string>, sign: Digest -> PerFamily, inputs: Inputs)
    requires StartsAt(s, c) && Started(env, parts).Delete?
    ensures var t := RunSystem(env, s, InOneGo(c, parts, sign, inputs));
            t.w == Removed(env, s.w, Started(env, parts).key, inputs) && t.tasks == s.tasks
  {
    var go := Proceed(c, sign, inputs);
    FourSteps(env, s, Begin(c, parts, inputs.now), go, go, go);
    assert RunSystem(env, s, InOneGo(c, parts, sign, inputs)).tasks == s.tasks;
  }

  /** Without others in between, the regions of a SET or DEL do exactly what the command does as one step. */
  lemma InOneGoIsExec(env: DaemonEnv, s: System, c: nat, parts: seq<string>, sign: Digest -> PerFamily, inputs: Inputs)
    requires StartsAt(s, c) && !Started(env, parts).Nothing?
    requires Started(env, parts).Set? ==> sign(env.store.sha3(Started(env, parts).value)) == inputs.signatures
    ensures var t := RunSystem(env, s, InOneGo(c, parts, sign, inputs));
            t.w == Exec(env, s.w, parts, inputs).0 && t.tasks == s.tasks
  {
    StartedIsEffect(env, s.w, parts, inputs);
    if Started(env, parts).Set? {
      SetInOneGo(env, s, c, parts, sign, inputs);
    } else {
      DeleteInOneGo(env, s, c, parts, sign, inputs);
    }
  }

  // ── What others can see in between ────────────────────────────────

  /**
   A SET seen from outside, region by region: first the registry has the slot, while engine, content store and log are as
   they were; then the content store may have its bundle; then the engine has the value; and only the last region logs.
   */
  lemma SetIsSeen(env: DaemonEnv, s: System, c: nat, parts: seq<string>, now: u64, sign: Digest -> PerFamily, inputs: Inputs)
    requires StartsAt(s, c) && Started(env, parts).Set?
    ensures var e, go := Started(env, parts), Proceed(c, sign, inputs);
            var s1 := Step(env, s, Begin(c, parts, now));
            var s2 := Step(env, s1, go);
            var s3 := Step(env, s2, go);
            var s4 := Step(env, s3, go);
            && s1.w == s.w.(slots := s1.w.slots) && e.key in s1.w.slots && s1.w.slots[e.key].value == e.value
            && s1.w.slots[e.key].state.Active? && s1.w.slots[e.key].createdAt == now
            && s2.w == s1.w.(store := s2.w.store)
            && s3.w == s2.w.(engine := s2.w.engine[e.key := e.value])
            && s4.w == s3.w.(log := s4.w.log) && s4.tasks[c].Idle?
  {
  }

  /** A DEL seen from outside: first the engine lets go, then the registry; a last region logs if the engine had the key. */
  lemma DeleteIsSeen(env: DaemonEnv, s: System, c: nat, parts: seq<string>, now: u64, sign: Digest -> PerFamily,
                     inputs: Inputs)
    requires StartsAt(s, c) && Started(env, parts).Delete?
    ensures var e, go := Started(env, parts), Proceed(c, sign, inputs);
            var s1 := Step(env, s, Begin(c, parts, now));
            var s2 := Step(env, s1, go);
            var s3 := Step(env, s2, go);
            && s1.w == s.w.(engine := s.w.engine - {e.key})
            && s2.w == s1.w.(slots := s1.w.slots - {e.key})
            && (e.key in s.w.engine ==>
                  s3.w == s2.w.(log := Logged(env, s2.w.log, A.EntryDeleted(e.key), inputs)) && s3.tasks[c].Idle?)
            && (e.key !in s.w.engine ==> s3.w == s2.w && s2.tasks[c].Idle?)
  {
  }
}
