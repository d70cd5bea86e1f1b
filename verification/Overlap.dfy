/** What the daemon keeps however the regions of its commands interleave, and what it does not. */
module Overlap {
  import opened Basics
  import opened OrderedMaps
  import opened Fingerprints
  import opened Archive
  import opened ArchiveProofs
  import opened Slots
  import opened ContentStore
  import opened Commands
  import opened Agreement
  import opened AuditRuns
  import opened Replay
  import R = Regions
  import A = Audit

  type System = R.System

  // ── What survives every interleaving ──────────────────────────────

  /** The daemon signs whatever it is asked to, with signatures that fit. */
  ghost predicate SaneSign(env: DaemonEnv, sign: Digest -> PerFamily) {
    forall d :: FamilyFits(sign(d)) && Signs(env, d, sign(d))
  }

  ghost predicate SaneAction(env: DaemonEnv, a: R.Action) {
    a.Proceed? ==> SaneSign(env, a.sign)
  }

  /** A slot as SET or a cold start makes them. */
  predicate Regular(env: DaemonEnv, slot: Slot) {
    AddressRight(env.store.sha3, slot) && DaemonBuilt(slot.fingerprint)
  }

  predicate AllRegular(env: DaemonEnv, slots: map<string, Slot>) {
    forall k | k in slots :: Regular(env, slots[k])
  }

  /** The content store has this bundle's address, and it was made for this slot. */
  predicate Kept(env: DaemonEnv, db: Db, slot: Slot, put: Bundle) {
    SetBundle(env, put) && Has(db, AddressOf(env.store.sha3, put)) && BundleFor(env, slot, put)
  }

  /** A SET of this key has registered its slot and not yet come to the content store. */
  predicate ToPersist(s: System, key: string) {
    exists c | 0 <= c < |s.tasks| :: s.tasks[c].Registered? && s.tasks[c].key == key
  }

  /** The last bundle put for a slot with an identity is that of this slot, unless a SET still has to put it. */
  predicate KeyKept(env: DaemonEnv, s: System, k: string) {
    k in s.w.slots && HasIdentity(s.w.slots[k].fingerprint) && !ToPersist(s, k) ==>
      k in s.puts && (s.puts[k].Some? ==> Kept(env, s.w.store.db, s.w.slots[k], s.puts[k].value))
  }

  ghost predicate AllKept(env: DaemonEnv, s: System) {
    forall k :: KeyKept(env, s, k)
  }

  ghost predicate Standing(env: DaemonEnv, s: System) {
    && AllRegular(env, s.w.slots) && StoreGood(env, s.w.store.db) && AllKept(env, s) && SomeSound(env.audit, s.w.log)
  }

  // ── Registry and content store ────────────────────────────────────

  lemma StartedIsBuilt(env: DaemonEnv, parts: seq<string>)
    ensures R.Started(env, parts).Set? ==> DaemonBuilt(R.Started(env, parts).fp)
  {
  }

  lemma {:induction false} RebuiltRegular(env: DaemonEnv, db: Db, now: u64)
    requires Sane(env) && StoreGood(env, db)
    ensures AllRegular(env, Rebuilt(env, db, Addresses(db), now))
  {
    var slots := Rebuilt(env, db, Addresses(db), now);
    RebuiltRight(env, db, Addresses(db), now);
    StoreKeysAreAddresses(env, db);
    AddressesAreKeys(db);
    forall k | k in slots ensures Regular(env, slots[k]) {
      RebuiltIsMade(env, db, Addresses(db), now, k);
      var i :| 0 <= i < |Addresses(db)| && MadeAt(env, db, Addresses(db)[i], k, slots[k]);
      assert db[i].key == Addresses(db)[i];
      var _ := FetchedIsGood(env, db, Addresses(db)[i]);
    }
  }

  lemma FirstRegular(env: DaemonEnv, s: System, c: nat, parts: seq<string>, now: u64)
    requires AllRegular(env, s.w.slots) && c < |s.tasks|
    ensures AllRegular(env, R.First(env, s, c, R.Started(env, parts), now).w.slots)
  {
    StartedIsBuilt(env, parts);
  }

  lemma NextRegular(env: DaemonEnv, s: System, c: nat, sign: Digest -> PerFamily, inputs: Inputs)
    requires AllRegular(env, s.w.slots) && c < |s.tasks|
    ensures AllRegular(env, R.Next(env, s, c, sign, inputs).w.slots)
  {
  }

  lemma WholeRegular(env: DaemonEnv, w: World, parts: seq<string>, inputs: Inputs)
    requires AllRegular(env, w.slots) && R.HeldThroughout(VerbIn(env, parts))
    ensures AllRegular(env, Exec(env, w, parts, inputs).0.slots)
  {
    var after := Exec(env, w, parts, inputs).0.slots;
    WholeMoves(env, w, parts, inputs);
    forall k | k in after ensures Regular(env, after[k]) {
      assert SameButState(w.slots[k], after[k]) && Regular(env, w.slots[k]);
    }
  }

  lemma RestartRegular(env: DaemonEnv, s: System, start: A.Event, inputs: Inputs)
    requires Sane(env) && AllRegular(env, s.w.slots) && StoreGood(env, s.w.store.db)
    ensures AllRegular(env, R.Step(env, s, R.Restart(start, inputs)).w.slots)
  {
    RebuiltRegular(env, s.w.store.db, inputs.now);
  }

  lemma StepRegular(env: DaemonEnv, s: System, a: R.Action)
    requires Sane(env) && AllRegular(env, s.w.slots) && StoreGood(env, s.w.store.db)
    ensures AllRegular(env, R.Step(env, s, a).w.slots)
  {
    match a
    case Begin(c, parts, now) => if R.StartsAt(s, c) { FirstRegular(env, s, c, parts, now); }
    case Proceed(c, sign, inputs) => if c < |s.tasks| { NextRegular(env, s, c, sign, inputs); }
    case Whole(parts, inputs) => if R.HeldThroughout(VerbIn(env, parts)) { WholeRegular(env, s.w, parts, inputs); }
    case Report(_, _) =>
    case Evict(_) =>
    case Restart(start, inputs) => RestartRegular(env, s, start, inputs);
  }

  /** The slot is the same but for its lifecycle. */
  predicate SameButState(x: Slot, y: Slot) {
    && x.value == y.value && x.fingerprint == y.fingerprint
    && x.createdAt == y.createdAt && x.contentAddress == y.contentAddress
  }

  predicate SlotsMoved(before: map<string, Slot>, after: map<string, Slot>) {
    after.Keys == before.Keys && forall k | k in before :: SameButState(before[k], after[k])
  }

  lemma WholeMoves(env: DaemonEnv, w: World, parts: seq<string>, inputs: Inputs)
    ensures var w' := Exec(env, w, parts, inputs).0;
            R.HeldThroughout(VerbIn(env, parts)) ==>
              SlotsMoved(w.slots, w'.slots) && w'.store == w.store && w'.engine == w.engine
  {
    if R.HeldThroughout(VerbIn(env, parts)) {
      var e := EffectOf(env, w, parts, inputs);
      assert e.Nothing? || e.Move? || e.Anchor?;
    }
  }

  lemma {:induction false} KeptLonger(env: DaemonEnv, db: Db, db': Db, x: Slot, y: Slot, put: Bundle)
    requires Kept(env, db, x, put) && SameButState(x, y) && forall a | Has(db, a) :: Has(db', a)
    ensures Kept(env, db', y, put)
  {
  }

  /** Putting a slot's bundle: nothing stored is lost, and unless the write fails the slot has its bundle. */
  lemma {:induction false} PutKeeps(env: DaemonEnv, st: StoreState, slot: Slot, signatures: PerFamily, fault: Fault)
    requires Sane(env) && StoreGood(env, st.db) && DaemonBuilt(slot.fingerprint)
    requires FamilyFits(signatures) && Signs(env, env.store.sha3(slot.value), signatures)
    ensures var bundle := SlotToBundle(env, slot, signatures);
            var db' := AfterPut(env.store, st, bundle, fault).db;
            && StoreGood(env, db') && (forall a | Has(st.db, a) :: Has(db', a))
            && (fault != WriteFails ==> Kept(env, db', slot, bundle))
  {
    SlotBundleIsGood(env, slot, signatures);
    PutKeepsStore(env, st, SlotToBundle(env, slot, signatures), fault);
  }

  /** The registry keeps its values, the store what it has. */
  predicate Quiet(s: System, t: System, k: string) {
    && (k in t.w.slots ==> k in s.w.slots && SameButState(s.w.slots[k], t.w.slots[k]))
    && (k in s.puts ==> k in t.puts && t.puts[k] == s.puts[k]) && (ToPersist(s, k) ==> ToPersist(t, k))
  }

  lemma QuietKeeps(env: DaemonEnv, s: System, t: System, k: string)
    requires KeyKept(env, s, k) && Quiet(s, t, k) && forall a | Has(s.w.store.db, a) :: Has(t.w.store.db, a)
    ensures KeyKept(env, t, k)
  {
    if k in t.w.slots && HasIdentity(t.w.slots[k].fingerprint) && !ToPersist(s, k) && s.puts[k].Some? {
      KeptLonger(env, s.w.store.db, t.w.store.db, s.w.slots[k], t.w.slots[k], s.puts[k].value);
    }
  }

  /** One connection going on leaves what the others still have to persist. */
  lemma OthersPersist(s: System, c: nat, w: World, task: R.Task, k: string)
    requires c < |s.tasks|
    requires s.tasks[c].Registered? && s.tasks[c].key == k ==> task.Registered? && task.key == k
    ensures ToPersist(s, k) ==> ToPersist(R.Goes(s, c, w, task), k)
  {
    var t := R.Goes(s, c, w, task);
    if ToPersist(s, k) {
      var d :| 0 <= d < |s.tasks| && s.tasks[d].Registered? && s.tasks[d].key == k;
      assert t.tasks[d].Registered? && t.tasks[d].key == k;
    }
  }

  lemma FirstKeeps(env: DaemonEnv, s: System, c: nat, effect: Effect, now: u64, k: string)
    requires R.StartsAt(s, c) && KeyKept(env, s, k)
    ensures KeyKept(env, R.First(env, s, c, effect, now), k)
  {
    var t := R.First(env, s, c, effect, now);
    if effect.Set? || effect.Delete? {
      OthersPersist(s, c, t.w, t.tasks[c], k);
      if effect.Set? && effect.key == k {
        assert t.tasks[c].Registered? && t.tasks[c].key == k;
      } else {
        QuietKeeps(env, s, t, k);
      }
    }
  }

  lemma PersistStores(env: DaemonEnv, s: System, key: string, sign: Digest -> PerFamily, fault: Fault)
    requires Sane(env) && SaneSign(env, sign) && AllRegular(env, s.w.slots) && StoreGood(env, s.w.store.db)
    ensures var t := R.Persist(env, s, key, sign, fault);
            && StoreGood(env, t.w.store.db) && (forall a | Has(s.w.store.db, a) :: Has(t.w.store.db, a))
            && (key in s.w.slots && HasIdentity(s.w.slots[key].fingerprint) ==>
                  key in t.puts && (t.puts[key].Some? ==> Kept(env, t.w.store.db, s.w.slots[key], t.puts[key].value)))
  {
    if key in s.w.slots && HasIdentity(s.w.slots[key].fingerprint) {
      var slot := s.w.slots[key];
      assert Regular(env, slot);
      var signatures := sign(env.store.sha3(slot.value));
      PutKeeps(env, s.w.store, slot, signatures, fault);
    }
  }

  lemma PersistKeeps(env: DaemonEnv, s: System, c: nat, sign: Digest -> PerFamily, inputs: Inputs, k: string)
    requires Sane(env) && SaneSign(env, sign) && AllRegular(env, s.w.slots) && StoreGood(env, s.w.store.db)
    requires c < |s.tasks| && s.tasks[c].Registered? && KeyKept(env, s, k)
    ensures KeyKept(env, R.Next(env, s, c, sign, inputs), k)
  {
    var key, t := s.tasks[c].key, R.Next(env, s, c, sign, inputs);
    PersistStores(env, s, key, sign, inputs.putFault);
    if k != key {
      OthersPersist(s, c, t.w, t.tasks[c], k);
      QuietKeeps(env, s, t, k);
    }
  }

  lemma NextKeeps(env: DaemonEnv, s: System, c: nat, sign: Digest -> PerFamily, inputs: Inputs, k: string)
    requires Sane(env) && SaneSign(env, sign) && AllRegular(env, s.w.slots) && StoreGood(env, s.w.store.db)
    requires c < |s.tasks| && KeyKept(env, s, k)
    ensures KeyKept(env, R.Next(env, s, c, sign, inputs), k)
  {
    var t := R.Next(env, s, c, sign, inputs);
    if s.tasks[c].Registered? {
      PersistKeeps(env, s, c, sign, inputs, k);
    } else if !s.tasks[c].Idle? {
      OthersPersist(s, c, t.w, t.tasks[c], k);
      assert t.w.slots == s.w.slots || t.w.slots == s.w.slots - {s.tasks[c].key};
      QuietKeeps(env, s, t, k);
    }
  }

  lemma StepKeepsKey(env: DaemonEnv, s: System, a: R.Action, k: string)
    requires Sane(env) && SaneAction(env, a) && AllRegular(env, s.w.slots) && StoreGood(env, s.w.store.db)
    requires KeyKept(env, s, k)
    ensures KeyKept(env, R.Step(env, s, a), k)
  {
    match a
    case Begin(c, parts, now) => if R.StartsAt(s, c) { FirstKeeps(env, s, c, R.Started(env, parts), now, k); }
    case Proceed(c, sign, inputs) => if c < |s.tasks| { NextKeeps(env, s, c, sign, inputs, k); }
    case Whole(parts, inputs) =>
      WholeMoves(env, s.w, parts, inputs);
      QuietKeeps(env, s, R.Step(env, s, a), k);
    case Report(_, _) => QuietKeeps(env, s, R.Step(env, s, a), k);
    case Evict(_) => QuietKeeps(env, s, R.Step(env, s, a), k);
    case Restart(_, _) =>
  }

  lemma StepStores(env: DaemonEnv, s: System, a: R.Action)
    requires Sane(env) && SaneAction(env, a) && AllRegular(env, s.w.slots) && StoreGood(env, s.w.store.db)
    ensures StoreGood(env, R.Step(env, s, a).w.store.db)
  {
    match a
    case Begin(_, _, _) =>
    case Proceed(c, sign, inputs) =>
      if c < |s.tasks| && s.tasks[c].Registered? { PersistStores(env, s, s.tasks[c].key, sign, inputs.putFault); }
    case Whole(parts, inputs) => WholeMoves(env, s.w, parts, inputs);
    case Report(_, _) =>
    case Evict(_) =>
    case Restart(_, _) =>
  }

  // ── The log ───────────────────────────────────────────────────────

  lemma NextLogSound(env: DaemonEnv, s: System, c: nat, sign: Digest -> PerFamily, inputs: Inputs)
    requires A.JsonFaithful(env.audit) && SomeSound(env.audit, s.w.log) && c < |s.tasks|
    ensures SomeSound(env.audit, R.Next(env, s, c, sign, inputs).w.log)
  {
    match s.tasks[c]
    case Cached(key) =>
      if key in s.w.slots { LoggedSound(env, s.w.log, CreatedEvent(env, key, s.w.slots[key]), inputs); }
    case Forgotten(key) => LoggedSound(env, s.w.log, A.EntryDeleted(key), inputs);
    case _ =>
  }

  lemma WholeLogSound(env: DaemonEnv, w: World, parts: seq<string>, inputs: Inputs)
    requires A.JsonFaithful(env.audit) && SomeSound(env.audit, w.log)
    ensures SomeSound(env.audit, Exec(env, w, parts, inputs).0.log)
  {
    EffectLogSound(env, w, EffectOf(env, w, parts, inputs), inputs);
  }

  lemma RestartLogSound(env: DaemonEnv, s: System, start: A.Event, inputs: Inputs)
    requires A.JsonFaithful(env.audit) && SomeSound(env.audit, s.w.log)
    ensures SomeSound(env.audit, R.Step(env, s, R.Restart(start, inputs)).w.log)
  {
    ColdStartLog(env, s.w, start, inputs);
  }

  lemma BeginLogSame(env: DaemonEnv, s: System, c: nat, parts: seq<string>, now: u64)
    ensures R.Step(env, s, R.Begin(c, parts, now)).w.log == s.w.log
  {
  }

  lemma StepLogSound(env: DaemonEnv, s: System, a: R.Action)
    requires A.JsonFaithful(env.audit) && SomeSound(env.audit, s.w.log)
    ensures SomeSound(env.audit, R.Step(env, s, a).w.log)
  {
    match a
    case Begin(c, parts, now) => BeginLogSame(env, s, c, parts, now);
    case Proceed(c, sign, inputs) => if c < |s.tasks| { NextLogSound(env, s, c, sign, inputs); }
    case Whole(parts, inputs) => WholeLogSound(env, s.w, parts, inputs);
    case Report(event, inputs) => LoggedSound(env, s.w.log, event, inputs);
    case Evict(_) =>
    case Restart(start, inputs) => RestartLogSound(env, s, start, inputs);
  }

  // ── All together ──────────────────────────────────────────────────

  lemma StepStands(env: DaemonEnv, s: System, a: R.Action)
    requires Sane(env) && SaneAction(env, a) && A.JsonFaithful(env.audit) && Standing(env, s)
    ensures Standing(env, R.Step(env, s, a))
  {
    StepRegular(env, s, a);
    StepStores(env, s, a);
    StepLogSound(env, s, a);
    forall k ensures KeyKept(env, R.Step(env, s, a), k) {
      StepKeepsKey(env, s, a, k);
    }
  }

  function Idlers(connections: nat): System {
    R.System(EMPTY_WORLD, seq(connections, _ => R.Idle), map[])
  }

  lemma {:induction false} RunStands(env: DaemonEnv, s: System, actions: seq<R.Action>)
    requires Sane(env) && A.JsonFaithful(env.audit) && Standing(env, s)
    requires forall i | 0 <= i < |actions| :: SaneAction(env, actions[i])
    ensures Standing(env, R.RunSystem(env, s, actions))
    decreases |actions|
  {
    if |actions| != 0 {
      StepStands(env, s, actions[0]);
      RunStands(env, R.Step(env, s, actions[0]), actions[1..]);
    }
  }

  /**
   What needs no discipline. However the regions of any number of commands interleave, with evictions, failed writes and
   restarts that cut commands off: every slot's address is that of its value and fingerprint; when no SET of a key still
   has to put a bundle, the last one put for it is that of its slot, and the content store answers that bundle's address
   with one for this slot, or a collision is located; and the log verifies from end to end.
   */
  lemma AnyInterleaving(env: DaemonEnv, connections: nat, actions: seq<R.Action>, key: string)
    requires Sane(env) && A.JsonFaithful(env.audit) && forall i | 0 <= i < |actions| :: SaneAction(env, actions[i])
    ensures var s := R.RunSystem(env, Idlers(connections), actions);
            && AddressesRight(env, s.w.slots)
            && (key in s.w.slots && HasIdentity(s.w.slots[key].fingerprint) && !ToPersist(s, key) ==>
                  key in s.puts && (s.puts[key].Some? ==>
                    var put := s.puts[key].value;
                    BundleFor(env, s.w.slots[key], put) && InContentStore(env, s.w, s.w.slots[key], put)))
            && A.CheckFrom(env.audit, s.w.log.db, 0, ZERO_DIGEST) == A.Checked(|s.w.log.db|, None)
  {
    EmptyLogSound(env.audit);
    RunStands(env, Idlers(connections), actions);
    var s := R.RunSystem(env, Idlers(connections), actions);
    assert forall k | k in s.w.slots :: Regular(env, s.w.slots[k]);
    SoundLogVerifies(env.audit, s.w.log);
    assert KeyKept(env, s, key);
    if key in s.w.slots && HasIdentity(s.w.slots[key].fingerprint) && !ToPersist(s, key) && s.puts[key].Some? {
      PutIsFound(env, s.w, s.w.slots[key], s.puts[key].value);
    }
  }
}
