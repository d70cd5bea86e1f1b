/** When overlapping commands leave the engine with what the registry says, and when they may not. */
module Discipline {
  import opened Basics
  import opened Archive
  import opened Commands
  import R = Regions
  import O = Overlap

  type System = R.System

  /** What the engine has under the key, if anything, is the value of the key's slot. */
  predicate Backed(w: World, k: string) {
    k in w.engine ==> k in w.slots && w.slots[k].value == w.engine[k]
  }

  /** A SET of `k` that has registered its slot and not yet written the engine. */
  predicate SetPending(task: R.Task, k: string) {
    (task.Registered? || task.Persisted?) && task.key == k
  }

  /** A DEL of `k` that has cleared the engine and not yet the registry. */
  predicate DelPending(task: R.Task, k: string) { task.Dropped? && task.key == k }

  /** The task and a command that starts now can leave engine and registry apart. */
  predicate Conflict(task: R.Task, effect: Effect) {
    match effect
    case Set(k, value, _) => DelPending(task, k) || (SetPending(task, k) && task.value != value)
    case Delete(k) => SetPending(task, k)
    case _ => false
  }

  // ── Enough ────────────────────────────────────────────────────────

  /** The action starts no command on `k` while one that conflicts is under way. */
  predicate Orderly(env: DaemonEnv, s: System, a: R.Action, k: string) {
    a.Begin? && !R.Started(env, a.parts).Nothing? && KeyOf(R.Started(env, a.parts)) == k ==>
      forall c | 0 <= c < |s.tasks| :: !Conflict(s.tasks[c], R.Started(env, a.parts))
  }

  function KeyOf(effect: Effect): string {
    match effect
    case Set(k, _, _) => k
    case Delete(k) => k
    case _ => ""
  }

  predicate OrderlyRun(env: DaemonEnv, s: System, actions: seq<R.Action>, k: string)
    decreases |actions|
  {
    |actions| == 0 ||
    (Orderly(env, s, actions[0], k) && OrderlyRun(env, R.Step(env, s, actions[0]), actions[1..], k))
  }

  predicate AnySet(s: System, k: string) { exists c | 0 <= c < |s.tasks| :: SetPending(s.tasks[c], k) }

  predicate AnyDel(s: System, k: string) { exists c | 0 <= c < |s.tasks| :: DelPending(s.tasks[c], k) }

  /** Pending SETs of `k` agree with its slot, none overlaps a DEL, and without one the key is backed. */
  predicate KeyOrder(s: System, k: string) {
    && (forall c | 0 <= c < |s.tasks| :: SetPending(s.tasks[c], k) ==>
          k in s.w.slots && s.w.slots[k].value == s.tasks[c].value)
    && (AnyDel(s, k) ==> !AnySet(s, k) && k !in s.w.engine)
    && (AnySet(s, k) || Backed(s.w, k))
  }

  /** Where one task changes, whether some task is pending changes with it. */
  lemma OneTask(s: System, c: nat, w: World, task: R.Task, k: string)
    requires c < |s.tasks|
    ensures var t := R.Goes(s, c, w, task);
            && (AnySet(t, k) ==> SetPending(task, k) || AnySet(s, k))
            && (AnyDel(t, k) ==> DelPending(task, k) || AnyDel(s, k))
            && (SetPending(task, k) ==> AnySet(t, k)) && (DelPending(task, k) ==> AnyDel(t, k))
            && (AnySet(s, k) && !SetPending(s.tasks[c], k) ==> AnySet(t, k))
  {
    var t := R.Goes(s, c, w, task);
    if AnySet(t, k) {
      var d :| 0 <= d < |t.tasks| && SetPending(t.tasks[d], k);
      assert d == c || SetPending(s.tasks[d], k);
    }
    if AnyDel(t, k) {
      var d :| 0 <= d < |t.tasks| && DelPending(t.tasks[d], k);
      assert d == c || DelPending(s.tasks[d], k);
    }
    assert t.tasks[c] == task;
    if AnySet(s, k) && !SetPending(s.tasks[c], k) {
      var d :| 0 <= d < |s.tasks| && SetPending(s.tasks[d], k);
      assert SetPending(t.tasks[d], k);
    }
  }

  lemma FirstOrder(env: DaemonEnv, s: System, c: nat, effect: Effect, now: u64, k: string)
    requires R.StartsAt(s, c) && KeyOrder(s, k) && (effect.Set? || effect.Delete?)
    requires KeyOf(effect) == k ==> forall d | 0 <= d < |s.tasks| :: !Conflict(s.tasks[d], effect)
    ensures KeyOrder(R.First(env, s, c, effect, now), k)
  {
    var t := R.First(env, s, c, effect, now);
    OneTask(s, c, t.w, t.tasks[c], k);
    if KeyOf(effect) == k {
      forall d | 0 <= d < |s.tasks|
        ensures effect.Set? ==> !DelPending(s.tasks[d], k)
        ensures effect.Delete? ==> !SetPending(s.tasks[d], k)
      {
        assert !Conflict(s.tasks[d], effect);
      }
    }
  }

  lemma CacheOrder(env: DaemonEnv, s: System, c: nat, sign: Digest -> PerFamily, inputs: Inputs, k: string)
    requires c < |s.tasks| && s.tasks[c].Persisted? && KeyOrder(s, k)
    ensures KeyOrder(R.Next(env, s, c, sign, inputs), k)
  {
    var t := R.Next(env, s, c, sign, inputs);
    OneTask(s, c, t.w, t.tasks[c], k);
    if s.tasks[c].key == k {
      assert SetPending(s.tasks[c], k);
      assert AnySet(s, k);
    }
  }

  lemma ForgetOrder(env: DaemonEnv, s: System, c: nat, sign: Digest -> PerFamily, inputs: Inputs, k: string)
    requires c < |s.tasks| && s.tasks[c].Dropped? && KeyOrder(s, k)
    ensures KeyOrder(R.Next(env, s, c, sign, inputs), k)
  {
    var t := R.Next(env, s, c, sign, inputs);
    OneTask(s, c, t.w, t.tasks[c], k);
    if s.tasks[c].key == k {
      assert DelPending(s.tasks[c], k);
      assert AnyDel(s, k);
    }
  }

  /** The other regions write neither the engine nor what a slot holds, and end no pending SET or DEL. */
  lemma QuietOrder(s: System, c: nat, w: World, task: R.Task, k: string)
    requires c < |s.tasks| && KeyOrder(s, k) && w.engine == s.w.engine && w.slots == s.w.slots
    requires SetPending(task, k) <==> SetPending(s.tasks[c], k)
    requires SetPending(task, k) ==> task.value == s.tasks[c].value
    requires !DelPending(task, k)
    ensures KeyOrder(s.(w := w, tasks := s.tasks[c := task]), k)
  {
    var t := R.Goes(s, c, w, task);
    OneTask(s, c, w, task, k);
    if SetPending(task, k) {
      assert AnySet(s, k);
    }
  }

  lemma SamePuts(s: System, t: System, k: string)
    requires KeyOrder(s, k) && t.w.engine == s.w.engine && t.w.slots == s.w.slots && t.tasks == s.tasks
    ensures KeyOrder(t, k)
  {
  }

  lemma NextOrder(env: DaemonEnv, s: System, c: nat, sign: Digest -> PerFamily, inputs: Inputs, k: string)
    requires c < |s.tasks| && KeyOrder(s, k)
    ensures KeyOrder(R.Next(env, s, c, sign, inputs), k)
  {
    match s.tasks[c]
    case Persisted(_, _) => CacheOrder(env, s, c, sign, inputs, k);
    case Dropped(_, _) => ForgetOrder(env, s, c, sign, inputs, k);
    case Registered(key, value) =>
      var t := R.Next(env, s, c, sign, inputs);
      QuietOrder(s, c, t.w, R.Persisted(key, value), k);
      SamePuts(s.(w := t.w, tasks := s.tasks[c := R.Persisted(key, value)]), t, k);
    case Idle =>
    case _ => QuietOrder(s, c, R.Next(env, s, c, sign, inputs).w, R.Idle, k);
  }

  lemma WholeOrder(env: DaemonEnv, s: System, parts: seq<string>, inputs: Inputs, k: string)
    requires KeyOrder(s, k)
    ensures KeyOrder(R.Step(env, s, R.Whole(parts, inputs)), k)
  {
    O.WholeMoves(env, s.w, parts, inputs);
  }

  lemma BeginOrder(env: DaemonEnv, s: System, c: nat, parts: seq<string>, now: u64, k: string)
    requires KeyOrder(s, k) && Orderly(env, s, R.Begin(c, parts, now), k)
    ensures KeyOrder(R.Step(env, s, R.Begin(c, parts, now)), k)
  {
    if R.StartsAt(s, c) && !R.Started(env, parts).Nothing? { FirstOrder(env, s, c, R.Started(env, parts), now, k); }
  }

  lemma StepOrder(env: DaemonEnv, s: System, a: R.Action, k: string)
    requires KeyOrder(s, k) && Orderly(env, s, a, k)
    ensures KeyOrder(R.Step(env, s, a), k)
  {
    match a
    case Begin(c, parts, now) => BeginOrder(env, s, c, parts, now, k);
    case Proceed(c, sign, inputs) => if c < |s.tasks| { NextOrder(env, s, c, sign, inputs, k); }
    case Whole(parts, inputs) => WholeOrder(env, s, parts, inputs, k);
    case Report(_, _) =>
    case Evict(_) =>
    case Restart(_, _) =>
  }

  lemma {:induction false} RunOrder(env: DaemonEnv, s: System, actions: seq<R.Action>, k: string)
    requires KeyOrder(s, k) && OrderlyRun(env, s, actions, k)
    ensures KeyOrder(R.RunSystem(env, s, actions), k)
    decreases |actions|
  {
    if |actions| != 0 {
      StepOrder(env, s, actions[0], k);
      RunOrder(env, R.Step(env, s, actions[0]), actions[1..], k);
    }
  }

  /**
   Enough: if no command on a key starts while one that conflicts with it is under way, then in every run,
   whatever else overlaps, the engine's value for the key is its slot's whenever no SET of it is pending.
   */
  lemma {:induction false} OrderlyKeyIsBacked(env: DaemonEnv, connections: nat, actions: seq<R.Action>, k: string)
    requires OrderlyRun(env, O.Idlers(connections), actions, k)
    ensures var s := R.RunSystem(env, O.Idlers(connections), actions);
            AnySet(s, k) || Backed(s.w, k)
  {
    RunOrder(env, O.Idlers(connections), actions, k);
  }

  // ── Needed ────────────────────────────────────────────────────────

  /** The next action of a connection. */
  function Go(c: nat, sign: Digest -> PerFamily, inputs: Inputs): R.Action { R.Proceed(c, sign, inputs) }

  lemma {:induction false} OneFirst(env: DaemonEnv, s: System, a: R.Action, rest: seq<R.Action>)
    ensures R.RunSystem(env, s, [a] + rest) == R.RunSystem(env, R.Step(env, s, a), rest)
  {
    assert ([a] + rest)[1..] == rest;
  }

  lemma {:induction false} TwoMore(env: DaemonEnv, s: System, a: R.Action, b: R.Action)
    ensures R.RunSystem(env, s, [a, b]) == R.Step(env, R.Step(env, s, a), b)
  {
    OneFirst(env, s, a, [b]);
    OneFirst(env, R.Step(env, s, a), b, []);
    assert [a] + [b] == [a, b] && [b] + [] == [b];
  }

  lemma FinishPersisted(env: DaemonEnv, s: System, c: nat, k: string, value: Bytes, sign: Digest -> PerFamily,
                        inputs: Inputs)
    requires c < |s.tasks| && s.tasks[c] == R.Persisted(k, value)
    ensures var t := R.RunSystem(env, s, [Go(c, sign, inputs), Go(c, sign, inputs)]);
            && t.tasks == s.tasks[c := R.Idle] && t.w.slots == s.w.slots && t.w.engine == s.w.engine[k := value]
  {
    var go := Go(c, sign, inputs);
    TwoMore(env, s, go, go);
    assert R.Step(env, s, go).tasks == s.tasks[c := R.Cached(k)];
  }

  /** A pending SET run to its end writes its value to the engine and leaves the registry. */
  lemma FinishSet(env: DaemonEnv, s: System, c: nat, k: string, sign: Digest -> PerFamily, inputs: Inputs)
      returns (gos: seq<R.Action>)
    requires c < |s.tasks| && SetPending(s.tasks[c], k)
    ensures forall i | 0 <= i < |gos| :: gos[i] == Go(c, sign, inputs)
    ensures var t := R.RunSystem(env, s, gos);
            && t.tasks == s.tasks[c := R.Idle] && t.w.slots == s.w.slots
            && t.w.engine == s.w.engine[k := s.tasks[c].value]
  {
    var go := Go(c, sign, inputs);
    gos := [go, go];
    if s.tasks[c].Registered? {
      FinishPersisted(env, R.Step(env, s, go), c, k, s.tasks[c].value, sign, inputs);
      OneFirst(env, s, go, gos);
      gos := [go] + gos;
    } else {
      FinishPersisted(env, s, c, k, s.tasks[c].value, sign, inputs);
    }
  }

  /** A pending DEL run to its end clears the registry and leaves the engine. */
  lemma FinishDel(env: DaemonEnv, s: System, c: nat, k: string, sign: Digest -> PerFamily, inputs: Inputs)
      returns (gos: seq<R.Action>)
    requires c < |s.tasks| && DelPending(s.tasks[c], k)
    ensures forall i | 0 <= i < |gos| :: gos[i] == Go(c, sign, inputs)
    ensures var t := R.RunSystem(env, s, gos);
            t.tasks == s.tasks[c := R.Idle] && t.w.slots == s.w.slots - {k} && t.w.engine == s.w.engine
  {
    var go := Go(c, sign, inputs);
    var p := R.Step(env, s, go);
    gos := [go, go];
    TwoMore(env, s, go, go);
    assert p.w.slots == s.w.slots - {k} && p.w.engine == s.w.engine;
    assert p.tasks == s.tasks[c := if s.tasks[c].deleted then R.Forgotten(k) else R.Idle];
    assert R.Step(env, p, go).tasks == s.tasks[c := R.Idle];
  }

  /** Only the two commands go on. */
  ghost predicate OnlyThese(actions: seq<R.Action>, c: nat, d: nat, sign: Digest -> PerFamily, inputs: Inputs) {
    forall i | 0 <= i < |actions| :: actions[i] == Go(c, sign, inputs) || actions[i] == Go(d, sign, inputs)
  }

  lemma {:induction false} Finish(env: DaemonEnv, s: System, c: nat, k: string, sign: Digest -> PerFamily, inputs: Inputs)
      returns (gos: seq<R.Action>)
    requires c < |s.tasks| && (SetPending(s.tasks[c], k) || DelPending(s.tasks[c], k))
    ensures OnlyThese(gos, c, c, sign, inputs)
    ensures var t := R.RunSystem(env, s, gos);
            && t.tasks == s.tasks[c := R.Idle]
            && t.w.slots == (if SetPending(s.tasks[c], k) then s.w.slots else s.w.slots - {k})
            && t.w.engine == if SetPending(s.tasks[c], k) then s.w.engine[k := s.tasks[c].value] else s.w.engine
  {
    if SetPending(s.tasks[c], k) {
      gos := FinishSet(env, s, c, k, sign, inputs);
    } else {
      gos := FinishDel(env, s, c, k, sign, inputs);
    }
  }

  /** Two pending commands of one key run to their ends one after the other. */
  lemma {:induction false} FinishBoth(env: DaemonEnv, s: System, c: nat, d: nat, k: string, sign: Digest -> PerFamily,
                                      inputs: Inputs) returns (gos: seq<R.Action>)
    requires c < |s.tasks| && d < |s.tasks| && c != d
    requires SetPending(s.tasks[c], k) || DelPending(s.tasks[c], k)
    requires SetPending(s.tasks[d], k) || DelPending(s.tasks[d], k)
    ensures OnlyThese(gos, c, d, sign, inputs)
    ensures var t := R.RunSystem(env, s, gos);
            var x, y := s.tasks[c], s.tasks[d];
            && t.tasks == s.tasks[c := R.Idle][d := R.Idle]
            && t.w.slots == (if SetPending(x, k) && SetPending(y, k) then s.w.slots else s.w.slots - {k})
            && t.w.engine == if SetPending(y, k) then s.w.engine[k := y.value]
                             else if SetPending(x, k) then s.w.engine[k := x.value] else s.w.engine
  {
    var first := Finish(env, s, c, k, sign, inputs);
    var mid := R.RunSystem(env, s, first);
    var second := Finish(env, mid, d, k, sign, inputs);
    gos := first + second;
    R.RunConcat(env, s, first, second);
  }

  /**
   Needed: whenever a SET or DEL starts while a conflicting one is under way, there is a way for just these two to run to
   their ends that leaves in the engine a value its slot does not have, or has no slot for.
   */
  lemma {:induction false} ConflictCanBreak(env: DaemonEnv, s: System, c: nat, d: nat, parts: seq<string>, now: u64,
                                            sign: Digest -> PerFamily, inputs: Inputs) returns (gos: seq<R.Action>)
    requires c < |s.tasks| && R.StartsAt(s, d) && Conflict(s.tasks[c], R.Started(env, parts))
    ensures OnlyThese(gos, c, d, sign, inputs)
    ensures var t := R.RunSystem(env, s, [R.Begin(d, parts, now)] + gos);
            var k := KeyOf(R.Started(env, parts));
            && t.tasks == s.tasks[c := R.Idle] && !Backed(t.w, k)
            && (SetPending(s.tasks[c], k) ==> t.w.engine[k] == s.tasks[c].value)
  {
    var effect := R.Started(env, parts);
    var k := KeyOf(effect);
    var begun := R.First(env, s, d, effect, now);
    if effect.Set? && SetPending(s.tasks[c], k) {
      gos := FinishBoth(env, begun, d, c, k, sign, inputs);
    } else if effect.Set? {
      gos := FinishBoth(env, begun, c, d, k, sign, inputs);
    } else {
      gos := FinishBoth(env, begun, c, d, k, sign, inputs);
    }
    OneFirst(env, s, R.Begin(d, parts, now), gos);
  }

  // ── Exactly ───────────────────────────────────────────────────────

  /** Commands under way go on, whichever and however far, and none starts. */
  ghost predicate GoingOn(env: DaemonEnv, actions: seq<R.Action>) {
    forall i | 0 <= i < |actions| :: actions[i].Proceed? && O.SaneAction(env, actions[i])
  }

  /** What still writes the engine under `k` writes what it has: letting it changes nothing. */
  lemma {:induction false} FinishRest(env: DaemonEnv, s: System, n: nat, k: string, sign: Digest -> PerFamily,
                                      inputs: Inputs) returns (gos: seq<R.Action>)
    requires n <= |s.tasks| && forall c | n <= c < |s.tasks| :: !SetPending(s.tasks[c], k)
    requires k in s.w.engine && O.SaneSign(env, sign)
    requires forall c | 0 <= c < |s.tasks| :: SetPending(s.tasks[c], k) ==> s.tasks[c].value == s.w.engine[k]
    ensures GoingOn(env, gos)
    ensures var t := R.RunSystem(env, s, gos);
            !AnySet(t, k) && t.w.slots == s.w.slots && t.w.engine == s.w.engine
    decreases n
  {
    if n == 0 {
      gos := [];
    } else if SetPending(s.tasks[n - 1], k) {
      var first := FinishSet(env, s, n - 1, k, sign, inputs);
      var mid := R.RunSystem(env, s, first);
      assert mid.w.engine == s.w.engine;
      var rest := FinishRest(env, mid, n - 1, k, sign, inputs);
      gos := first + rest;
      R.RunConcat(env, s, first, rest);
    } else {
      gos := FinishRest(env, s, n - 1, k, sign, inputs);
    }
  }

  lemma {:induction false} GoingOnIsOrderly(env: DaemonEnv, s: System, actions: seq<R.Action>, k: string)
    requires GoingOn(env, actions)
    ensures OrderlyRun(env, s, actions, k)
    decreases |actions|
  {
    if |actions| != 0 {
      GoingOnIsOrderly(env, R.Step(env, s, actions[0]), actions[1..], k);
    }
  }

  ghost predicate EndsUnbacked(env: DaemonEnv, s: System, gos: seq<R.Action>, k: string) {
    GoingOn(env, gos) && var t := R.RunSystem(env, s, gos); !AnySet(t, k) && !Backed(t.w, k)
  }

  predicate AnyConflict(s: System, effect: Effect) {
    exists c | 0 <= c < |s.tasks| :: Conflict(s.tasks[c], effect)
  }

  /** From a state in which the key is in order. */
  lemma {:induction false} ExactInOrder(env: DaemonEnv, s: System, d: nat, parts: seq<string>, now: u64,
                                        sign: Digest -> PerFamily, inputs: Inputs)
    requires R.StartsAt(s, d) && !R.Started(env, parts).Nothing? && O.SaneSign(env, sign)
    requires KeyOrder(s, KeyOf(R.Started(env, parts)))
    ensures var effect := R.Started(env, parts);
            var begun := R.Step(env, s, R.Begin(d, parts, now));
            (exists gos :: EndsUnbacked(env, begun, gos, KeyOf(effect))) <==> AnyConflict(s, effect)
  {
    var effect := R.Started(env, parts);
    var k := KeyOf(effect);
    var begun := R.Step(env, s, R.Begin(d, parts, now));
    if AnyConflict(s, effect) {
      var gos := UnbackedEnd(env, s, d, parts, now, sign, inputs);
      assert EndsUnbacked(env, begun, gos, k);
    } else {
      StepOrder(env, s, R.Begin(d, parts, now), k);
      forall gos | GoingOn(env, gos) ensures !EndsUnbacked(env, begun, gos, k) {
        GoingOnIsOrderly(env, begun, gos, k);
        RunOrder(env, begun, gos, k);
      }
    }
  }

  /**
   Exactly the conflicts. After any run from an idle daemon in which no command on a key started beside a conflicting one,
   a SET or DEL of it that starts now can, with no other command starting, end with the engine holding what
   the registry does not if and only if one that conflicts with it is under way.
   */
  lemma {:induction false} ConflictsAreExact(env: DaemonEnv, connections: nat, actions: seq<R.Action>, d: nat,
                                             parts: seq<string>, now: u64, sign: Digest -> PerFamily, inputs: Inputs)
    requires R.StartsAt(R.RunSystem(env, O.Idlers(connections), actions), d)
    requires !R.Started(env, parts).Nothing? && O.SaneSign(env, sign)
    requires OrderlyRun(env, O.Idlers(connections), actions, KeyOf(R.Started(env, parts)))
    ensures var s := R.RunSystem(env, O.Idlers(connections), actions);
            var effect := R.Started(env, parts);
            (exists gos :: EndsUnbacked(env, R.Step(env, s, R.Begin(d, parts, now)), gos, KeyOf(effect))) <==>
            AnyConflict(s, effect)
  {
    RunOrder(env, O.Idlers(connections), actions, KeyOf(R.Started(env, parts)));
    ExactInOrder(env, R.RunSystem(env, O.Idlers(connections), actions), d, parts, now, sign, inputs);
  }

  lemma {:induction false} UnbackedEnd(env: DaemonEnv, s: System, d: nat, parts: seq<string>, now: u64,
                                       sign: Digest -> PerFamily, inputs: Inputs) returns (gos: seq<R.Action>)
    requires R.StartsAt(s, d) && AnyConflict(s, R.Started(env, parts)) && O.SaneSign(env, sign)
    requires KeyOrder(s, KeyOf(R.Started(env, parts)))
    ensures EndsUnbacked(env, R.Step(env, s, R.Begin(d, parts, now)), gos, KeyOf(R.Started(env, parts)))
  {
    var effect := R.Started(env, parts);
    var k := KeyOf(effect);
    var begun := R.Step(env, s, R.Begin(d, parts, now));
    var c :| 0 <= c < |s.tasks| && Conflict(s.tasks[c], effect);
    var first := ConflictCanBreak(env, s, c, d, parts, now, sign, inputs);
    OneFirst(env, s, R.Begin(d, parts, now), first);
    var mid := R.RunSystem(env, begun, first);
    forall x | 0 <= x < |mid.tasks| ensures SetPending(mid.tasks[x], k) ==> mid.tasks[x].value == mid.w.engine[k] {
      if SetPending(s.tasks[x], k) && x != c { RestAgrees(s, c, x, k, effect); }
    }
    var rest := FinishRest(env, mid, |mid.tasks|, k, sign, inputs);
    gos := first + rest;
    R.RunConcat(env, begun, first, rest);
  }

  /** The other SETs that are pending write what the one in conflict writes. */
  lemma RestAgrees(s: System, c: nat, x: nat, k: string, effect: Effect)
    requires KeyOrder(s, k) && c < |s.tasks| && x < |s.tasks| && Conflict(s.tasks[c], effect) && k == KeyOf(effect)
    requires SetPending(s.tasks[x], k)
    ensures SetPending(s.tasks[c], k) && s.tasks[x].value == s.tasks[c].value
  {
    assert AnySet(s, k);
    assert !DelPending(s.tasks[c], k) by {
      if DelPending(s.tasks[c], k) { assert AnyDel(s, k); }
    }
  }
}
