/** Exactly which overlapping commands keep the audit log telling the registry. */
module LogOverlap {
  import opened Basics
  import opened OrderedMaps
  import opened Archive
  import opened Slots
  import opened Commands
  import opened AuditRuns
  import opened Replay
  import opened Retelling
  import opened Telling
  import R = Regions
  import O = Overlap
  import D = Discipline
  import A = Audit

  type System = R.System

  // ── A system seen from one key ────────────────────────────────────

  datatype Kind = Setting | Loud | Quiet | Owed

  predicate Doing(task: R.Task, k: string, kind: Kind) {
    match kind
    case Setting => (task.Registered? || task.Persisted? || task.Cached?) && task.key == k
    case Loud => task.Dropped? && task.deleted && task.key == k
    case Quiet => task.Dropped? && !task.deleted && task.key == k
    case Owed => task.Forgotten? && task.key == k
  }

  function Who(tasks: seq<R.Task>, k: string, kind: Kind): set<nat> {
    set c: nat | c < |tasks| && Doing(tasks[c], k, kind)
  }

  function One(b: bool): nat { if b then 1 else 0 }

  lemma WhoApart(tasks: seq<R.Task>, c: nat, k: string, kind: Kind)
    requires c < |tasks|
    ensures |Who(tasks, k, kind)| == |Who(tasks, k, kind) - {c}| + One(Doing(tasks[c], k, kind))
  {
    var rest := Who(tasks, k, kind) - {c};
    assert Who(tasks, k, kind) == if Doing(tasks[c], k, kind) then rest + {c} else rest;
  }

  lemma WhoElse(tasks: seq<R.Task>, c: nat, task: R.Task, k: string, kind: Kind)
    requires c < |tasks|
    ensures Who(tasks[c := task], k, kind) - {c} == Who(tasks, k, kind) - {c}
  {
    forall d: nat | d < |tasks| && d != c ensures Doing(tasks[c := task][d], k, kind) <==> Doing(tasks[d], k, kind) {
      assert tasks[c := task][d] == tasks[d];
    }
  }

  lemma WhoAfter(tasks: seq<R.Task>, c: nat, task: R.Task, k: string, kind: Kind)
    requires c < |tasks|
    ensures |Who(tasks[c := task], k, kind)|
         == |Who(tasks, k, kind)| - One(Doing(tasks[c], k, kind)) + One(Doing(task, k, kind))
  {
    WhoApart(tasks, c, k, kind);
    WhoApart(tasks[c := task], c, k, kind);
    WhoElse(tasks, c, task, k, kind);
  }

  function Entry<T>(m: map<string, T>, k: string): Option<T> { if k in m then Some(m[k]) else None }

  function ViewOf(env: DaemonEnv, w: World, tasks: seq<R.Task>, tales: Tales, k: string): KeyView {
    KeyView(Entry(TalesOf(env, w.slots), k), Entry(tales, k), |Who(tasks, k, Setting)|, |Who(tasks, k, Loud)|,
         |Who(tasks, k, Quiet)|, |Who(tasks, k, Owed)|)
  }

  /** What the next region of a task does to key `k`. */
  function ChangeOf(task: R.Task, k: string): Change {
    match task
    case Cached(key) => if key == k then LogSlot else Stay
    case Dropped(key, deleted) => if key != k then Stay else if deleted then ForgetLoud else ForgetQuiet
    case Forgotten(key) => if key == k then LogDeletion else Stay
    case _ => Stay
  }

  /** What the log tells. */
  function LogTells(env: DaemonEnv, w: World): Option<Tales> {
    Retold(A.Readable(env.audit, w.log.db))
  }

  ghost predicate AllSafe(env: DaemonEnv, s: System) {
    LogTells(env, s.w).Some? && forall k :: Safe(ViewOf(env, s.w, s.tasks, LogTells(env, s.w).value, k))
  }

  // ── Room in the log ───────────────────────────────────────────────

  function StepsOf(task: R.Task): nat {
    match task
    case Idle => 0
    case Registered(_, _) => 3
    case Persisted(_, _) => 2
    case Cached(_) => 1
    case Dropped(_, _) => 2
    case Forgotten(_) => 1
  }

  /** How many regions at most are still to come. */
  function Left(tasks: seq<R.Task>): nat {
    if |tasks| == 0 then 0 else Left(tasks[..|tasks| - 1]) + StepsOf(tasks[|tasks| - 1])
  }

  lemma {:induction false} LeftAfter(tasks: seq<R.Task>, c: nat, task: R.Task)
    requires c < |tasks|
    ensures Left(tasks[c := task]) == Left(tasks) - StepsOf(tasks[c]) + StepsOf(task)
    ensures StepsOf(tasks[c]) <= Left(tasks)
    decreases |tasks|
  {
    var n := |tasks| - 1;
    if c < n {
      LeftAfter(tasks[..n], c, task);
      assert tasks[c := task][..n] == tasks[..n][c := task];
    } else {
      assert tasks[c := task][..n] == tasks[..n];
    }
  }

  lemma {:induction false} NothingLeft(tasks: seq<R.Task>)
    requires Left(tasks) == 0
    ensures forall c | 0 <= c < |tasks| :: tasks[c].Idle?
  {
    if |tasks| != 0 {
      NothingLeft(tasks[..|tasks| - 1]);
    }
  }

  lemma {:induction false} SomeLeft(tasks: seq<R.Task>) returns (c: nat)
    requires Left(tasks) > 0
    ensures c < |tasks| && !tasks[c].Idle?
  {
    var n := |tasks| - 1;
    if tasks[n].Idle? {
      c := SomeLeft(tasks[..n]);
    } else {
      c := n;
    }
  }

  /** The log is whole and takes what is under way and `n` entries more. */
  ghost predicate Roomy(env: DaemonEnv, s: System, n: nat) {
    && A.JsonFaithful(env.audit) && NothingUnflushed(env.audit, s.w.log)
    && s.w.log.nextSequence + Left(s.tasks) + n < U64_LIMIT
  }

  // ── One region ────────────────────────────────────────────────────

  /** The log with one more event. */
  lemma EventTold(env: DaemonEnv, w: World, event: A.Event, inputs: Inputs)
    requires Ready(env, w.log) && inputs.logFault == NoFault
    ensures var w' := w.(log := Logged(env, w.log, event, inputs));
            && LogTells(env, w') == Tell(LogTells(env, w), event)
            && NothingUnflushed(env.audit, w'.log) && w'.log.nextSequence == w.log.nextSequence + 1
  {
    LogGrows(env, w.log, event, inputs);
    RetoldNext(A.Readable(env.audit, w.log.db), A.NewEntry(env.audit, w.log, event, inputs.loggedAt));
  }

  /** A connection takes its next region: what that makes of the log's tales. */
  function NextTelling(env: DaemonEnv, w: World, task: R.Task): Option<Tales> {
    match task
    case Cached(key) =>
      if key in w.slots then Tell(LogTells(env, w), CreatedEvent(env, key, w.slots[key])) else LogTells(env, w)
    case Forgotten(key) => Tell(LogTells(env, w), A.EntryDeleted(key))
    case _ => LogTells(env, w)
  }

  function NextTask(task: R.Task): R.Task {
    match task
    case Registered(key, value) => R.Persisted(key, value)
    case Persisted(key, _) => R.Cached(key)
    case Dropped(key, deleted) => if deleted then R.Forgotten(key) else R.Idle
    case _ => R.Idle
  }

  function NextSlots(w: World, task: R.Task): map<string, Slot> {
    if task.Dropped? then w.slots - {task.key} else w.slots
  }

  lemma CreationLog(env: DaemonEnv, w: World, key: string, inputs: Inputs)
    requires Ready(env, w.log) && inputs.logFault == NoFault
    ensures var w' := R.LogCreation(env, w, key, inputs);
            && LogTells(env, w') == NextTelling(env, w, R.Cached(key)) && NothingUnflushed(env.audit, w'.log)
            && w'.log.nextSequence <= w.log.nextSequence + 1
  {
    if key in w.slots { EventTold(env, w, CreatedEvent(env, key, w.slots[key]), inputs); }
  }

  lemma NextLog(env: DaemonEnv, s: System, c: nat, sign: Digest -> PerFamily, inputs: Inputs)
    requires c < |s.tasks| && Ready(env, s.w.log) && inputs.logFault == NoFault
    ensures var t := R.Next(env, s, c, sign, inputs);
            && LogTells(env, t.w) == NextTelling(env, s.w, s.tasks[c]) && NothingUnflushed(env.audit, t.w.log)
            && t.w.log.nextSequence <= s.w.log.nextSequence + 1
  {
    var t := R.Next(env, s, c, sign, inputs);
    match s.tasks[c]
    case Cached(key) => CreationLog(env, s.w, key, inputs);
    case Forgotten(key) => EventTold(env, s.w, A.EntryDeleted(key), inputs);
    case _ => assert t.w.log == s.w.log;
  }

  lemma NextIs(env: DaemonEnv, s: System, c: nat, sign: Digest -> PerFamily, inputs: Inputs)
    requires c < |s.tasks|
    ensures var t := R.Next(env, s, c, sign, inputs);
            t.tasks == s.tasks[c := NextTask(s.tasks[c])] && t.w.slots == NextSlots(s.w, s.tasks[c])
  {
    if s.tasks[c].Idle? {
      assert s.tasks[c := R.Idle] == s.tasks;
    }
  }

  lemma NextRoomy(env: DaemonEnv, s: System, c: nat, sign: Digest -> PerFamily, inputs: Inputs, n: nat)
    requires c < |s.tasks| && !s.tasks[c].Idle? && Roomy(env, s, n) && inputs.logFault == NoFault
    ensures Ready(env, s.w.log)
    ensures var t := R.Next(env, s, c, sign, inputs); Roomy(env, t, n) && Left(t.tasks) < Left(s.tasks)
  {
    LeftAfter(s.tasks, c, NextTask(s.tasks[c]));
    NextLog(env, s, c, sign, inputs);
    NextIs(env, s, c, sign, inputs);
  }

  /** The key a task is about. */
  function KeyOf(task: R.Task): string { if task.Idle? then "" else task.key }

  /** How many commands of each kind a region leaves. */
  lemma CountsAfter(tasks: seq<R.Task>, c: nat, k: string)
    requires c < |tasks|
    ensures var m, after := ChangeOf(tasks[c], k), tasks[c := NextTask(tasks[c])];
            && |Who(after, k, Setting)| == |Who(tasks, k, Setting)| - One(m.LogSlot?)
            && |Who(after, k, Loud)| == |Who(tasks, k, Loud)| - One(m.ForgetLoud?)
            && |Who(after, k, Quiet)| == |Who(tasks, k, Quiet)| - One(m.ForgetQuiet?)
            && |Who(after, k, Owed)| == |Who(tasks, k, Owed)| + One(m.ForgetLoud?) - One(m.LogDeletion?)
  {
    var next := NextTask(tasks[c]);
    WhoAfter(tasks, c, next, k, Setting);
    WhoAfter(tasks, c, next, k, Loud);
    WhoAfter(tasks, c, next, k, Quiet);
    WhoAfter(tasks, c, next, k, Owed);
  }

  /** On its own key and on every other a region makes one of the changes. */
  lemma RegionChanges(env: DaemonEnv, w: World, w': World, tasks: seq<R.Task>, c: nat,
                      tales: Tales, tales': Tales, k: string)
    requires c < |tasks| && w'.slots == NextSlots(w, tasks[c])
    requires LogTells(env, w) == Some(tales) && NextTelling(env, w, tasks[c]) == Some(tales')
    ensures var v := ViewOf(env, w, tasks, tales, k);
            && CanChange(v, ChangeOf(tasks[c], k)) && !Contradicts(v, ChangeOf(tasks[c], k))
            && ViewOf(env, w', tasks[c := NextTask(tasks[c])], tales', k) == Changed(v, ChangeOf(tasks[c], k))
  {
    CountsAfter(tasks, c, k);
    if tasks[c].Cached? && tasks[c].key in w.slots {
      CreationTold(env, tales, tasks[c].key, w.slots[tasks[c].key]);
    }
  }

  /** A region that the log makes nothing of contradicts it on the task's own key. */
  lemma NothingToldContradicts(env: DaemonEnv, w: World, tasks: seq<R.Task>, c: nat, tales: Tales)
    requires c < |tasks| && LogTells(env, w) == Some(tales)
    ensures var k := KeyOf(tasks[c]);
            NextTelling(env, w, tasks[c]).None? <==> Contradicts(ViewOf(env, w, tasks, tales, k), ChangeOf(tasks[c], k))
  {
    if tasks[c].Cached? && tasks[c].key in w.slots {
      CreationTold(env, tales, tasks[c].key, w.slots[tasks[c].key]);
    }
  }

  /** What one region of a connection makes of a system whose log tells something. */
  lemma NextSafe(env: DaemonEnv, s: System, c: nat, sign: Digest -> PerFamily, inputs: Inputs, n: nat)
    requires c < |s.tasks| && !s.tasks[c].Idle? && Roomy(env, s, n) && inputs.logFault == NoFault && AllSafe(env, s)
    ensures AllSafe(env, R.Next(env, s, c, sign, inputs))
  {
    var t := R.Next(env, s, c, sign, inputs);
    var tales := LogTells(env, s.w).value;
    var key := KeyOf(s.tasks[c]);
    NextRoomy(env, s, c, sign, inputs, n);
    NextLog(env, s, c, sign, inputs);
    NextIs(env, s, c, sign, inputs);
    NothingToldContradicts(env, s.w, s.tasks, c, tales);
    if !ChangeOf(s.tasks[c], key).Stay? { WhoDoes(s.tasks, c, key); }
    SafeGoesOn(ViewOf(env, s.w, s.tasks, tales, key), ChangeOf(s.tasks[c], key));
    forall k ensures Safe(ViewOf(env, t.w, t.tasks, LogTells(env, t.w).value, k)) {
      RegionChanges(env, s.w, t.w, s.tasks, c, tales, LogTells(env, t.w).value, k);
      SafeGoesOn(ViewOf(env, s.w, s.tasks, tales, k), ChangeOf(s.tasks[c], k));
    }
  }

  lemma WhoDoes(tasks: seq<R.Task>, c: nat, k: string)
    requires c < |tasks| && !ChangeOf(tasks[c], k).Stay?
    ensures |Who(tasks, k, KindOf(ChangeOf(tasks[c], k)))| > 0
  {
    WhoApart(tasks, c, k, KindOf(ChangeOf(tasks[c], k)));
  }

  function KindOf(m: Change): Kind
    requires !m.Stay?
  {
    match m
    case LogSlot => Setting
    case ForgetLoud => Loud
    case ForgetQuiet => Quiet
    case LogDeletion => Owed
  }

  // ── Whatever is under way goes on ─────────────────────────────────

  /** Commands under way go on, whichever and however far, none starts, and every append succeeds. */
  ghost predicate GoingOn(env: DaemonEnv, gos: seq<R.Action>) {
    D.GoingOn(env, gos) && forall i | 0 <= i < |gos| :: gos[i].inputs.logFault == NoFault
  }

  predicate AllIdle(s: System) { forall c | 0 <= c < |s.tasks| :: s.tasks[c].Idle? }

  /** They end, and the log does not tell the registry. */
  ghost predicate EndsUntold(env: DaemonEnv, s: System, gos: seq<R.Action>) {
    GoingOn(env, gos) && var t := R.RunSystem(env, s, gos); AllIdle(t) && !TellsAll(env, t.w)
  }

  lemma GoSafe(env: DaemonEnv, s: System, go: R.Action)
    requires Roomy(env, s, 0) && AllSafe(env, s) && go.Proceed? && go.inputs.logFault == NoFault
    ensures Roomy(env, R.Step(env, s, go), 0) && AllSafe(env, R.Step(env, s, go))
  {
    if go.c < |s.tasks| && !s.tasks[go.c].Idle? {
      NextSafe(env, s, go.c, go.sign, go.inputs, 0);
      NextRoomy(env, s, go.c, go.sign, go.inputs, 0);
    }
  }

  lemma {:induction false} RunSafe(env: DaemonEnv, s: System, gos: seq<R.Action>)
    requires Roomy(env, s, 0) && AllSafe(env, s) && GoingOn(env, gos)
    ensures AllSafe(env, R.RunSystem(env, s, gos))
    decreases |gos|
  {
    if |gos| != 0 {
      GoSafe(env, s, gos[0]);
      RunSafe(env, R.Step(env, s, gos[0]), gos[1..]);
    }
  }

  lemma NobodyWho(s: System, k: string, kind: Kind)
    requires AllIdle(s)
    ensures Who(s.tasks, k, kind) == {}
  {
  }

  /** With nothing under way, safe means told. */
  lemma IdleIsTold(env: DaemonEnv, s: System)
    requires AllIdle(s)
    ensures AllSafe(env, s) <==> TellsAll(env, s.w)
  {
    forall k, kind ensures Who(s.tasks, k, kind) == {} {
      NobodyWho(s, k, kind);
    }
    if LogTells(env, s.w).Some? {
      var tales, slots := LogTells(env, s.w).value, TalesOf(env, s.w.slots);
      forall k ensures Safe(ViewOf(env, s.w, s.tasks, tales, k)) <==> Entry(tales, k) == Entry(slots, k) {
        DoneIsSafe(ViewOf(env, s.w, s.tasks, tales, k));
      }
      SameEntries(tales, slots);
    }
  }

  lemma SameEntries<T>(m: map<string, T>, n: map<string, T>)
    ensures m == n <==> forall k :: Entry(m, k) == Entry(n, k)
  {
    if forall k :: Entry(m, k) == Entry(n, k) {
      forall k ensures (k in m <==> k in n) && (k in m ==> m[k] == n[k]) {
        assert Entry(m, k) == Entry(n, k);
      }
    }
  }

  // ── And can end badly if it is not safe ───────────────────────────

  lemma SilentStaysSilent(env: DaemonEnv, s: System, c: nat, sign: Digest -> PerFamily, inputs: Inputs)
    requires c < |s.tasks| && Ready(env, s.w.log) && inputs.logFault == NoFault && LogTells(env, s.w).None?
    ensures LogTells(env, R.Next(env, s, c, sign, inputs).w).None?
  {
    NextLog(env, s, c, sign, inputs);
  }

  /** A connection whose next region leaves the system unsafe. */
  lemma {:induction false} UnsafeNext(env: DaemonEnv, s: System, sign: Digest -> PerFamily, inputs: Inputs) returns (c: nat)
    requires Ready(env, s.w.log) && inputs.logFault == NoFault && !AllSafe(env, s) && Left(s.tasks) > 0
    ensures c < |s.tasks| && !s.tasks[c].Idle? && !AllSafe(env, R.Next(env, s, c, sign, inputs))
  {
    if LogTells(env, s.w).None? {
      c := SomeLeft(s.tasks);
      SilentStaysSilent(env, s, c, sign, inputs);
    } else {
      var tales := LogTells(env, s.w).value;
      var k :| !Safe(ViewOf(env, s.w, s.tasks, tales, k));
      c := SpoilerOf(s.tasks, ViewOf(env, s.w, s.tasks, tales, k), k);
      Spoiled(env, s, c, sign, inputs, tales, k);
    }
  }

  /** The view counts these tasks. */
  predicate CountedIn(v: KeyView, tasks: seq<R.Task>, k: string) {
    && v.sets == |Who(tasks, k, Setting)| && v.loud == |Who(tasks, k, Loud)|
    && v.quiet == |Who(tasks, k, Quiet)| && v.owed == |Who(tasks, k, Owed)|
  }

  /** A task that leaves the key's view as it is, or spoils it. */
  lemma SpoilerOf(tasks: seq<R.Task>, v: KeyView, k: string) returns (c: nat)
    requires Left(tasks) > 0 && !Safe(v) && CountedIn(v, tasks, k)
    ensures c < |tasks| && !tasks[c].Idle?
    ensures var m := ChangeOf(tasks[c], k); m.Stay? || Spoils(v, m)
  {
    if d: nat :| d < |tasks| && !tasks[d].Idle? && ChangeOf(tasks[d], k).Stay? {
      c := d;
    } else {
      var d := SomeLeft(tasks);
      WhoDoes(tasks, d, k);
      var m := UnsafeGoesOn(v);
      c := TaskFor(tasks, k, m);
    }
  }

  lemma TaskFor(tasks: seq<R.Task>, k: string, m: Change) returns (c: nat)
    requires !m.Stay? && |Who(tasks, k, KindOf(m))| > 0
    requires forall d: nat | d < |tasks| && !tasks[d].Idle? :: !ChangeOf(tasks[d], k).Stay?
    ensures c < |tasks| && !tasks[c].Idle? && ChangeOf(tasks[c], k) == m
  {
    c :| c in Who(tasks, k, KindOf(m));
    assert Doing(tasks[c], k, KindOf(m));
  }

  lemma {:induction false} Spoiled(env: DaemonEnv, s: System, c: nat, sign: Digest -> PerFamily, inputs: Inputs,
                                   tales: Tales, k: string)
    requires c < |s.tasks| && Ready(env, s.w.log) && inputs.logFault == NoFault && LogTells(env, s.w) == Some(tales)
    requires !Safe(ViewOf(env, s.w, s.tasks, tales, k))
    requires var m := ChangeOf(s.tasks[c], k); m.Stay? || Spoils(ViewOf(env, s.w, s.tasks, tales, k), m)
    ensures !AllSafe(env, R.Next(env, s, c, sign, inputs))
  {
    var t := R.Next(env, s, c, sign, inputs);
    NextLog(env, s, c, sign, inputs);
    NextIs(env, s, c, sign, inputs);
    if LogTells(env, t.w).Some? {
      RegionChanges(env, s.w, t.w, s.tasks, c, tales, LogTells(env, t.w).value, k);
      assert !Safe(ViewOf(env, t.w, t.tasks, LogTells(env, t.w).value, k));
    }
  }

  lemma {:induction false} UntoldThen(env: DaemonEnv, s: System, c: nat, sign: Digest -> PerFamily, inputs: Inputs,
                                      rest: seq<R.Action>)
    requires c < |s.tasks| && inputs.logFault == NoFault && O.SaneSign(env, sign)
    requires EndsUntold(env, R.Next(env, s, c, sign, inputs), rest)
    ensures EndsUntold(env, s, [R.Proceed(c, sign, inputs)] + rest)
  {
    D.OneFirst(env, s, R.Proceed(c, sign, inputs), rest);
  }

  lemma {:induction false} UntoldEnd(env: DaemonEnv, s: System, sign: Digest -> PerFamily, inputs: Inputs)
      returns (gos: seq<R.Action>)
    requires Roomy(env, s, 0) && inputs.logFault == NoFault && O.SaneSign(env, sign) && !AllSafe(env, s)
    ensures EndsUntold(env, s, gos)
    decreases Left(s.tasks)
  {
    if Left(s.tasks) == 0 {
      gos := [];
      NothingLeft(s.tasks);
      IdleIsTold(env, s);
    } else {
      var c := UnsafeNext(env, s, sign, inputs);
      NextRoomy(env, s, c, sign, inputs, 0);
      var rest := UntoldEnd(env, R.Next(env, s, c, sign, inputs), sign, inputs);
      gos := [R.Proceed(c, sign, inputs)] + rest;
      UntoldThen(env, s, c, sign, inputs, rest);
    }
  }

  /**
   From any state of all the commands under way, if every append succeeds: they can end with the log not telling the
   registry exactly if some key is not safe.
   */
  lemma {:induction false} SafeIsExact(env: DaemonEnv, s: System, sign: Digest -> PerFamily, inputs: Inputs)
    requires Roomy(env, s, 0) && inputs.logFault == NoFault && O.SaneSign(env, sign)
    ensures (exists gos :: EndsUntold(env, s, gos)) <==> !AllSafe(env, s)
  {
    if AllSafe(env, s) {
      forall gos | GoingOn(env, gos) ensures !EndsUntold(env, s, gos) {
        RunSafe(env, s, gos);
        if AllIdle(R.RunSystem(env, s, gos)) { IdleIsTold(env, R.RunSystem(env, s, gos)); }
      }
    } else {
      var gos := UntoldEnd(env, s, sign, inputs);
    }
  }

  // ── Commands that start ───────────────────────────────────────────

  /** The append succeeds, GETVERIFIED logs what it logs, and no restart. */
  predicate Logs(a: R.Action) {
    match a
    case Proceed(_, _, inputs) => inputs.logFault == NoFault
    case Whole(_, inputs) => inputs.logFault == NoFault
    case Report(event, inputs) => inputs.logFault == NoFault && (event.VerificationPerformed? || event.VerificationFailed?)
    case Restart(_, _) => false
    case _ => true
  }

  /** What the log makes of a transition. */
  function Reading(tales: Tales, event: A.Event): Option<Fate> {
    match event
    case StateTransition(_, _, to, _, reason) => FateTold(tales, to, reason)
    case _ => None
  }

  /** The action may come now: only commands that start can be out of place. */
  predicate May(env: DaemonEnv, s: System, a: R.Action) {
    match LogTells(env, s.w)
    case None => false
    case Some(tales) =>
      match a
      case Begin(c, parts, _) => R.StartsAt(s, c) ==> MayBegin(env, s, R.Started(env, parts), tales)
      case Whole(parts, inputs) =>
        R.HeldThroughout(VerbIn(env, parts)) ==> MayTake(env, s, EffectOf(env, s.w, parts, inputs), tales)
      case _ => true
  }

  predicate MayBegin(env: DaemonEnv, s: System, effect: Effect, tales: Tales) {
    match effect
    case Set(k, _, _) => MaySet(ViewOf(env, s.w, s.tasks, tales, k))
    case Delete(k) => MayDelete(ViewOf(env, s.w, s.tasks, tales, k), k in s.w.engine)
    case _ => true
  }

  predicate MayTake(env: DaemonEnv, s: System, effect: Effect, tales: Tales) {
    match effect
    case Move(k, to, event) => MayMove(ViewOf(env, s.w, s.tasks, tales, k), FateOf(to), Reading(tales, event))
    case _ => true
  }

  /** Only one key's view changed. */
  lemma OnlyKey(env: DaemonEnv, s: System, t: System, key: string)
    requires AllSafe(env, s) && LogTells(env, t.w).Some?
    requires forall k | k != key :: ViewOf(env, t.w, t.tasks, LogTells(env, t.w).value, k)
                                 == ViewOf(env, s.w, s.tasks, LogTells(env, s.w).value, k)
    ensures AllSafe(env, t) <==> Safe(ViewOf(env, t.w, t.tasks, LogTells(env, t.w).value, key))
  {
    forall k | k != key ensures Safe(ViewOf(env, t.w, t.tasks, LogTells(env, t.w).value, k)) {
      assert Safe(ViewOf(env, s.w, s.tasks, LogTells(env, s.w).value, k));
    }
  }

  /** Nothing that registry, log and tasks have to do with each other changed. */
  lemma SameViews(env: DaemonEnv, s: System, t: System)
    requires LogTells(env, t.w) == LogTells(env, s.w) && t.w.slots == s.w.slots && t.tasks == s.tasks
    ensures AllSafe(env, t) <==> AllSafe(env, s)
  {
    if LogTells(env, s.w).Some? {
      forall k ensures ViewOf(env, t.w, t.tasks, LogTells(env, t.w).value, k)
                    == ViewOf(env, s.w, s.tasks, LogTells(env, s.w).value, k) {
      }
    }
  }

  /** A connection that was idle has a task now. */
  lemma WhoStarts(tasks: seq<R.Task>, c: nat, task: R.Task, k: string, kind: Kind)
    requires c < |tasks| && tasks[c].Idle?
    ensures |Who(tasks[c := task], k, kind)| == |Who(tasks, k, kind)| + One(Doing(task, k, kind))
  {
    WhoAfter(tasks, c, task, k, kind);
  }

  lemma SetView(env: DaemonEnv, s: System, c: nat, key: string, value: Bytes, slot: Slot, tales: Tales, k: string)
    requires R.StartsAt(s, c)
    ensures var v := ViewOf(env, s.w, s.tasks, tales, k);
            var w := s.w.(slots := s.w.slots[key := slot]);
            var after := ViewOf(env, w, s.tasks[c := R.Registered(key, value)], tales, k);
            after == if k == key then v.(reg := Some(TaleOf(env, slot)), sets := v.sets + 1) else v
  {
    var task := R.Registered(key, value);
    WhoStarts(s.tasks, c, task, k, Setting);
    WhoStarts(s.tasks, c, task, k, Loud);
    WhoStarts(s.tasks, c, task, k, Quiet);
    WhoStarts(s.tasks, c, task, k, Owed);
    TalesAfter(env, s.w.slots, key, slot);
  }

  lemma DeleteView(env: DaemonEnv, s: System, c: nat, key: string, deleted: bool, w: World, tales: Tales, k: string)
    requires R.StartsAt(s, c) && w.slots == s.w.slots
    ensures var v := ViewOf(env, s.w, s.tasks, tales, k);
            var after := ViewOf(env, w, s.tasks[c := R.Dropped(key, deleted)], tales, k);
            after == if k != key then v else if deleted then v.(loud := v.loud + 1) else v.(quiet := v.quiet + 1)
  {
    var task := R.Dropped(key, deleted);
    WhoStarts(s.tasks, c, task, k, Setting);
    WhoStarts(s.tasks, c, task, k, Loud);
    WhoStarts(s.tasks, c, task, k, Quiet);
    WhoStarts(s.tasks, c, task, k, Owed);
  }

  lemma SetBegins(env: DaemonEnv, s: System, c: nat, effect: Effect, now: u64)
    requires R.StartsAt(s, c) && AllSafe(env, s) && effect.Set?
    ensures AllSafe(env, R.First(env, s, c, effect, now)) <==> MayBegin(env, s, effect, LogTells(env, s.w).value)
  {
    var t, tales := R.First(env, s, c, effect, now), LogTells(env, s.w).value;
    var slot := NewSlot(env.store.sha3, effect.value, effect.fp, now);
    forall k ensures ViewOf(env, t.w, t.tasks, tales, k)
                  == ViewOf(env, s.w.(slots := s.w.slots[effect.key := slot]),
                            s.tasks[c := R.Registered(effect.key, effect.value)], tales, k) {
    }
    forall k | k != effect.key ensures ViewOf(env, t.w, t.tasks, tales, k) == ViewOf(env, s.w, s.tasks, tales, k) {
      SetView(env, s, c, effect.key, effect.value, slot, tales, k);
    }
    SetView(env, s, c, effect.key, effect.value, slot, tales, effect.key);
    OnlyKey(env, s, t, effect.key);
    SetStarts(ViewOf(env, s.w, s.tasks, tales, effect.key), TaleOf(env, slot));
  }

  lemma DeleteBegins(env: DaemonEnv, s: System, c: nat, effect: Effect, now: u64)
    requires R.StartsAt(s, c) && AllSafe(env, s) && effect.Delete?
    ensures AllSafe(env, R.First(env, s, c, effect, now)) <==> MayBegin(env, s, effect, LogTells(env, s.w).value)
  {
    var t, tales := R.First(env, s, c, effect, now), LogTells(env, s.w).value;
    var deleted := effect.key in s.w.engine;
    forall k | k != effect.key ensures ViewOf(env, t.w, t.tasks, tales, k) == ViewOf(env, s.w, s.tasks, tales, k) {
      DeleteView(env, s, c, effect.key, deleted, t.w, tales, k);
    }
    DeleteView(env, s, c, effect.key, deleted, t.w, tales, effect.key);
    OnlyKey(env, s, t, effect.key);
    DeleteStarts(ViewOf(env, s.w, s.tasks, tales, effect.key), deleted);
  }

  lemma BeginExact(env: DaemonEnv, s: System, c: nat, parts: seq<string>, now: u64)
    requires AllSafe(env, s)
    ensures AllSafe(env, R.Step(env, s, R.Begin(c, parts, now))) <==> May(env, s, R.Begin(c, parts, now))
  {
    if R.StartsAt(s, c) {
      var effect := R.Started(env, parts);
      if effect.Set? {
        SetBegins(env, s, c, effect, now);
      } else if effect.Delete? {
        DeleteBegins(env, s, c, effect, now);
      }
    }
  }

  lemma MoveView(env: DaemonEnv, w: World, w': World, tasks: seq<R.Task>, tales: Tales, key: string, to: EntryState,
                 read: Fate, k: string)
    requires key in w.slots && w'.slots == w.slots[key := w.slots[key].(state := to)] && key in tales
    ensures var v := ViewOf(env, w, tasks, tales, k);
            var after := ViewOf(env, w', tasks, tales[key := tales[key].(fate := read)], k);
            after == if k != key then v
                     else v.(reg := Some(v.reg.value.(fate := FateOf(to))), told := Some(v.told.value.(fate := read)))
  {
    TalesAfter(env, w.slots, key, w.slots[key].(state := to));
  }

  lemma MoveTaken(env: DaemonEnv, s: System, key: string, to: EntryState, event: A.Event, inputs: Inputs)
    requires AllSafe(env, s) && Ready(env, s.w.log) && inputs.logFault == NoFault && Told(s.w.slots, Move(key, to, event))
    ensures AllSafe(env, s.(w := Moved(env, s.w, key, to, event, inputs))) <==>
            MayTake(env, s, Move(key, to, event), LogTells(env, s.w).value)
  {
    var tales := LogTells(env, s.w).value;
    var t := s.(w := Moved(env, s.w, key, to, event, inputs));
    var v := ViewOf(env, s.w, s.tasks, tales, key);
    EventTold(env, s.w, event, inputs);
    ReplacedIsNotRevoked(s.w.slots, key, to, event);
    assert LogTells(env, t.w) == Tell(Some(tales), event);
    if key in tales && tales[key].fate.Alive? && Reading(tales, event).Some? {
      var read := Reading(tales, event).value;
      assert LogTells(env, t.w) == Some(tales[key := tales[key].(fate := read)]);
      forall k | k != key
        ensures ViewOf(env, t.w, t.tasks, LogTells(env, t.w).value, k) == ViewOf(env, s.w, s.tasks, tales, k)
      {
        MoveView(env, s.w, t.w, s.tasks, tales, key, to, read, k);
      }
      MoveView(env, s.w, t.w, s.tasks, tales, key, to, read, key);
      OnlyKey(env, s, t, key);
      MoveStarts(v, FateOf(to), read);
    }
  }

  lemma AnchorSaysNothing(env: DaemonEnv, w: World, inputs: Inputs)
    requires Ready(env, w.log) && inputs.logFault == NoFault
    ensures LogTells(env, AnchorTaken(env, w, inputs)) == LogTells(env, w)
  {
    if A.Unanchored(w.log) != [] {
      EventTold(env, w, A.AnchorEvent(env.audit, w.log), inputs);
    }
  }

  lemma AnchorSafe(env: DaemonEnv, s: System, inputs: Inputs)
    requires AllSafe(env, s) && Ready(env, s.w.log) && inputs.logFault == NoFault
    ensures AllSafe(env, s.(w := AnchorTaken(env, s.w, inputs)))
  {
    AnchorSaysNothing(env, s.w, inputs);
    SameViews(env, s, s.(w := AnchorTaken(env, s.w, inputs)));
  }

  lemma EffectExact(env: DaemonEnv, s: System, effect: Effect, inputs: Inputs)
    requires AllSafe(env, s) && Ready(env, s.w.log) && inputs.logFault == NoFault
    requires Told(s.w.slots, effect) && (effect.Nothing? || effect.Move? || effect.Anchor?)
    ensures AllSafe(env, s.(w := Commands.Apply(env, s.w, effect, inputs))) <==>
            MayTake(env, s, effect, LogTells(env, s.w).value)
  {
    match effect
    case Nothing =>
    case Move(key, to, event) => MoveTaken(env, s, key, to, event, inputs);
    case Anchor => AnchorSafe(env, s, inputs);
  }

  lemma HeldEffects(env: DaemonEnv, w: World, parts: seq<string>, inputs: Inputs)
    requires R.HeldThroughout(VerbIn(env, parts))
    ensures var e := EffectOf(env, w, parts, inputs); e.Nothing? || e.Move? || e.Anchor?
  {
  }

  lemma WholeExact(env: DaemonEnv, s: System, parts: seq<string>, inputs: Inputs)
    requires AllSafe(env, s) && Ready(env, s.w.log) && inputs.logFault == NoFault
    ensures AllSafe(env, R.Step(env, s, R.Whole(parts, inputs))) <==> May(env, s, R.Whole(parts, inputs))
  {
    if R.HeldThroughout(VerbIn(env, parts)) {
      HeldEffects(env, s.w, parts, inputs);
      EffectIsTold(env, s.w, parts, inputs);
      EffectExact(env, s, EffectOf(env, s.w, parts, inputs), inputs);
    }
  }

  lemma ReportExact(env: DaemonEnv, s: System, event: A.Event, inputs: Inputs)
    requires AllSafe(env, s) && Ready(env, s.w.log) && Logs(R.Report(event, inputs))
    ensures AllSafe(env, R.Step(env, s, R.Report(event, inputs)))
  {
    EventTold(env, s.w, event, inputs);
    SameViews(env, s, R.Step(env, s, R.Report(event, inputs)));
  }

  lemma ProceedExact(env: DaemonEnv, s: System, c: nat, sign: Digest -> PerFamily, inputs: Inputs, n: nat)
    requires AllSafe(env, s) && Roomy(env, s, n) && inputs.logFault == NoFault
    ensures AllSafe(env, R.Step(env, s, R.Proceed(c, sign, inputs)))
  {
    if c < |s.tasks| && !s.tasks[c].Idle? {
      NextSafe(env, s, c, sign, inputs, n);
    }
  }

  /** A safe system stays safe exactly if the action may come now. */
  lemma StepExact(env: DaemonEnv, s: System, a: R.Action, n: nat)
    requires AllSafe(env, s) && Roomy(env, s, n + 3) && Logs(a)
    ensures AllSafe(env, R.Step(env, s, a)) <==> May(env, s, a)
  {
    match a
    case Begin(c, parts, now) => BeginExact(env, s, c, parts, now);
    case Proceed(c, sign, inputs) => ProceedExact(env, s, c, sign, inputs, n);
    case Whole(parts, inputs) => WholeExact(env, s, parts, inputs);
    case Report(event, inputs) => ReportExact(env, s, event, inputs);
    case Evict(_) => SameViews(env, s, R.Step(env, s, a));
    case Restart(_, _) =>
  }

  // ── Room for a whole run ──────────────────────────────────────────

  lemma BeginRoomy(env: DaemonEnv, s: System, c: nat, parts: seq<string>, now: u64, n: nat)
    requires Roomy(env, s, n + 3)
    ensures Roomy(env, R.Step(env, s, R.Begin(c, parts, now)), n)
  {
    var t := R.Step(env, s, R.Begin(c, parts, now));
    if R.StartsAt(s, c) {
      LeftAfter(s.tasks, c, t.tasks[c]);
      assert s.tasks[c := t.tasks[c]] == t.tasks;
    }
  }

  lemma StepRoomy(env: DaemonEnv, s: System, a: R.Action, n: nat)
    requires Roomy(env, s, n + 3) && Logs(a)
    ensures Roomy(env, R.Step(env, s, a), n)
  {
    match a
    case Begin(c, parts, now) => BeginRoomy(env, s, c, parts, now, n);
    case Proceed(c, sign, inputs) => if c < |s.tasks| && !s.tasks[c].Idle? { NextRoomy(env, s, c, sign, inputs, n + 3); }
    case Whole(parts, inputs) => EffectReady(env, s.w, EffectOf(env, s.w, parts, inputs), inputs);
    case Report(event, inputs) => EventTold(env, s.w, event, inputs);
    case Evict(_) =>
    case Restart(_, _) =>
  }

  /** Every action of the run may come when it does. */
  predicate Mannerly(env: DaemonEnv, s: System, actions: seq<R.Action>)
    decreases |actions|
  {
    |actions| == 0 || (May(env, s, actions[0]) && Mannerly(env, R.Step(env, s, actions[0]), actions[1..]))
  }

  lemma {:induction false} RunMannerly(env: DaemonEnv, s: System, actions: seq<R.Action>, n: nat)
    requires AllSafe(env, s) && Roomy(env, s, n + 3 * |actions|) && Mannerly(env, s, actions)
    requires forall i | 0 <= i < |actions| :: Logs(actions[i])
    ensures AllSafe(env, R.RunSystem(env, s, actions)) && Roomy(env, R.RunSystem(env, s, actions), n)
    decreases |actions|
  {
    if |actions| != 0 {
      StepExact(env, s, actions[0], n + 3 * (|actions| - 1));
      StepRoomy(env, s, actions[0], n + 3 * (|actions| - 1));
      RunMannerly(env, R.Step(env, s, actions[0]), actions[1..], n);
    }
  }

  lemma {:induction false} IdleLeft(tasks: seq<R.Task>)
    requires forall c | 0 <= c < |tasks| :: tasks[c].Idle?
    ensures Left(tasks) == 0
  {
    if |tasks| != 0 {
      IdleLeft(tasks[..|tasks| - 1]);
    }
  }

  lemma {:induction false} StartsSafe(env: DaemonEnv, connections: nat, n: nat)
    requires A.JsonFaithful(env.audit) && n < U64_LIMIT
    ensures AllSafe(env, O.Idlers(connections)) && Roomy(env, O.Idlers(connections), n)
  {
    var s := O.Idlers(connections);
    EmptyLogSound(env.audit);
    IdleLeft(s.tasks);
    assert TalesOf(env, s.w.slots) == map[];
    IdleIsTold(env, s);
  }

  /**
   Enough: however commands overlap, with evictions and every append succeeding, if each that starts may start when it
   does, the log tells the whole registry whenever none is under way.
   */
  lemma {:induction false} MannerlyIsTold(env: DaemonEnv, connections: nat, actions: seq<R.Action>)
    requires A.JsonFaithful(env.audit) && 3 * |actions| < U64_LIMIT
    requires Mannerly(env, O.Idlers(connections), actions) && forall i | 0 <= i < |actions| :: Logs(actions[i])
    ensures var s := R.RunSystem(env, O.Idlers(connections), actions); AllIdle(s) ==> TellsAll(env, s.w)
  {
    StartsSafe(env, connections, 3 * |actions|);
    RunMannerly(env, O.Idlers(connections), actions, 0);
    var s := R.RunSystem(env, O.Idlers(connections), actions);
    if AllIdle(s) { IdleIsTold(env, s); }
  }

  /**
   Exactly the overlaps that matter. After any such run, let one more command start, or one that keeps the registry's lock
   run whole: with the others then going on and none starting, it can end with the log not telling the registry if and
   only if it was not a moment for that command, by what is under way on its key and what the log has of it (and
   for a SUPERSEDE of the successor).
   */
  lemma {:induction false} LogOverlapsAreExact(env: DaemonEnv, connections: nat, actions: seq<R.Action>, a: R.Action,
                                               sign: Digest -> PerFamily, inputs: Inputs)
    requires A.JsonFaithful(env.audit) && 3 * |actions| + 3 < U64_LIMIT
    requires Mannerly(env, O.Idlers(connections), actions) && forall i | 0 <= i < |actions| :: Logs(actions[i])
    requires Logs(a) && O.SaneSign(env, sign) && inputs.logFault == NoFault
    ensures var s := R.RunSystem(env, O.Idlers(connections), actions);
            (exists gos :: EndsUntold(env, R.Step(env, s, a), gos)) <==> !May(env, s, a)
  {
    StartsSafe(env, connections, 3 * |actions| + 3);
    RunMannerly(env, O.Idlers(connections), actions, 3);
    var s := R.RunSystem(env, O.Idlers(connections), actions);
    StepExact(env, s, a, 0);
    StepRoomy(env, s, a, 0);
    SafeIsExact(env, R.Step(env, s, a), sign, inputs);
  }

  /** For one, an INVALIDATE of an active slot while a SET of the key is under way and no DEL: the SET will log it alive. */
  lemma RevokedBesideSet(env: DaemonEnv, s: System, parts: seq<string>, inputs: Inputs)
    requires VerbIn(env, parts).InvalidateVerb? && |parts| >= 4
    requires parts[1] in s.w.slots && s.w.slots[parts[1]].state.Active? && Who(s.tasks, parts[1], Setting) != {}
    requires Who(s.tasks, parts[1], Loud) == {} && Who(s.tasks, parts[1], Quiet) == {}
    ensures !May(env, s, R.Whole(parts, inputs))
  {
    assert EffectOf(env, s.w, parts, inputs).Move?;
  }
}
