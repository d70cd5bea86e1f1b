/** The connection gate: authentication, quota, revocation and permissions before any command runs. */
module Gate {
  import opened Basics
  import opened Commands
  import opened Runs

  // ── Keys and connections ──────────────────────────────────────────

  datatype ApiKeyEntry = ApiKeyEntry(keyId: string, name: string, permissions: string, opsLimit: u64)

  /** SHA3-256 of a secret to its entry, as last loaded. */
  type Keys = map<Digest, ApiKeyEntry>

  datatype ConnState = ConnState(authenticated: bool, keyEntry: Option<ApiKeyEntry>, keyHash: Option<Digest>)

  predicate StandsAt(text: string, i: nat, word: string) {
    i + |word| <= |text| && text[i..i + |word|] == word
  }

  predicate Contains(text: string, word: string) {
    exists i | 0 <= i <= |text| :: StandsAt(text, i, word)
  }

  predicate CanWrite(e: ApiKeyEntry) { Contains(e.permissions, "write") || Contains(e.permissions, "admin") }

  predicate CanAdmin(e: ApiKeyEntry) { Contains(e.permissions, "admin") }

  function AsciiUpper(word: string): string {
    seq(|word|, i requires 0 <= i < |word| =>
      if 'a' <= word[i] <= 'z' then ((word[i] as int) - ('a' as int) + ('A' as int)) as char else word[i])
  }

  /** `eq_ignore_ascii_case` with an upper-case word. */
  predicate FirstWordIs(parts: seq<string>, word: string) {
    parts != [] && AsciiUpper(parts[0]) == word
  }

  // ── The gate ──────────────────────────────────────────────────────

  datatype Decision =
    | AuthOk(entry: ApiKeyEntry) | AuthWantsKey | AuthRefused
    | PongSent | NotAuthenticated | OverQuota | Revoked | NoPermission
    | Dispatch

  function SecretHash(env: DaemonEnv, secret: string): Digest { env.store.sha3(env.utf8(secret)) }

  const LOGGED_OUT := ConnState(false, None, None)

  function Fresh(requireAuth: bool): ConnState { ConnState(!requireAuth, None, None) }

  /** `handle_auth`. */
  function Auth(env: DaemonEnv, keys: Keys, c: ConnState, parts: seq<string>): (ConnState, Decision) {
    if |parts| < 2 then (c, AuthWantsKey)
    else
      var hash := SecretHash(env, parts[1]);
      if hash in keys then (ConnState(true, Some(keys[hash]), Some(hash)), AuthOk(keys[hash]))
      else (LOGGED_OUT, AuthRefused)
  }

  predicate NeedsWrite(verb: Verb) {
    verb.SetVerb? || verb.DelVerb? || verb.InvalidateVerb? || verb.SupersedeVerb? || verb.FlushVerb?
  }

  predicate NeedsAdmin(verb: Verb) {
    verb.AuditLogVerb? || verb.AuditVerifyVerb? || verb.AuditAnchorVerb?
  }

  predicate Permitted(e: ApiKeyEntry, verb: Verb) {
    (NeedsWrite(verb) ==> CanWrite(e)) && (NeedsAdmin(verb) ==> CanAdmin(e) || CanWrite(e))
  }

  /** Whether the quota counter is charged for this connection's commands. */
  predicate Charged(c: ConnState) { c.keyEntry.Some? && c.keyEntry.value.opsLimit > 0 }

  /** The three fields of a connection say the same. */
  predicate InStep(c: ConnState) {
    (c.authenticated <==> c.keyEntry.Some?) && (c.keyEntry.Some? <==> c.keyHash.Some?)
  }

  /**
   The gate on one message. `quotaAdmits` is what the shared counter answers if it is asked. With authentication
   required, exactly these messages reach a command; and a connection changes only by an AUTH that
   succeeds or by losing all it had.
   */
  function Pass(env: DaemonEnv, requireAuth: bool, keys: Keys, c: ConnState, parts: seq<string>, quotaAdmits: bool)
    : (r: (ConnState, Decision))
    ensures InStep(c) ==> InStep(r.0)
    ensures requireAuth && InStep(c) ==>
              (r.1.Dispatch? <==>
                && !FirstWordIs(parts, "AUTH") && !FirstWordIs(parts, "PING")
                && c.keyHash.Some? && c.keyHash.value in keys
                && (c.keyEntry.value.opsLimit > 0 ==> quotaAdmits) && Permitted(c.keyEntry.value, VerbIn(env, parts)))
    ensures r.1.Dispatch? ==> r.0 == c
    ensures r.0 != c ==> r.1.AuthOk? || r.0 == LOGGED_OUT
  {
    if FirstWordIs(parts, "AUTH") then Auth(env, keys, c, parts)
    else if FirstWordIs(parts, "PING") then (c, PongSent)
    else if !c.authenticated then (c, NotAuthenticated)
    else if Charged(c) && !quotaAdmits then (c, OverQuota)
    else if requireAuth && c.keyHash.Some? && c.keyHash.value !in keys then (LOGGED_OUT, Revoked)
    else if requireAuth && c.keyEntry.Some? && !Permitted(c.keyEntry.value, VerbIn(env, parts)) then (c, NoPermission)
    else (c, Dispatch)
  }

  // ── Runs over all connections ─────────────────────────────────────

  /**
   A command let through: the connection's key hash and entry, its verb, and which of the registries loaded so far were
   in force at its check and at the connection's last successful AUTH.
   */
  datatype Dispatched = Dispatched(
    hash: Option<Digest>, entry: Option<ApiKeyEntry>, verb: Verb, checkedAt: nat, authAt: nat)

  /** A message a connection sent, what the quota counter would answer, the gate's decision, and the registry in force. */
  datatype Heard = Heard(parts: seq<string>, quotaAdmits: bool, decision: Decision, at: nat)

  /**
   Every registry loaded so far, the last one in force; for each connection its state, which registry its last
   successful AUTH consulted, and all it sent.
   */
  datatype Server = Server(
    loaded: seq<Keys>, conns: seq<ConnState>, authAt: seq<nat>, w: World, dispatched: seq<Dispatched>,
    heard: seq<seq<Heard>>)

  predicate Loaded(s: Server) { s.loaded != [] && |s.authAt| == |s.conns| == |s.heard| }

  function Latest(s: Server): nat
    requires Loaded(s)
  {
    |s.loaded| - 1
  }

  datatype ServerOp =
    | Connect
    | Message(c: nat, parts: seq<string>, quotaAdmits: bool, inputs: Inputs)
    | Reload(keys: Keys)
    | Drop(key: string)     // the engine drops a key

  function Serve(env: DaemonEnv, requireAuth: bool, s: Server, op: ServerOp): Server {
    if !Loaded(s) then s
    else
      match op
      case Connect => s.(conns := s.conns + [Fresh(requireAuth)], authAt := s.authAt + [0], heard := s.heard + [[]])
      case Reload(keys) => s.(loaded := s.loaded + [keys])
      case Drop(key) => s.(w := s.w.(engine := s.w.engine - {key}))
      case Message(c, parts, quotaAdmits, inputs) => if c >= |s.conns| then s else Receive(env, requireAuth, s, op)
  }

  /** One message on an open connection. */
  function Receive(env: DaemonEnv, requireAuth: bool, s: Server, op: ServerOp): Server
    requires Loaded(s) && op.Message? && op.c < |s.conns|
  {
    var keys := s.loaded[Latest(s)];
    var (conn, decision) := Pass(env, requireAuth, keys, s.conns[op.c], op.parts, op.quotaAdmits);
    var passed := s.(conns := s.conns[op.c := conn],
                     authAt := if decision.AuthOk? then s.authAt[op.c := Latest(s)] else s.authAt,
                     heard := s.heard[op.c := s.heard[op.c] + [Heard(op.parts, op.quotaAdmits, decision, Latest(s))]]);
    if !decision.Dispatch? then passed
    else
      passed.(w := Exec(env, s.w, op.parts, op.inputs).0,
              dispatched := s.dispatched
                            + [Dispatched(conn.keyHash, conn.keyEntry, VerbIn(env, op.parts), Latest(s), s.authAt[op.c])])
  }

  function ServeAll(env: DaemonEnv, requireAuth: bool, s: Server, ops: seq<ServerOp>): Server {
    RunAll((t: Server, op: ServerOp) => Serve(env, requireAuth, t, op), s, ops)
  }

  function FirstLoad(keys: Keys, w: World): Server { Server([keys], [], [], w, [], []) }

  // ── Authentication state ──────────────────────────────────────────

  /** Registry `at` of those loaded has this entry under this hash. */
  predicate HeldIn(loaded: seq<Keys>, at: nat, hash: Digest, entry: ApiKeyEntry) {
    at < |loaded| && hash in loaded[at] && loaded[at][hash] == entry
  }

  /** The fields of a connection are set together, and the entry is the one its AUTH found under the hash. */
  predicate Tied(loaded: seq<Keys>, c: ConnState, authAt: nat) {
    InStep(c) && (c.keyHash.Some? ==> HeldIn(loaded, authAt, c.keyHash.value, c.keyEntry.value))
  }

  /**
   The command came from a key that was registered when the command was checked; the entry that
   permitted it is the one the connection's last successful AUTH, not later, found under that key.
   */
  predicate Lawful(loaded: seq<Keys>, d: Dispatched) {
    && d.hash.Some? && d.entry.Some? && d.authAt <= d.checkedAt < |loaded|
    && d.hash.value in loaded[d.checkedAt]
    && HeldIn(loaded, d.authAt, d.hash.value, d.entry.value) && Permitted(d.entry.value, d.verb)
  }

  predicate ConnsTied(s: Server)
    requires Loaded(s)
  {
    forall c | 0 <= c < |s.conns| :: Tied(s.loaded, s.conns[c], s.authAt[c])
  }

  predicate AllLawful(s: Server) {
    forall i | 0 <= i < |s.dispatched| :: Lawful(s.loaded, s.dispatched[i])
  }

  predicate ServerLawful(s: Server) {
    Loaded(s) && ConnsTied(s) && AllLawful(s)
  }

  lemma PassKeepsTied(env: DaemonEnv, loaded: seq<Keys>, c: ConnState, authAt: nat, parts: seq<string>, quotaAdmits: bool)
    requires loaded != [] && Tied(loaded, c, authAt)
    ensures var (conn, decision) := Pass(env, true, loaded[|loaded| - 1], c, parts, quotaAdmits);
            Tied(loaded, conn, if decision.AuthOk? then |loaded| - 1 else authAt)
  {
  }

  lemma ReceiveTied(env: DaemonEnv, s: Server, op: ServerOp)
    requires ServerLawful(s) && op.Message? && op.c < |s.conns|
    ensures Loaded(Receive(env, true, s, op)) && ConnsTied(Receive(env, true, s, op))
  {
    var t := Receive(env, true, s, op);
    forall c | 0 <= c < |t.conns| ensures Tied(t.loaded, t.conns[c], t.authAt[c]) {
      assert Tied(s.loaded, s.conns[c], s.authAt[c]);
      if c == op.c {
        PassKeepsTied(env, s.loaded, s.conns[c], s.authAt[c], op.parts, op.quotaAdmits);
      }
    }
  }

  lemma ReceiveLawful(env: DaemonEnv, s: Server, op: ServerOp)
    requires ServerLawful(s) && op.Message? && op.c < |s.conns|
    ensures AllLawful(Receive(env, true, s, op))
  {
    var t := Receive(env, true, s, op);
    assert Tied(s.loaded, s.conns[op.c], s.authAt[op.c]);
    forall i | 0 <= i < |t.dispatched| ensures Lawful(t.loaded, t.dispatched[i]) {
      if i < |s.dispatched| { assert Lawful(s.loaded, s.dispatched[i]); }
    }
  }

  lemma ReloadLawful(s: Server, keys: Keys)
    requires ServerLawful(s)
    ensures ServerLawful(s.(loaded := s.loaded + [keys]))
  {
    var t := s.(loaded := s.loaded + [keys]);
    forall c | 0 <= c < |t.conns| ensures Tied(t.loaded, t.conns[c], t.authAt[c]) {
      assert Tied(s.loaded, s.conns[c], s.authAt[c]);
    }
    forall i | 0 <= i < |t.dispatched| ensures Lawful(t.loaded, t.dispatched[i]) {
      assert Lawful(s.loaded, s.dispatched[i]);
    }
  }

  lemma ServeLawful(env: DaemonEnv, s: Server, op: ServerOp)
    requires ServerLawful(s)
    ensures ServerLawful(Serve(env, true, s, op))
  {
    match op
    case Connect =>
      var t := Serve(env, true, s, op);
      forall c | 0 <= c < |t.conns| ensures Tied(t.loaded, t.conns[c], t.authAt[c]) {
        if c < |s.conns| { assert Tied(s.loaded, s.conns[c], s.authAt[c]); }
      }
    case Reload(keys) => ReloadLawful(s, keys);
    case Drop(_) =>
    case Message(c, _, _, _) =>
      if c < |s.conns| {
        ReceiveTied(env, s, op);
        ReceiveLawful(env, s, op);
      }
  }

  /**
   The gate over all runs. Whatever connections, messages, key reloads and quota answers there are, with
   authentication required: the three fields of every connection are set and cleared together, and the entry is
   the one that the registry in force at its last successful AUTH held under its hash; and every command let
   through came from a key registered at its check, permitted by that entry.
   */
  lemma GateOverRuns(env: DaemonEnv, keys: Keys, w: World, ops: seq<ServerOp>)
    ensures ServerLawful(ServeAll(env, true, FirstLoad(keys, w), ops))
  {
    forall s, op | ServerLawful(s) ensures ServerLawful(Serve(env, true, s, op)) {
      ServeLawful(env, s, op);
    }
    RunKeeps((t: Server, op: ServerOp) => Serve(env, true, t, op), (_: ServerOp) => true,
             (t: Server) => ServerLawful(t), FirstLoad(keys, w), ops);
  }

  // ── Entries that change after AUTH ────────────────────────────────

  /** The entry registered when the command was checked, which the gate does not look at. */
  function CurrentEntry(loaded: seq<Keys>, d: Dispatched): ApiKeyEntry
    requires Lawful(loaded, d)
  {
    loaded[d.checkedAt][d.hash.value]
  }

  /**
   What a connection may do under the registry in force. Everything it can get let through, whatever it sends, is permitted
   by the entry now registered under its hash exactly if that entry has write or the one of its AUTH had not: both are known
   before the message comes.
   */
  lemma PermittedWhateverItSends(env: DaemonEnv, keys: Keys, c: ConnState)
    requires InStep(c) && c.authenticated && c.keyHash.value in keys && env.upper("SET") == "SET"
    ensures (forall parts, quotaAdmits :: LetThroughIsPermitted(env, keys, c, parts, quotaAdmits)) <==>
            (CanWrite(c.keyEntry.value) ==> CanWrite(keys[c.keyHash.value]))
  {
    var now := keys[c.keyHash.value];
    SetIsGuarded(env);
    if CanWrite(c.keyEntry.value) && !CanWrite(now) {
      assert !LetThroughIsPermitted(env, keys, c, ["SET"], true);
    }
  }

  /** If the message reaches a command, the entry registered now permits it. */
  predicate LetThroughIsPermitted(env: DaemonEnv, keys: Keys, c: ConnState, parts: seq<string>, quotaAdmits: bool)
    requires InStep(c) && c.authenticated && c.keyHash.value in keys
  {
    Pass(env, true, keys, c, parts, quotaAdmits).1.Dispatch? ==> Permitted(keys[c.keyHash.value], VerbIn(env, parts))
  }

  lemma SetIsGuarded(env: DaemonEnv)
    requires env.upper("SET") == "SET"
    ensures !FirstWordIs(["SET"], "AUTH") && !FirstWordIs(["SET"], "PING") && VerbIn(env, ["SET"]) == SetVerb
  {
    SetWord();
  }

  /** A connection that authenticates with `secret`, a reload, and then `parts`. */
  function DemotionRun(secret: string, demoted: Keys, parts: seq<string>, inputs: Inputs): seq<ServerOp> {
    [Connect, Message(0, ["AUTH", secret], true, inputs), Reload(demoted), Message(0, parts, true, inputs)]
  }

  /**
   The exception is real: a key with write authenticates, a reload takes write from it, and its SET is still let
   through, permitted by the entry of its AUTH and not by the one registered at its check.
   */
  lemma DemotedKeyStillWrites(env: DaemonEnv, w: World, secret: string, before: ApiKeyEntry, after: ApiKeyEntry,
                              inputs: Inputs)
    requires CanWrite(before) && !CanWrite(after) && before.opsLimit == 0 && env.upper("SET") == "SET"
    ensures var hash := SecretHash(env, secret);
            var s := ServeAll(env, true, FirstLoad(map[hash := before], w),
                              DemotionRun(secret, map[hash := after], ["SET", "k", "v"], inputs));
            && s.dispatched == [Dispatched(Some(hash), Some(before), SetVerb, 1, 0)]
            && Lawful(s.loaded, s.dispatched[0])
            && CurrentEntry(s.loaded, s.dispatched[0]) == after
            && !Permitted(CurrentEntry(s.loaded, s.dispatched[0]), s.dispatched[0].verb)
  {
    var hash := SecretHash(env, secret);
    var ops := DemotionRun(secret, map[hash := after], ["SET", "k", "v"], inputs);
    var first, second := map[hash := before], map[hash := after];
    var step := (t: Server, op: ServerOp) => Serve(env, true, t, op);
    var s0 := FirstLoad(first, w);
    var s1 := Server([first], [LOGGED_OUT], [0], w, [], [[]]);
    var s2 := Server([first], [ConnState(true, Some(before), Some(hash))], [0], w, [],
                     [[Heard(["AUTH", secret], true, AuthOk(before), 0)]]);
    var s3 := s2.(loaded := [first, second]);
    assert Serve(env, true, s0, ops[0]) == s1;
    AuthSucceeds(env, s1, secret, inputs);
    assert Serve(env, true, s2, ops[2]) == s3;
    FourSteps(step, s0, ops);
    SetWord();
    assert VerbIn(env, ["SET", "k", "v"]) == SetVerb;
  }

  lemma {:induction false} FourSteps<S, O>(step: (S, O) -> S, s: S, ops: seq<O>)
    requires |ops| == 4
    ensures RunAll(step, s, ops) == step(step(step(step(s, ops[0]), ops[1]), ops[2]), ops[3])
  {
    var t1 := step(s, ops[0]);
    var t2 := step(t1, ops[1]);
    var t3 := step(t2, ops[2]);
    assert RunAll(step, s, ops) == RunAll(step, t1, ops[1..]);
    assert RunAll(step, t1, ops[1..]) == RunAll(step, t2, ops[2..]) by { assert ops[1..][1..] == ops[2..]; }
    assert RunAll(step, t2, ops[2..]) == RunAll(step, t3, ops[3..]) by { assert ops[2..][1..] == ops[3..]; }
    assert RunAll(step, t3, ops[3..]) == step(t3, ops[3]) by {
      assert ops[3..][1..] == [];
      assert RunAll(step, step(t3, ops[3]), []) == step(t3, ops[3]);
    }
  }

  lemma AuthWord()
    ensures AsciiUpper("AUTH") == "AUTH"
  {
  }

  lemma SetWord()
    ensures AsciiUpper("SET") != "AUTH" && AsciiUpper("SET") != "PING"
  {
    assert |AsciiUpper("SET")| == 3 && |"AUTH"| == 4 && |"PING"| == 4;
  }

  // ── Exactly which reloads matter ──────────────────────────────────

  /** The hash is that of some secret a client could send. */
  ghost predicate FromSecret(env: DaemonEnv, hash: Digest) {
    exists secret :: hash == SecretHash(env, secret)
  }

  /** Registry `i` gives the hash write, and registry `j`, as far as it still has the hash, does not. */
  predicate Demotes(loaded: seq<Keys>, i: nat, j: nat, hash: Digest)
    requires i < |loaded| && j < |loaded|
  {
    && hash in loaded[i] && CanWrite(loaded[i][hash])
    && hash in loaded[j] && !CanWrite(loaded[j][hash])
  }

  /** No registry takes write from a key that an earlier one gave it to, short of removing the key. */
  ghost predicate NeverDemotes(env: DaemonEnv, loaded: seq<Keys>) {
    forall secret, i: nat, j: nat | i <= j < |loaded| :: !Demotes(loaded, i, j, SecretHash(env, secret))
  }

  /** The entry registered at the check permits the command. */
  predicate PermittedNow(loaded: seq<Keys>, d: Dispatched) {
    && d.hash.Some? && d.checkedAt < |loaded| && d.hash.value in loaded[d.checkedAt]
    && Permitted(loaded[d.checkedAt][d.hash.value], d.verb)
  }

  /** In this run, if these are the registries it loads, every command let through is permitted at its check. */
  predicate PermittedThroughout(env: DaemonEnv, w: World, loaded: seq<Keys>, ops: seq<ServerOp>)
    requires loaded != []
  {
    var s := ServeAll(env, true, FirstLoad(loaded[0], w), ops);
    s.loaded == loaded ==> forall i | 0 <= i < |s.dispatched| :: PermittedNow(s.loaded, s.dispatched[i])
  }

  ghost predicate HashPresented(env: DaemonEnv, hash: Option<Digest>) {
    hash.Some? ==> FromSecret(env, hash.value)
  }

  /** Every hash a connection holds, and every one let through, came from a secret. */
  ghost predicate Presented(env: DaemonEnv, s: Server) {
    && (forall c | 0 <= c < |s.conns| :: HashPresented(env, s.conns[c].keyHash))
    && (forall i | 0 <= i < |s.dispatched| :: HashPresented(env, s.dispatched[i].hash))
  }

  lemma PassPresents(env: DaemonEnv, keys: Keys, c: ConnState, parts: seq<string>, quotaAdmits: bool)
    requires HashPresented(env, c.keyHash)
    ensures HashPresented(env, Pass(env, true, keys, c, parts, quotaAdmits).0.keyHash)
  {
    if FirstWordIs(parts, "AUTH") && |parts| >= 2 {
      assert FromSecret(env, SecretHash(env, parts[1]));
    }
  }

  lemma ServePresents(env: DaemonEnv, s: Server, op: ServerOp)
    requires Presented(env, s)
    ensures Presented(env, Serve(env, true, s, op))
  {
    if op.Message? && Loaded(s) && op.c < |s.conns| {
      PassPresents(env, s.loaded[Latest(s)], s.conns[op.c], op.parts, op.quotaAdmits);
    }
  }

  lemma RunPresents(env: DaemonEnv, keys: Keys, w: World, ops: seq<ServerOp>)
    ensures Presented(env, ServeAll(env, true, FirstLoad(keys, w), ops))
  {
    forall s, op | Presented(env, s) ensures Presented(env, Serve(env, true, s, op)) {
      ServePresents(env, s, op);
    }
    RunKeeps((t: Server, op: ServerOp) => Serve(env, true, t, op), (_: ServerOp) => true,
             (t: Server) => Presented(env, t), FirstLoad(keys, w), ops);
  }

  lemma KeptWritePermits(env: DaemonEnv, w: World, loaded: seq<Keys>, ops: seq<ServerOp>)
    requires loaded != [] && NeverDemotes(env, loaded)
    ensures PermittedThroughout(env, w, loaded, ops)
  {
    var s := ServeAll(env, true, FirstLoad(loaded[0], w), ops);
    GateOverRuns(env, loaded[0], w, ops);
    RunPresents(env, loaded[0], w, ops);
    if s.loaded == loaded {
      forall i | 0 <= i < |s.dispatched| ensures PermittedNow(s.loaded, s.dispatched[i]) {
        var d := s.dispatched[i];
        assert Lawful(s.loaded, d) && HashPresented(env, d.hash);
        var secret :| d.hash.value == SecretHash(env, secret);
        assert !Demotes(loaded, d.authAt, d.checkedAt, SecretHash(env, secret));
      }
    }
  }

  function Reloads(registries: seq<Keys>): seq<ServerOp> {
    seq(|registries|, i requires 0 <= i < |registries| => Reload(registries[i]))
  }

  lemma {:induction false} ServeConcat(env: DaemonEnv, s: Server, a: seq<ServerOp>, b: seq<ServerOp>)
    ensures ServeAll(env, true, s, a + b) == ServeAll(env, true, ServeAll(env, true, s, a), b)
  {
    RunAllConcat((t: Server, op: ServerOp) => Serve(env, true, t, op), s, a, b);
  }

  lemma {:induction false} ServeOne(env: DaemonEnv, s: Server, op: ServerOp)
    ensures ServeAll(env, true, s, [op]) == Serve(env, true, s, op)
  {
    RunAllOne((t: Server, o: ServerOp) => Serve(env, true, t, o), s, op);
  }

  lemma {:induction false} ServeReloads(env: DaemonEnv, s: Server, registries: seq<Keys>)
    requires Loaded(s)
    ensures ServeAll(env, true, s, Reloads(registries)) == s.(loaded := s.loaded + registries)
    decreases |registries|
  {
    if registries == [] {
      assert s.loaded + registries == s.loaded;
    } else {
      var n := |registries| - 1;
      assert Reloads(registries) == Reloads(registries[..n]) + [Reload(registries[n])];
      ServeReloads(env, s, registries[..n]);
      ServeConcat(env, s, Reloads(registries[..n]), [Reload(registries[n])]);
      ServeOne(env, s.(loaded := s.loaded + registries[..n]), Reload(registries[n]));
      assert s.loaded + registries[..n] + [registries[n]] == s.loaded + registries;
    }
  }

  /** A new connection that authenticates holds the entry registered then. */
  lemma AuthSucceeds(env: DaemonEnv, s: Server, secret: string, inputs: Inputs)
    requires Loaded(s) && s.conns == [LOGGED_OUT] && SecretHash(env, secret) in s.loaded[Latest(s)]
    ensures var hash := SecretHash(env, secret);
            var held := ConnState(true, Some(s.loaded[Latest(s)][hash]), Some(hash));
            var said := Heard(["AUTH", secret], true, AuthOk(held.keyEntry.value), Latest(s));
            Serve(env, true, s, Message(0, ["AUTH", secret], true, inputs))
            == s.(conns := [held], authAt := [Latest(s)], heard := [s.heard[0] + [said]])
  {
    AuthWord();
  }

  /** A bare SET over an entry with write is let through as long as the hash is registered. */
  lemma SetPasses(env: DaemonEnv, s: Server, hash: Digest, entry: ApiKeyEntry, inputs: Inputs)
    requires Loaded(s) && s.conns == [ConnState(true, Some(entry), Some(hash))] && CanWrite(entry)
    requires hash in s.loaded[Latest(s)] && env.upper("SET") == "SET"
    ensures var t := Serve(env, true, s, Message(0, ["SET"], true, inputs));
            && t.loaded == s.loaded && Loaded(t)
            && t.dispatched == s.dispatched + [Dispatched(Some(hash), Some(entry), SetVerb, Latest(s), s.authAt[0])]
  {
    SetIsGuarded(env);
  }

  /** Reloads up to registry `i`, AUTH, reloads up to registry `j`. */
  lemma {:induction false} AuthBetweenReloads(env: DaemonEnv, w: World, loaded: seq<Keys>, secret: string, i: nat, j: nat,
                                              inputs: Inputs) returns (ops: seq<ServerOp>)
    requires i <= j < |loaded| && SecretHash(env, secret) in loaded[i]
    ensures var hash := SecretHash(env, secret);
            var held := ConnState(true, Some(loaded[i][hash]), Some(hash));
            var t := ServeAll(env, true, FirstLoad(loaded[0], w), ops);
            t == Server(loaded[..j + 1], [held], [i], w, [], t.heard) && |t.heard| == 1
  {
    var hash := SecretHash(env, secret);
    var auth := Message(0, ["AUTH", secret], true, inputs);
    var up, on := loaded[1..i + 1], loaded[i + 1..j + 1];
    assert [loaded[0]] + up == loaded[..i + 1] && loaded[..i + 1] + on == loaded[..j + 1];
    var s0 := FirstLoad(loaded[0], w);
    var s1 := Server(loaded[..i + 1], [], [], w, [], []);
    var s2 := Server(loaded[..i + 1], [LOGGED_OUT], [0], w, [], [[]]);
    ServeReloads(env, s0, up);
    assert Serve(env, true, s1, Connect) == s2;
    ServeThen(env, s0, Reloads(up), Connect);
    AuthSucceeds(env, s2, secret, inputs);
    ServeThen(env, s0, Reloads(up) + [Connect], auth);
    var s3 := Serve(env, true, s2, auth);
    assert s3.loaded + on == loaded[..j + 1];
    ServeReloads(env, s3, on);
    ServeConcat(env, s0, Reloads(up) + [Connect] + [auth], Reloads(on));
    ops := Reloads(up) + [Connect] + [auth] + Reloads(on);
  }

  /** Over any registries that demote a key: AUTH before, a SET after, and the rest. */
  lemma {:induction false} DemotionLetsThrough(env: DaemonEnv, w: World, loaded: seq<Keys>, secret: string, i: nat, j: nat,
                                               inputs: Inputs) returns (ops: seq<ServerOp>)
    requires i <= j < |loaded| && Demotes(loaded, i, j, SecretHash(env, secret)) && env.upper("SET") == "SET"
    ensures !PermittedThroughout(env, w, loaded, ops)
  {
    var hash := SecretHash(env, secret);
    var write := Message(0, ["SET"], true, inputs);
    var before := AuthBetweenReloads(env, w, loaded, secret, i, j, inputs);
    var s0 := FirstLoad(loaded[0], w);
    var s4 := ServeAll(env, true, s0, before);
    SetPasses(env, s4, hash, loaded[i][hash], inputs);
    ServeThen(env, s0, before, write);
    var s5 := Serve(env, true, s4, write);
    ServeReloads(env, s5, loaded[j + 1..]);
    ServeConcat(env, s0, before + [write], Reloads(loaded[j + 1..]));
    assert loaded[..j + 1] + loaded[j + 1..] == loaded;
    ops := before + [write] + Reloads(loaded[j + 1..]);
    assert s5.dispatched == [Dispatched(Some(hash), Some(loaded[i][hash]), SetVerb, j, i)];
    var last := ServeAll(env, true, s0, ops);
    assert last == s5.(loaded := loaded);
    assert !PermittedNow(last.loaded, last.dispatched[0]);
  }

  lemma {:induction false} ServeThen(env: DaemonEnv, s: Server, a: seq<ServerOp>, op: ServerOp)
    ensures ServeAll(env, true, s, a + [op]) == Serve(env, true, ServeAll(env, true, s, a), op)
  {
    ServeConcat(env, s, a, [op]);
    ServeOne(env, ServeAll(env, true, s, a), op);
  }

  /**
   Exactly which reloads matter. Given the registries loaded one after the other, every command that any run over them
   lets through is permitted by the entry registered at its check if and only if none of them takes write from a
   key that an earlier one gave it to; removing the key instead is always safe.
   */
  lemma {:induction false} ReloadsThatMatter(env: DaemonEnv, w: World, loaded: seq<Keys>, inputs: Inputs)
    requires loaded != [] && env.upper("SET") == "SET"
    ensures (forall ops :: PermittedThroughout(env, w, loaded, ops)) <==> NeverDemotes(env, loaded)
  {
    if NeverDemotes(env, loaded) {
      forall ops ensures PermittedThroughout(env, w, loaded, ops) {
        KeptWritePermits(env, w, loaded, ops);
      }
    } else {
      var secret, i: nat, j: nat :| i <= j < |loaded| && Demotes(loaded, i, j, SecretHash(env, secret));
      var ops := DemotionLetsThrough(env, w, loaded, secret, i, j, inputs);
    }
  }

  // ── Keys that may only read ───────────────────────────────────────

  predicate ReadsOnly(e: ApiKeyEntry) { !CanWrite(e) }

  /** A key without write and admin changes nothing but the log, whatever it sends and in whatever state. */
  lemma ReadOnlyMessage(env: DaemonEnv, s: Server, c: nat, parts: seq<string>, quotaAdmits: bool, inputs: Inputs)
    requires Loaded(s) && c < |s.conns| && InStep(s.conns[c])
    requires s.conns[c].keyEntry.Some? ==> ReadsOnly(s.conns[c].keyEntry.value)
    ensures var after := Serve(env, true, s, Message(c, parts, quotaAdmits, inputs)).w;
            after.engine == s.w.engine && after.slots == s.w.slots && after.store == s.w.store
  {
    if Pass(env, true, s.loaded[Latest(s)], s.conns[c], parts, quotaAdmits).1.Dispatch? {
      assert !Writes(VerbIn(env, parts));
    }
  }

  predicate KeysReadOnly(keys: Keys) {
    forall h | h in keys :: ReadsOnly(keys[h])
  }

  predicate ConnReadOnly(c: ConnState) {
    InStep(c) && (c.keyEntry.Some? ==> ReadsOnly(c.keyEntry.value))
  }

  predicate Submap(m: map<string, Bytes>, n: map<string, Bytes>) {
    forall k | k in m :: k in n && m[k] == n[k]
  }

  /** Only readers are known, and since `w` nothing was written. */
  predicate Untouched(s: Server, w: World) {
    && Loaded(s) && KeysReadOnly(s.loaded[Latest(s)])
    && (forall i | 0 <= i < |s.conns| :: ConnReadOnly(s.conns[i]))
    && s.w.slots == w.slots && s.w.store == w.store && Submap(s.w.engine, w.engine)
  }

  predicate ReadOnlyOp(op: ServerOp) { op.Reload? ==> KeysReadOnly(op.keys) }

  lemma ServeReadOnly(env: DaemonEnv, s: Server, op: ServerOp, w: World)
    requires Untouched(s, w) && ReadOnlyOp(op)
    ensures Untouched(Serve(env, true, s, op), w)
  {
    if op.Message? && op.c < |s.conns| {
      assert ConnReadOnly(s.conns[op.c]);
      ReadOnlyMessage(env, s, op.c, op.parts, op.quotaAdmits, op.inputs);
      PassReadOnly(env, s.loaded[Latest(s)], s.conns[op.c], op.parts, op.quotaAdmits);
    }
  }

  lemma PassReadOnly(env: DaemonEnv, keys: Keys, c: ConnState, parts: seq<string>, quotaAdmits: bool)
    requires KeysReadOnly(keys) && ConnReadOnly(c)
    ensures ConnReadOnly(Pass(env, true, keys, c, parts, quotaAdmits).0)
  {
  }

  /** While no key with write or admin is registered no run writes: registry and store stay, the engine only drops. */
  lemma ReadersNeverWrite(env: DaemonEnv, keys: Keys, w: World, ops: seq<ServerOp>)
    requires KeysReadOnly(keys) && forall i | 0 <= i < |ops| :: ReadOnlyOp(ops[i])
    ensures Untouched(ServeAll(env, true, FirstLoad(keys, w), ops), w)
  {
    forall s, op | Untouched(s, w) && ReadOnlyOp(op) ensures Untouched(Serve(env, true, s, op), w) {
      ServeReadOnly(env, s, op, w);
    }
    RunKeeps((t: Server, op: ServerOp) => Serve(env, true, t, op), (op: ServerOp) => ReadOnlyOp(op),
             (t: Server) => Untouched(t, w), FirstLoad(keys, w), ops);
  }

  // ── The connection object ─────────────────────────────────────────

  class Connection {
    var authenticated: bool
    var keyEntry: Option<ApiKeyEntry>
    var keyHash: Option<Digest>

    ghost function State(): ConnState
      reads this
    {
      ConnState(authenticated, keyEntry, keyHash)
    }

    constructor (requireAuth: bool)
      ensures State() == Fresh(requireAuth)
    {
      authenticated, keyEntry, keyHash := !requireAuth, None, None;
    }

    method HandleAuth(env: DaemonEnv, keys: Keys, parts: seq<string>) returns (decision: Decision)
      modifies this
      ensures (State(), decision) == Auth(env, keys, old(State()), parts)
    {
      if |parts| < 2 {
        return AuthWantsKey;
      }
      var hash := SecretHash(env, parts[1]);
      if hash in keys {
        authenticated := true;
        keyEntry := Some(keys[hash]);
        keyHash := Some(hash);
        return AuthOk(keys[hash]);
      }
      authenticated := false;
      keyEntry := None;
      keyHash := None;
      return AuthRefused;
    }

    method Admit(env: DaemonEnv, requireAuth: bool, keys: Keys, parts: seq<string>, quotaAdmits: bool)
      returns (decision: Decision)
      modifies this
      ensures (State(), decision) == Pass(env, requireAuth, keys, old(State()), parts, quotaAdmits)
    {
      if parts != [] && AsciiUpper(parts[0]) == "AUTH" {
        decision := HandleAuth(env, keys, parts);
        return;
      }
      if parts != [] && AsciiUpper(parts[0]) == "PING" {
        return PongSent;
      }
      if !authenticated {
        return NotAuthenticated;
      }
      match keyEntry {
        case Some(entry) =>
          if entry.opsLimit > 0 && !quotaAdmits {
            return OverQuota;
          }
        case None =>
      }
      if requireAuth {
        match keyHash {
          case Some(hash) =>
            if hash !in keys {
              authenticated := false;
              keyEntry := None;
              keyHash := None;
              return Revoked;
            }
          case None =>
        }
        match keyEntry {
          case Some(entry) =>
            var verb := VerbIn(env, parts);
            if NeedsWrite(verb) && !CanWrite(entry) {
              return NoPermission;
            }
            if NeedsAdmin(verb) && !CanAdmin(entry) && !CanWrite(entry) {
              return NoPermission;
            }
          case None =>
        }
      }
      return Dispatch;
    }
  }
}
