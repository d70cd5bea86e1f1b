/** What the gate answers, from nothing but what a connection sent before and was answered. */
module Sessions {
  import opened Basics
  import opened Commands
  import opened Runs
  import opened Gate

  // ── Words and permissions ─────────────────────────────────────────

  predicate IsAuth(word: string) {
    |word| == 4 && word[0] in "Aa" && word[1] in "Uu" && word[2] in "Tt" && word[3] in "Hh"
  }

  predicate IsPing(word: string) {
    |word| == 4 && word[0] in "Pp" && word[1] in "Ii" && word[2] in "Nn" && word[3] in "Gg"
  }

  /** An AUTH that carries a secret. */
  predicate Presents(parts: seq<string>) { |parts| >= 2 && IsAuth(parts[0]) }

  predicate ReadsAt(text: string, i: int, word: string) { 0 <= i <= i + |word| <= |text| && text[i..i + |word|] == word }

  predicate MayWrite(e: ApiKeyEntry) {
    exists i | 0 <= i <= |e.permissions| :: ReadsAt(e.permissions, i, "write") || ReadsAt(e.permissions, i, "admin")
  }

  const GUARDED := ["SET", "DEL", "INVALIDATE", "SUPERSEDE", "FLUSH", "AUDITLOG", "AUDITVERIFY", "AUDITANCHOR"]

  /** Every command that needs a permission is granted by write and by admin. */
  predicate Allowed(env: DaemonEnv, e: ApiKeyEntry, parts: seq<string>) {
    parts != [] && env.upper(parts[0]) in GUARDED ==> MayWrite(e)
  }

  // ── Sessions ──────────────────────────────────────────────────────

  function HashOf(env: DaemonEnv, m: Heard): Digest
    requires Presents(m.parts)
  {
    env.store.sha3(env.utf8(m.parts[1]))
  }

  /** The secret of message `i` was registered; since then no AUTH with a secret came and no revocation was answered. */
  ghost predicate LoggedInBy(env: DaemonEnv, loaded: seq<Keys>, heard: seq<Heard>, i: nat) {
    && i < |heard| && Presents(heard[i].parts) && heard[i].at < |loaded| && HashOf(env, heard[i]) in loaded[heard[i].at]
    && forall j | i < j < |heard| :: !Presents(heard[j].parts) && !heard[j].decision.Revoked?
  }

  function EntryOf(env: DaemonEnv, loaded: seq<Keys>, m: Heard): ApiKeyEntry
    requires Presents(m.parts) && m.at < |loaded| && HashOf(env, m) in loaded[m.at]
  {
    loaded[m.at][HashOf(env, m)]
  }

  /** The connection's fields follow from what it sent. */
  ghost predicate SessionRight(env: DaemonEnv, loaded: seq<Keys>, conn: ConnState, heard: seq<Heard>) {
    && (forall i: nat | LoggedInBy(env, loaded, heard, i) ::
          conn == ConnState(true, Some(EntryOf(env, loaded, heard[i])), Some(HashOf(env, heard[i]))))
    && ((forall i: nat :: !LoggedInBy(env, loaded, heard, i)) ==> conn == ConnState(false, None, None))
    && forall j | 0 <= j < |heard| :: heard[j].at < |loaded|
  }

  /** The answer to a command over this entry and hash. */
  function Verdict(env: DaemonEnv, entry: ApiKeyEntry, hash: Digest, keys: Keys, m: Heard): Decision {
    if entry.opsLimit > 0 && !m.quotaAdmits then OverQuota
    else if hash !in keys then Revoked
    else if !Allowed(env, entry, m.parts) then NoPermission
    else Dispatch
  }

  /** Message `n` was answered as what came before it says. */
  ghost predicate Answered(env: DaemonEnv, loaded: seq<Keys>, heard: seq<Heard>, n: nat)
    requires n < |heard| && heard[n].at < |loaded|
  {
    var m, keys := heard[n], loaded[heard[n].at];
    if m.parts != [] && IsAuth(m.parts[0]) then
      m.decision == if |m.parts| == 1 then AuthWantsKey
                    else if HashOf(env, m) in keys then AuthOk(keys[HashOf(env, m)]) else AuthRefused
    else if m.parts != [] && IsPing(m.parts[0]) then m.decision == PongSent
    else
      && (forall i: nat | LoggedInBy(env, loaded, heard[..n], i) ::
            m.decision == Verdict(env, EntryOf(env, loaded, heard[i]), HashOf(env, heard[i]), keys, m))
      && ((forall i: nat :: !LoggedInBy(env, loaded, heard[..n], i)) ==> m.decision == NotAuthenticated)
  }

  ghost predicate AllAnswered(env: DaemonEnv, loaded: seq<Keys>, heard: seq<Heard>) {
    forall n | 0 <= n < |heard| :: heard[n].at < |loaded| && Answered(env, loaded, heard, n)
  }

  // ── The model's words are these ───────────────────────────────────

  lemma UpperIs(parts: seq<string>)
    ensures FirstWordIs(parts, "AUTH") <==> parts != [] && IsAuth(parts[0])
    ensures FirstWordIs(parts, "PING") <==> parts != [] && IsPing(parts[0])
  {
    if parts != [] {
      var up := AsciiUpper(parts[0]);
      assert up == "AUTH" <==> |up| == 4 && up[0] == 'A' && up[1] == 'U' && up[2] == 'T' && up[3] == 'H';
      assert up == "PING" <==> |up| == 4 && up[0] == 'P' && up[1] == 'I' && up[2] == 'N' && up[3] == 'G';
    }
  }

  lemma WriteIs(e: ApiKeyEntry)
    ensures CanWrite(e) <==> MayWrite(e)
    ensures CanAdmin(e) ==> MayWrite(e)
  {
    if MayWrite(e) {
      var i :| 0 <= i <= |e.permissions| && (ReadsAt(e.permissions, i, "write") || ReadsAt(e.permissions, i, "admin"));
      assert StandsAt(e.permissions, i, "write") || StandsAt(e.permissions, i, "admin");
    }
    forall i: nat, word | i <= |e.permissions| && StandsAt(e.permissions, i, word) ensures ReadsAt(e.permissions, i, word) {
    }
  }

  lemma GuardIs(env: DaemonEnv, parts: seq<string>)
    ensures var verb := VerbIn(env, parts);
            NeedsWrite(verb) || NeedsAdmin(verb) <==> parts != [] && env.upper(parts[0]) in GUARDED
  {
  }

  lemma AllowedIs(env: DaemonEnv, e: ApiKeyEntry, parts: seq<string>)
    ensures Permitted(e, VerbIn(env, parts)) <==> Allowed(env, e, parts)
  {
    WriteIs(e);
    GuardIs(env, parts);
  }

  // ── One message ───────────────────────────────────────────────────

  /** A later message keeps the log-in of an earlier one unless it presents a secret or is answered with a revocation. */
  lemma LoggedInNext(env: DaemonEnv, loaded: seq<Keys>, heard: seq<Heard>, m: Heard, i: nat)
    ensures LoggedInBy(env, loaded, heard + [m], i) <==>
            if i == |heard| then Presents(m.parts) && m.at < |loaded| && HashOf(env, m) in loaded[m.at]
            else LoggedInBy(env, loaded, heard, i) && !Presents(m.parts) && !m.decision.Revoked?
  {
    var all := heard + [m];
    assert all[|heard|] == m;
    if i < |heard| {
      assert all[i] == heard[i];
      if LoggedInBy(env, loaded, all, i) {
        forall j | i < j < |heard| ensures !Presents(heard[j].parts) && !heard[j].decision.Revoked? {
          assert all[j] == heard[j];
        }
      }
      if LoggedInBy(env, loaded, heard, i) && !Presents(m.parts) && !m.decision.Revoked? {
        forall j | i < j < |all| ensures !Presents(all[j].parts) && !all[j].decision.Revoked? {
          assert j < |heard| ==> all[j] == heard[j];
        }
      }
    }
  }

  /** What the gate decides about a command that is neither AUTH nor PING. */
  lemma PassDecides(env: DaemonEnv, keys: Keys, conn: ConnState, m: Heard, held: Option<(ApiKeyEntry, Digest)>)
    requires !FirstWordIs(m.parts, "AUTH") && !FirstWordIs(m.parts, "PING")
    requires conn == if held.Some? then ConnState(true, Some(held.value.0), Some(held.value.1)) else LOGGED_OUT
    ensures var (after, decision) := Pass(env, true, keys, conn, m.parts, m.quotaAdmits);
            && (held.Some? ==> decision == Verdict(env, held.value.0, held.value.1, keys, m))
            && (held.None? ==> decision == NotAuthenticated)
            && after == if decision.Revoked? then LOGGED_OUT else conn
  {
    if held.Some? { AllowedIs(env, held.value.0, m.parts); }
  }

  /** Who is logged in, if anyone. */
  lemma Who(env: DaemonEnv, loaded: seq<Keys>, conn: ConnState, heard: seq<Heard>) returns (i: Option<nat>)
    requires SessionRight(env, loaded, conn, heard)
    ensures i.Some? ==> LoggedInBy(env, loaded, heard, i.value)
    ensures i.None? ==> forall j: nat :: !LoggedInBy(env, loaded, heard, j)
    ensures conn == match i
                    case Some(n) => ConnState(true, Some(EntryOf(env, loaded, heard[n])), Some(HashOf(env, heard[n])))
                    case None => LOGGED_OUT
  {
    if n: nat :| LoggedInBy(env, loaded, heard, n) {
      i := Some(n);
    } else {
      i := None;
    }
  }

  /** Two messages cannot both be the one that logged in. */
  lemma OnlyOne(env: DaemonEnv, loaded: seq<Keys>, heard: seq<Heard>, i: nat, j: nat)
    requires LoggedInBy(env, loaded, heard, i) && LoggedInBy(env, loaded, heard, j)
    ensures i == j
  {
  }

  /** The one who is logged in, as fields. */
  predicate Holds(env: DaemonEnv, loaded: seq<Keys>, conn: ConnState, heard: seq<Heard>, i: Option<nat>) {
    match i
    case None => conn == LOGGED_OUT
    case Some(n) =>
      && n < |heard| && Presents(heard[n].parts) && heard[n].at < |loaded| && HashOf(env, heard[n]) in loaded[heard[n].at]
      && conn == ConnState(true, Some(EntryOf(env, loaded, heard[n])), Some(HashOf(env, heard[n])))
  }

  ghost predicate IsWho(env: DaemonEnv, loaded: seq<Keys>, heard: seq<Heard>, i: Option<nat>) {
    forall j: nat :: LoggedInBy(env, loaded, heard, j) <==> i == Some(j)
  }

  lemma HeldIsRight(env: DaemonEnv, loaded: seq<Keys>, conn: ConnState, heard: seq<Heard>, i: Option<nat>)
    requires IsWho(env, loaded, heard, i) && Holds(env, loaded, conn, heard, i)
    requires forall j | 0 <= j < |heard| :: heard[j].at < |loaded|
    ensures SessionRight(env, loaded, conn, heard)
  {
    if i.Some? { assert LoggedInBy(env, loaded, heard, i.value); }
  }

  lemma RightIsHeld(env: DaemonEnv, loaded: seq<Keys>, conn: ConnState, heard: seq<Heard>) returns (i: Option<nat>)
    requires SessionRight(env, loaded, conn, heard)
    ensures IsWho(env, loaded, heard, i) && Holds(env, loaded, conn, heard, i)
  {
    i := Who(env, loaded, conn, heard);
    forall j: nat ensures LoggedInBy(env, loaded, heard, j) <==> i == Some(j) {
      if i.Some? && LoggedInBy(env, loaded, heard, j) { OnlyOne(env, loaded, heard, i.value, j); }
    }
  }

  /** Who is logged in after a message. */
  function WhoNext(env: DaemonEnv, loaded: seq<Keys>, heard: seq<Heard>, m: Heard, i: Option<nat>): Option<nat>
    requires m.at < |loaded|
  {
    if Presents(m.parts) then if HashOf(env, m) in loaded[m.at] then Some(|heard|) else None
    else if m.decision.Revoked? then None else i
  }

  lemma WhoIsNext(env: DaemonEnv, loaded: seq<Keys>, heard: seq<Heard>, m: Heard, i: Option<nat>)
    requires m.at < |loaded| && IsWho(env, loaded, heard, i)
    ensures IsWho(env, loaded, heard + [m], WhoNext(env, loaded, heard, m, i))
  {
    forall j: nat ensures LoggedInBy(env, loaded, heard + [m], j) <==> WhoNext(env, loaded, heard, m, i) == Some(j) {
      LoggedInNext(env, loaded, heard, m, j);
      if i == Some(j) { assert LoggedInBy(env, loaded, heard, j); }
    }
  }

  lemma StateNext(env: DaemonEnv, loaded: seq<Keys>, conn: ConnState, heard: seq<Heard>, m: Heard, i: Option<nat>)
    requires Holds(env, loaded, conn, heard, i) && m.at < |loaded|
    requires m.decision == Pass(env, true, loaded[m.at], conn, m.parts, m.quotaAdmits).1
    ensures Holds(env, loaded, Pass(env, true, loaded[m.at], conn, m.parts, m.quotaAdmits).0, heard + [m],
                  WhoNext(env, loaded, heard, m, i))
  {
    UpperIs(m.parts);
    if !FirstWordIs(m.parts, "AUTH") && !FirstWordIs(m.parts, "PING") {
      PassDecides(env, loaded[m.at], conn, m, HeldBy(env, loaded, conn, heard, i));
    }
  }

  function HeldBy(env: DaemonEnv, loaded: seq<Keys>, conn: ConnState, heard: seq<Heard>, i: Option<nat>)
    : Option<(ApiKeyEntry, Digest)>
    requires Holds(env, loaded, conn, heard, i)
  {
    match i
    case Some(n) => Some((EntryOf(env, loaded, heard[n]), HashOf(env, heard[n])))
    case None => None
  }

  lemma {:induction false} AnswerNext(env: DaemonEnv, loaded: seq<Keys>, conn: ConnState, heard: seq<Heard>, m: Heard,
                                      i: Option<nat>)
    requires IsWho(env, loaded, heard, i) && Holds(env, loaded, conn, heard, i) && m.at < |loaded|
    requires m.decision == Pass(env, true, loaded[m.at], conn, m.parts, m.quotaAdmits).1
    ensures Answered(env, loaded, heard + [m], |heard|)
  {
    UpperIs(m.parts);
    assert (heard + [m])[..|heard|] == heard;
    if i.Some? { assert LoggedInBy(env, loaded, heard, i.value); }
    if !FirstWordIs(m.parts, "AUTH") && !FirstWordIs(m.parts, "PING") {
      PassDecides(env, loaded[m.at], conn, m, HeldBy(env, loaded, conn, heard, i));
    }
  }

  /** A connection's next message: the state it leaves, and the answer. */
  lemma {:induction false} NextMessage(env: DaemonEnv, loaded: seq<Keys>, conn: ConnState, heard: seq<Heard>, m: Heard)
    requires loaded != [] && SessionRight(env, loaded, conn, heard) && m.at == |loaded| - 1
    requires m.decision == Pass(env, true, loaded[m.at], conn, m.parts, m.quotaAdmits).1
    ensures SessionRight(env, loaded, Pass(env, true, loaded[m.at], conn, m.parts, m.quotaAdmits).0, heard + [m])
    ensures Answered(env, loaded, heard + [m], |heard|)
  {
    var i := RightIsHeld(env, loaded, conn, heard);
    AnswerNext(env, loaded, conn, heard, m, i);
    StateNext(env, loaded, conn, heard, m, i);
    WhoIsNext(env, loaded, heard, m, i);
    HeldIsRight(env, loaded, Pass(env, true, loaded[m.at], conn, m.parts, m.quotaAdmits).0, heard + [m],
                WhoNext(env, loaded, heard, m, i));
  }

  // ── Whole runs ────────────────────────────────────────────────────

  /** Registries loaded later change nothing about what was said before. */
  lemma MoreLoaded(env: DaemonEnv, loaded: seq<Keys>, keys: Keys, conn: ConnState, heard: seq<Heard>)
    requires SessionRight(env, loaded, conn, heard) && AllAnswered(env, loaded, heard)
    ensures SessionRight(env, loaded + [keys], conn, heard) && AllAnswered(env, loaded + [keys], heard)
  {
    SameLogins(env, loaded, keys, heard);
    var i := RightIsHeld(env, loaded, conn, heard);
    assert IsWho(env, loaded + [keys], heard, i);
    HeldIsRight(env, loaded + [keys], conn, heard, i);
    forall n | 0 <= n < |heard| ensures Answered(env, loaded + [keys], heard, n) {
      assert Answered(env, loaded, heard, n);
      SameLogins(env, loaded, keys, heard[..n]);
    }
  }

  lemma SameLogins(env: DaemonEnv, loaded: seq<Keys>, keys: Keys, heard: seq<Heard>)
    requires forall j | 0 <= j < |heard| :: heard[j].at < |loaded|
    ensures forall i: nat :: LoggedInBy(env, loaded + [keys], heard, i) <==> LoggedInBy(env, loaded, heard, i)
  {
    forall i: nat ensures LoggedInBy(env, loaded + [keys], heard, i) <==> LoggedInBy(env, loaded, heard, i) {
      if i < |heard| { assert (loaded + [keys])[heard[i].at] == loaded[heard[i].at]; }
    }
  }

  ghost predicate Sound(env: DaemonEnv, s: Server) {
    Loaded(s) && forall c | 0 <= c < |s.conns| ::
      SessionRight(env, s.loaded, s.conns[c], s.heard[c]) && AllAnswered(env, s.loaded, s.heard[c])
  }

  lemma AnsweredBefore(env: DaemonEnv, loaded: seq<Keys>, heard: seq<Heard>, m: Heard, n: nat)
    requires n < |heard| && heard[n].at < |loaded| && Answered(env, loaded, heard, n)
    ensures Answered(env, loaded, heard + [m], n)
  {
    assert (heard + [m])[..n] == heard[..n];
  }

  lemma {:induction false} HeardSound(env: DaemonEnv, loaded: seq<Keys>, conn: ConnState, heard: seq<Heard>, m: Heard)
    requires loaded != [] && SessionRight(env, loaded, conn, heard) && AllAnswered(env, loaded, heard)
    requires m.at == |loaded| - 1
    requires m.decision == Pass(env, true, loaded[m.at], conn, m.parts, m.quotaAdmits).1
    ensures SessionRight(env, loaded, Pass(env, true, loaded[m.at], conn, m.parts, m.quotaAdmits).0, heard + [m])
    ensures AllAnswered(env, loaded, heard + [m])
  {
    NextMessage(env, loaded, conn, heard, m);
    forall n | 0 <= n < |heard + [m]| ensures (heard + [m])[n].at < |loaded| && Answered(env, loaded, heard + [m], n) {
      if n < |heard| { AnsweredBefore(env, loaded, heard, m, n); }
    }
  }

  lemma ReceiveSound(env: DaemonEnv, s: Server, op: ServerOp)
    requires Sound(env, s) && op.Message? && op.c < |s.conns|
    ensures Sound(env, Receive(env, true, s, op))
  {
    var decision := Pass(env, true, s.loaded[Latest(s)], s.conns[op.c], op.parts, op.quotaAdmits).1;
    HeardSound(env, s.loaded, s.conns[op.c], s.heard[op.c], Heard(op.parts, op.quotaAdmits, decision, Latest(s)));
  }

  lemma ServeSound(env: DaemonEnv, s: Server, op: ServerOp)
    requires Sound(env, s)
    ensures Sound(env, Serve(env, true, s, op))
  {
    match op
    case Connect => NewIsRight(env, s.loaded);
    case Reload(keys) =>
      forall c | 0 <= c < |s.conns|
        ensures SessionRight(env, s.loaded + [keys], s.conns[c], s.heard[c])
        ensures AllAnswered(env, s.loaded + [keys], s.heard[c])
      {
        MoreLoaded(env, s.loaded, keys, s.conns[c], s.heard[c]);
      }
    case Drop(_) =>
    case Message(c, _, _, _) => if c < |s.conns| { ReceiveSound(env, s, op); }
  }

  lemma NewIsRight(env: DaemonEnv, loaded: seq<Keys>)
    ensures SessionRight(env, loaded, Fresh(true), []) && AllAnswered(env, loaded, [])
  {
  }

  /**
   The law of sessions. Whatever connections, messages, key reloads and quota answers there are, with authentication
   required: a connection is authenticated exactly if its last AUTH that carried a secret found it registered, and no
   revocation was answered since; it then holds that hash and that entry, and otherwise nothing. And every message is
   answered from that alone: AUTH and PING at once, a command as not logged in, over quota, revoked, without permission, or
   let through.
   */
  lemma SessionLaw(env: DaemonEnv, keys: Keys, w: World, ops: seq<ServerOp>, c: nat)
    requires c < |ServeAll(env, true, FirstLoad(keys, w), ops).conns|
    ensures var s := ServeAll(env, true, FirstLoad(keys, w), ops);
            && |s.heard| == |s.conns|
            && SessionRight(env, s.loaded, s.conns[c], s.heard[c]) && AllAnswered(env, s.loaded, s.heard[c])
  {
    forall s, op | Sound(env, s) ensures Sound(env, Serve(env, true, s, op)) {
      ServeSound(env, s, op);
    }
    RunKeeps((t: Server, op: ServerOp) => Serve(env, true, t, op), (_: ServerOp) => true,
             (t: Server) => Sound(env, t), FirstLoad(keys, w), ops);
  }

  /** Only a message that is let through does anything to the stores, and that is what its command does. */
  lemma OnlyLetThroughActs(env: DaemonEnv, s: Server, c: nat, parts: seq<string>, quotaAdmits: bool, inputs: Inputs)
    requires Loaded(s) && c < |s.conns|
    ensures var t := Serve(env, true, s, Message(c, parts, quotaAdmits, inputs));
            && Loaded(t) && |t.heard[c]| == |s.heard[c]| + 1 && t.heard[c][..|s.heard[c]|] == s.heard[c]
            && var m := t.heard[c][|s.heard[c]|];
               && m.parts == parts && m.quotaAdmits == quotaAdmits && m.at == |s.loaded| - 1
               && t.w == if m.decision.Dispatch? then Exec(env, s.w, parts, inputs).0 else s.w
  {
  }

  /** Without authentication only the quota of a key that a client chose to present stands between it and a command. */
  lemma OpenGate(env: DaemonEnv, keys: Keys, c: ConnState, parts: seq<string>, quotaAdmits: bool)
    requires parts != [] ==> !IsAuth(parts[0]) && !IsPing(parts[0])
    ensures var (after, decision) := Pass(env, false, keys, c, parts, quotaAdmits);
            && after == c && (decision.Dispatch? || decision.NotAuthenticated? || decision.OverQuota?)
            && (decision.NotAuthenticated? <==> !c.authenticated)
            && (decision.OverQuota? <==>
                  c.authenticated && c.keyEntry.Some? && c.keyEntry.value.opsLimit > 0 && !quotaAdmits)
            && (c == Fresh(false) ==> decision.Dispatch?)
  {
    UpperIs(parts);
  }
}
